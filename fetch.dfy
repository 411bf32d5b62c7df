/** The three GET steps of the run: the profile, the available dates, and
    the slots of each date. Each response arrives already decoded. */
module Fetch {
  import opened Trace

  /** The decoded profile object; an absent key stands for a null value. */
  type Profile = map<string, string>

  /** A step that either yields its decoded body or fails on a status other
      than 200 (the IllegalStateException "Unknown response"). */
  datatype Fetched<T> = Fetched(value: T) | UnknownResponse(status: int)

  /** fetchProfile: one GET; on 200 the body is returned after a pause,
      on anything else the step fails at once. */
  method FetchProfile(queueId: string, response: Response<Profile>, draw: Draw)
    returns (result: Fetched<Profile>, trace: seq<Event>)
    ensures result.Fetched? <==> response.status == HttpOk
    ensures result.Fetched? ==> result.value == response.body
    ensures result.UnknownResponse? ==> result.status == response.status
    ensures result.Fetched? ==> trace == [Exchange(GetProfile(queueId), HttpOk), Sleep(Latency(draw))]
    ensures result.UnknownResponse? ==> trace == [Exchange(GetProfile(queueId), response.status)]
    ensures trace == Step(GetProfile(queueId), response.status, draw)
  {
    trace := [Exchange(GetProfile(queueId), response.status)];
    if response.status == HttpOk {
      var value := response.body;
      trace := trace + [Sleep(Latency(draw))];
      return Fetched(value), trace;
    }
    result := UnknownResponse(response.status);
  }

  /** fetchAvailableDates: one GET; on 200 a pause, then the dates in the
      server's order; on anything else the step fails at once. */
  method FetchAvailableDates(queueId: string, response: Response<seq<string>>, draw: Draw)
    returns (result: Fetched<seq<string>>, trace: seq<Event>)
    ensures result.Fetched? <==> response.status == HttpOk
    ensures result.Fetched? ==> result.value == response.body
    ensures result.UnknownResponse? ==> result.status == response.status
    ensures result.Fetched? ==> trace == [Exchange(GetDates(queueId), HttpOk), Sleep(Latency(draw))]
    ensures result.UnknownResponse? ==> trace == [Exchange(GetDates(queueId), response.status)]
    ensures trace == Step(GetDates(queueId), response.status, draw)
  {
    trace := [Exchange(GetDates(queueId), response.status)];
    if response.status == HttpOk {
      trace := trace + [Sleep(Latency(draw))];
      return Fetched(response.body), trace;
    }
    result := UnknownResponse(response.status);
  }

  /** The slots a date's answer contributes: its decoded list on 200, nothing otherwise. */
  function Accepted(answer: Response<seq<Slot>>): seq<Slot>
  {
    if answer.status == HttpOk then answer.body else []
  }

  /** The slots collected from the answers to the dates' requests, in order. */
  function Collected(answers: seq<Response<seq<Slot>>>): seq<Slot>
  {
    if answers == [] then []
    else Collected(answers[..|answers| - 1]) + Accepted(answers[|answers| - 1])
  }

  /** The exchanges and pauses of the first `n` dates. */
  function SlotsTrace(queueId: string, dates: seq<string>, answers: seq<Response<seq<Slot>>>,
                      draw: nat -> Draw, n: nat): seq<Event>
    requires n <= |dates| && n <= |answers|
  {
    if n == 0 then []
    else SlotsTrace(queueId, dates, answers, draw, n - 1)
         + Step(GetSlots(queueId, dates[n - 1]), answers[n - 1].status, draw(n - 1))
  }

  /** fetchSlots: `answers[k]` is the server's answer for `dates[k]`, and
      `draw(k)` the random value of the pause after it, if there is one. */
  method FetchSlots(queueId: string, dates: seq<string>, answers: seq<Response<seq<Slot>>>, draw: nat -> Draw)
    returns (slots: seq<Slot>, trace: seq<Event>)
    requires |answers| == |dates|
    ensures slots == Collected(answers)
    ensures trace == SlotsTrace(queueId, dates, answers, draw, |dates|)
  {
    var builder: seq<Slot> := [];
    trace := [];
    for k := 0 to |dates|
      invariant builder == Collected(answers[..k])
      invariant trace == SlotsTrace(queueId, dates, answers, draw, k)
    {
      assert answers[..k + 1][..k] == answers[..k];
      var response := answers[k];
      trace := trace + [Exchange(GetSlots(queueId, dates[k]), response.status)];
      if response.status != HttpOk {
        continue;
      }
      var decoded := response.body;
      for j := 0 to |decoded|
        invariant builder == Collected(answers[..k]) + decoded[..j]
      {
        builder := builder + [decoded[j]];
      }
      trace := trace + [Sleep(Latency(draw(k)))];
    }
    assert answers[..|dates|] == answers;
    slots := builder;
  }

  /** The dates' contributions concatenate: earlier dates' slots come first. */
  lemma {:induction false} CollectedConcat(a: seq<Response<seq<Slot>>>, b: seq<Response<seq<Slot>>>)
    ensures Collected(a + b) == Collected(a) + Collected(b)
    decreases |b|
  {
    if b == [] {
      assert a + b == a;
    } else {
      var c := a + b;
      assert c[..|c| - 1] == a + b[..|b| - 1];
      assert c[|c| - 1] == b[|b| - 1];
      CollectedConcat(a, b[..|b| - 1]);
    }
  }

  /** A date answered with anything but 200 contributes nothing, and the
      dates after it are collected as if it were absent. */
  lemma RefusedDateContributesNothing(before: seq<Response<seq<Slot>>>, refused: Response<seq<Slot>>,
                                      after: seq<Response<seq<Slot>>>)
    requires refused.status != HttpOk
    ensures Collected(before + [refused] + after) == Collected(before + after)
  {
    CollectedConcat(before + [refused], after);
    CollectedConcat(before, [refused]);
    assert [refused][..0] == [];
    CollectedConcat(before, after);
  }

  /** A date answered with 200 contributes its slots in the server's order,
      duplicates included, between those of the dates around it. */
  lemma AcceptedDateContributesItsSlots(before: seq<Response<seq<Slot>>>, accepted: Response<seq<Slot>>,
                                        after: seq<Response<seq<Slot>>>)
    requires accepted.status == HttpOk
    ensures Collected(before + [accepted] + after) == Collected(before) + accepted.body + Collected(after)
  {
    CollectedConcat(before + [accepted], after);
    CollectedConcat(before, [accepted]);
    assert [accepted][..0] == [];
  }

  /** A slot is collected exactly when some date answered with 200 lists it. */
  lemma {:induction false} CollectedMembership(answers: seq<Response<seq<Slot>>>, slot: Slot)
    ensures slot in Collected(answers)
        <==> exists k :: 0 <= k < |answers| && answers[k].status == HttpOk && slot in answers[k].body
    decreases |answers|
  {
    if answers != [] {
      var init := answers[..|answers| - 1];
      var last := answers[|answers| - 1];
      CollectedMembership(init, slot);
      if slot in Collected(init) {
        var k :| 0 <= k < |init| && init[k].status == HttpOk && slot in init[k].body;
        assert answers[k] == init[k];
      }
      if exists k :: 0 <= k < |answers| && answers[k].status == HttpOk && slot in answers[k].body {
        var k :| 0 <= k < |answers| && answers[k].status == HttpOk && slot in answers[k].body;
        if k < |init| { assert init[k] == answers[k]; }
      }
    }
  }

  /** Every date is requested, in the given order, whatever the earlier dates' answers were. */
  lemma {:induction false} SlotsTraceRequestsEveryDate(queueId: string, dates: seq<string>,
                                                       answers: seq<Response<seq<Slot>>>, draw: nat -> Draw, n: nat)
    requires n <= |dates| && n <= |answers|
    ensures |Requests(SlotsTrace(queueId, dates, answers, draw, n))| == n
    ensures forall k :: 0 <= k < n ==> Requests(SlotsTrace(queueId, dates, answers, draw, n))[k] == GetSlots(queueId, dates[k])
    ensures WellPaced(SlotsTrace(queueId, dates, answers, draw, n))
    ensures DelaysInRange(SlotsTrace(queueId, dates, answers, draw, n))
  {
    if n > 0 {
      SlotsTraceRequestsEveryDate(queueId, dates, answers, draw, n - 1);
      AppendStep(SlotsTrace(queueId, dates, answers, draw, n - 1),
                 GetSlots(queueId, dates[n - 1]), answers[n - 1].status, draw(n - 1));
    }
  }

  /** The example of two dates whose answers list one slot each. */
  lemma TwoDatesExample()
    ensures Collected([Response(200, [Slot(1, "2022-01-10T09:00")]), Response(200, [Slot(2, "2022-01-11T10:00")])])
         == [Slot(1, "2022-01-10T09:00"), Slot(2, "2022-01-11T10:00")]
  {
  }
}
