/** reserveFirst: try the collected slots one after another and stop at the
    first reservation the server accepts. */
module Reservation {
  import opened Trace

  /** How reserveFirst ends: slot `index` was reserved; every slot was
      refused (or there were none); or the request body could not be built
      because a profile field is null (Map.of rejects null values), which
      happens at the first attempt, before anything is sent. */
  datatype Outcome = Reserved(index: nat) | NoneReserved | MissingProfileField

  /** The position of the first 200, if any. */
  function FirstAccepted(statuses: seq<int>): (r: Option<nat>)
    ensures r.Some? ==> r.value < |statuses| && statuses[r.value] == HttpOk
    ensures r.Some? ==> forall j :: 0 <= j < r.value ==> statuses[j] != HttpOk
    ensures r.None? ==> forall j :: 0 <= j < |statuses| ==> statuses[j] != HttpOk
  {
    if statuses == [] then None
    else if statuses[0] == HttpOk then Some(0)
    else match FirstAccepted(statuses[1..])
      case None => None
      case Some(k) => Some(k + 1)
  }

  /** The number of reservations sent once the body can be built: up to and
      including the first accepted one, or all of them. */
  function Attempts(statuses: seq<int>): (n: nat)
    ensures n <= |statuses|
    ensures statuses != [] ==> 0 < n
    ensures forall j :: 0 <= j < n - 1 ==> statuses[j] != HttpOk
    ensures n < |statuses| ==> 0 < n && statuses[n - 1] == HttpOk
  {
    match FirstAccepted(statuses)
    case Some(k) => k + 1
    case None => |statuses|
  }

  function ReserveRequest(queueId: string, caseId: string, slot: Slot,
                          name: string, lastName: string, dateOfBirth: string): Request
  {
    PostReservation(queueId, caseId, slot.id, name, lastName, dateOfBirth)
  }

  /** The exchanges and pauses of the first `n` attempts. */
  function ReserveTrace(queueId: string, caseId: string, slots: seq<Slot>,
                        name: string, lastName: string, dateOfBirth: string,
                        statuses: seq<int>, draw: nat -> Draw, n: nat): seq<Event>
    requires n <= |slots| && n <= |statuses|
  {
    if n == 0 then []
    else ReserveTrace(queueId, caseId, slots, name, lastName, dateOfBirth, statuses, draw, n - 1)
         + Step(ReserveRequest(queueId, caseId, slots[n - 1], name, lastName, dateOfBirth), statuses[n - 1], draw(n - 1))
  }

  /** reserveFirst: `statuses[k]` is the server's answer to the attempt on
      `slots[k]`, and `draw(k)` the random value of the pause after it. */
  method ReserveFirst(queueId: string, caseId: string, slots: seq<Slot>,
                      name: Option<string>, lastName: Option<string>, dateOfBirth: Option<string>,
                      statuses: seq<int>, draw: nat -> Draw)
    returns (outcome: Outcome, trace: seq<Event>)
    requires |statuses| == |slots|
    ensures slots == [] ==> outcome == NoneReserved && trace == []
    ensures slots != [] && (name.None? || lastName.None? || dateOfBirth.None?) ==>
              outcome == MissingProfileField && trace == []
    ensures name.Some? && lastName.Some? && dateOfBirth.Some? ==>
              && outcome == (match FirstAccepted(statuses) case Some(k) => Reserved(k) case None => NoneReserved)
              && trace == ReserveTrace(queueId, caseId, slots, name.value, lastName.value, dateOfBirth.value,
                                       statuses, draw, Attempts(statuses))
  {
    trace := [];
    for k := 0 to |slots|
      invariant forall j :: 0 <= j < k ==> statuses[j] != HttpOk
      invariant k > 0 ==> name.Some? && lastName.Some? && dateOfBirth.Some?
      invariant k > 0 ==> trace == ReserveTrace(queueId, caseId, slots, name.value, lastName.value, dateOfBirth.value,
                                                statuses, draw, k)
      invariant k == 0 ==> trace == []
    {
      if name.None? || lastName.None? || dateOfBirth.None? {
        return MissingProfileField, trace;
      }
      var request := ReserveRequest(queueId, caseId, slots[k], name.value, lastName.value, dateOfBirth.value);
      var status := statuses[k];
      trace := trace + [Exchange(request, status)];
      if status == HttpOk {
        return Reserved(k), trace;
      }
      trace := trace + [Sleep(Latency(draw(k)))];
    }
    outcome := NoneReserved;
  }

  /** Attempts follow the slots strictly in order, one request per attempt;
      each refusal is followed by a pause and the acceptance by none. */
  lemma {:induction false} ReserveTraceShape(queueId: string, caseId: string, slots: seq<Slot>,
                                             name: string, lastName: string, dateOfBirth: string,
                                             statuses: seq<int>, draw: nat -> Draw, n: nat)
    requires n <= |slots| && n <= |statuses|
    ensures |Requests(ReserveTrace(queueId, caseId, slots, name, lastName, dateOfBirth, statuses, draw, n))| == n
    ensures forall k :: 0 <= k < n ==>
              Requests(ReserveTrace(queueId, caseId, slots, name, lastName, dateOfBirth, statuses, draw, n))[k]
              == ReserveRequest(queueId, caseId, slots[k], name, lastName, dateOfBirth)
    ensures WellPaced(ReserveTrace(queueId, caseId, slots, name, lastName, dateOfBirth, statuses, draw, n))
    ensures DelaysInRange(ReserveTrace(queueId, caseId, slots, name, lastName, dateOfBirth, statuses, draw, n))
  {
    if n > 0 {
      ReserveTraceShape(queueId, caseId, slots, name, lastName, dateOfBirth, statuses, draw, n - 1);
      AppendStep(ReserveTrace(queueId, caseId, slots, name, lastName, dateOfBirth, statuses, draw, n - 1),
                 ReserveRequest(queueId, caseId, slots[n - 1], name, lastName, dateOfBirth), statuses[n - 1], draw(n - 1));
    }
  }

  /** Before attempt `n`, the trace holds no accepted reservation. */
  lemma {:induction false} NoAcceptanceBefore(queueId: string, caseId: string, slots: seq<Slot>,
                                              name: string, lastName: string, dateOfBirth: string,
                                              statuses: seq<int>, draw: nat -> Draw, n: nat)
    requires n <= |slots| && n <= |statuses|
    requires forall j :: 0 <= j < n ==> statuses[j] != HttpOk
    ensures forall e | e in ReserveTrace(queueId, caseId, slots, name, lastName, dateOfBirth, statuses, draw, n) ::
              e.Exchange? ==> e.status != HttpOk
  {
    if n > 0 {
      NoAcceptanceBefore(queueId, caseId, slots, name, lastName, dateOfBirth, statuses, draw, n - 1);
    }
  }

  /** When some slot is accepted, the run of attempts ends with that
      acceptance: it is the last event and the only accepted exchange. */
  lemma WinnerIsLast(queueId: string, caseId: string, slots: seq<Slot>,
                     name: string, lastName: string, dateOfBirth: string,
                     statuses: seq<int>, draw: nat -> Draw)
    requires |statuses| == |slots|
    requires FirstAccepted(statuses).Some?
    ensures var t := ReserveTrace(queueId, caseId, slots, name, lastName, dateOfBirth, statuses, draw, Attempts(statuses));
            var w := FirstAccepted(statuses).value;
            && t != []
            && t[|t| - 1] == Exchange(ReserveRequest(queueId, caseId, slots[w], name, lastName, dateOfBirth), HttpOk)
            && forall e | e in t[..|t| - 1] :: e.Exchange? ==> e.status != HttpOk
  {
    var w := FirstAccepted(statuses).value;
    var before := ReserveTrace(queueId, caseId, slots, name, lastName, dateOfBirth, statuses, draw, w);
    var t := ReserveTrace(queueId, caseId, slots, name, lastName, dateOfBirth, statuses, draw, w + 1);
    assert t == before + [Exchange(ReserveRequest(queueId, caseId, slots[w], name, lastName, dateOfBirth), HttpOk)];
    assert t[..|t| - 1] == before;
    NoAcceptanceBefore(queueId, caseId, slots, name, lastName, dateOfBirth, statuses, draw, w);
  }

  /** The example of two slots where the first attempt is refused with 409
      and the second accepted: two reservations are sent and slot 2 wins. */
  lemma TwoSlotsExample(queueId: string, caseId: string, name: string, lastName: string, dateOfBirth: string,
                        draw: nat -> Draw)
    ensures FirstAccepted([409, 200]) == Some(1) && Attempts([409, 200]) == 2
    ensures Requests(ReserveTrace(queueId, caseId, [Slot(1, "d1"), Slot(2, "d2")], name, lastName, dateOfBirth,
                                  [409, 200], draw, 2))
         == [PostReservation(queueId, caseId, 1, name, lastName, dateOfBirth),
             PostReservation(queueId, caseId, 2, name, lastName, dateOfBirth)]
  {
    assert [409, 200][1..] == [200];
    ReserveTraceShape(queueId, caseId, [Slot(1, "d1"), Slot(2, "d2")], name, lastName, dateOfBirth, [409, 200], draw, 2);
  }
}
