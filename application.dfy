/** main: scan the arguments, insist on all three, then fetch the profile,
    the dates and their slots, and try to reserve one of the slots. */
module Application {
  import opened Trace
  import opened Arguments
  import opened Fetch
  import opened Reservation

  /** What the server answers: `slots(k)` to the k-th date's request and
      `reservations(k)` to the k-th reservation attempt. */
  datatype Server = Server(profile: Response<Profile>, dates: Response<seq<string>>,
                           slots: nat -> Response<seq<Slot>>, reservations: nat -> int)

  /** The values random.nextInt(1000) returns at each pause of the run. */
  datatype Jitter = Jitter(profile: Draw, dates: Draw, slots: nat -> Draw, reservations: nat -> Draw)

  /** How a run ends. The first four are exceptions that end the process. */
  datatype Stop =
    | ArgumentIndexOutOfBounds(index: nat)
    | MissingArgument(name: string)
    | UnexpectedResponse(status: int)
    | NullProfileField
    | SlotReserved(slot: Slot)
    | NothingReserved

  /** profile.get(key): the value, or None for null. */
  function Field(profile: Profile, key: string): Option<string>
  {
    if key in profile then Some(profile[key]) else None
  }

  /** The server's answers to the requests for the first `n` dates. */
  function SlotAnswers(server: Server, n: nat): (answers: seq<Response<seq<Slot>>>)
    ensures |answers| == n
    ensures forall k :: 0 <= k < n ==> answers[k] == server.slots(k)
  {
    seq(n, k requires 0 <= k => server.slots(k))
  }

  /** The server's answers to the first `n` reservation attempts. */
  function ReservationStatuses(server: Server, n: nat): (statuses: seq<int>)
    ensures |statuses| == n
    ensures forall k :: 0 <= k < n ==> statuses[k] == server.reservations(k)
  {
    seq(n, k requires 0 <= k => server.reservations(k))
  }

  predicate AcceptedReservation(e: Event)
  {
    e.Exchange? && e.request.PostReservation? && e.status == HttpOk
  }

  /** No reservation in the trace was accepted. */
  predicate NoneAccepted(trace: seq<Event>)
  {
    forall e | e in trace :: !AcceptedReservation(e)
  }

  /** The trace ends with the one accepted reservation it holds. */
  predicate EndsWithAcceptance(trace: seq<Event>)
  {
    trace != [] && AcceptedReservation(trace[|trace| - 1]) && NoneAccepted(trace[..|trace| - 1])
  }

  /** Well paced, every pause in range, and every request addressed to `queueId`. */
  predicate Orderly(trace: seq<Event>, queueId: string)
  {
    WellPaced(trace) && DelaysInRange(trace) && forall r | r in Requests(trace) :: r.queueId == queueId
  }

  /** Gluing the rest of a run after a prefix that reserved nothing. */
  lemma Glue(prefix: seq<Event>, rest: seq<Event>, queueId: string)
    requires Orderly(prefix, queueId) && Orderly(rest, queueId) && NoneAccepted(prefix)
    ensures Orderly(prefix + rest, queueId)
    ensures NoneAccepted(rest) ==> NoneAccepted(prefix + rest)
    ensures EndsWithAcceptance(rest) ==> EndsWithAcceptance(prefix + rest)
    ensures rest != [] ==> (prefix + rest)[|prefix + rest| - 1] == rest[|rest| - 1]
  {
    WellPacedConcat(prefix, rest);
    DelaysConcat(prefix, rest);
    RequestsConcat(prefix, rest);
    if rest != [] {
      var t := prefix + rest;
      assert t[..|t| - 1] == prefix + rest[..|rest| - 1];
    }
  }

  lemma {:induction false} SlotsTraceIsOrderly(queueId: string, dates: seq<string>,
                                               answers: seq<Response<seq<Slot>>>, draw: nat -> Draw, n: nat)
    requires n <= |dates| && n <= |answers|
    ensures Orderly(SlotsTrace(queueId, dates, answers, draw, n), queueId)
    ensures NoneAccepted(SlotsTrace(queueId, dates, answers, draw, n))
  {
    SlotsTraceRequestsEveryDate(queueId, dates, answers, draw, n);
    if n > 0 {
      SlotsTraceIsOrderly(queueId, dates, answers, draw, n - 1);
    }
    var t := SlotsTrace(queueId, dates, answers, draw, n);
    forall r | r in Requests(t) ensures r.queueId == queueId {
      var k :| 0 <= k < |Requests(t)| && Requests(t)[k] == r;
    }
  }

  lemma ReserveTraceIsOrderly(queueId: string, caseId: string, slots: seq<Slot>,
                              name: string, lastName: string, dateOfBirth: string,
                              statuses: seq<int>, draw: nat -> Draw)
    requires |statuses| == |slots|
    ensures var t := ReserveTrace(queueId, caseId, slots, name, lastName, dateOfBirth, statuses, draw, Attempts(statuses));
            && Orderly(t, queueId)
            && (FirstAccepted(statuses).Some? ==>
                  EndsWithAcceptance(t) && t[|t| - 1].request.slotId == slots[FirstAccepted(statuses).value].id)
            && (FirstAccepted(statuses).None? ==> NoneAccepted(t))
  {
    var n := Attempts(statuses);
    var t := ReserveTrace(queueId, caseId, slots, name, lastName, dateOfBirth, statuses, draw, n);
    ReserveTraceShape(queueId, caseId, slots, name, lastName, dateOfBirth, statuses, draw, n);
    forall r | r in Requests(t) ensures r.queueId == queueId {
      var k :| 0 <= k < |Requests(t)| && Requests(t)[k] == r;
    }
    if FirstAccepted(statuses).Some? {
      WinnerIsLast(queueId, caseId, slots, name, lastName, dateOfBirth, statuses, draw);
    } else {
      NoAcceptanceBefore(queueId, caseId, slots, name, lastName, dateOfBirth, statuses, draw, n);
    }
  }

  /** What fetchSlots followed by reserveFirst does with `profile` and `dates`:
      the slots of the dates answered with 200 are collected; with no slots
      nothing is reserved; a null profile field stops the run before the
      first reservation; otherwise the slots are tried in order and the
      first one accepted is the one reserved. */
  ghost predicate ReservesFirst(caseId: string, queueId: string, profile: Profile, dates: seq<string>,
                                server: Server, jitter: Jitter, stop: Stop, trace: seq<Event>)
  {
    var answers := SlotAnswers(server, |dates|);
    var slots := Collected(answers);
    var statuses := ReservationStatuses(server, |slots|);
    var name, lastName, dateOfBirth := Field(profile, "firstName"), Field(profile, "surname"), Field(profile, "dateOfBirth");
    && (stop.SlotReserved? || stop.NothingReserved? || stop.NullProfileField?)
    && (stop.NullProfileField? <==> slots != [] && (name.None? || lastName.None? || dateOfBirth.None?))
    && (stop.SlotReserved? <==> !stop.NullProfileField? && FirstAccepted(statuses).Some?)
    && (stop.SlotReserved? ==> stop.slot == slots[FirstAccepted(statuses).value])
    && (stop.NullProfileField? || slots == [] ==> trace == SlotsTrace(queueId, dates, answers, jitter.slots, |dates|))
    && (name.Some? && lastName.Some? && dateOfBirth.Some? ==>
          trace == SlotsTrace(queueId, dates, answers, jitter.slots, |dates|)
                   + ReserveTrace(queueId, caseId, slots, name.value, lastName.value, dateOfBirth.value,
                                  statuses, jitter.reservations, Attempts(statuses)))
  }

  /** fetchSlots followed by reserveFirst, once the profile and the dates are in. */
  method CollectAndReserve(caseId: string, queueId: string, profile: Profile, dates: seq<string>,
                           server: Server, jitter: Jitter)
    returns (stop: Stop, trace: seq<Event>)
    ensures ReservesFirst(caseId, queueId, profile, dates, server, jitter, stop, trace)
    ensures stop.SlotReserved? ==> stop.slot in Collected(SlotAnswers(server, |dates|))
    ensures stop.SlotReserved? ==> EndsWithAcceptance(trace) && trace[|trace| - 1].request.slotId == stop.slot.id
    ensures !stop.SlotReserved? ==> NoneAccepted(trace)
    ensures Orderly(trace, queueId)
  {
    var answers := SlotAnswers(server, |dates|);
    var slots, slotsTrace := FetchSlots(queueId, dates, answers, jitter.slots);
    SlotsTraceIsOrderly(queueId, dates, answers, jitter.slots, |dates|);

    var statuses := ReservationStatuses(server, |slots|);
    var name := Field(profile, "firstName");
    var lastName := Field(profile, "surname");
    var dateOfBirth := Field(profile, "dateOfBirth");
    var outcome, reserveTrace := ReserveFirst(queueId, caseId, slots, name, lastName, dateOfBirth,
                                              statuses, jitter.reservations);
    if name.Some? && lastName.Some? && dateOfBirth.Some? {
      ReserveTraceIsOrderly(queueId, caseId, slots, name.value, lastName.value, dateOfBirth.value,
                            statuses, jitter.reservations);
    } else {
      assert reserveTrace == [];
    }
    Glue(slotsTrace, reserveTrace, queueId);
    trace := slotsTrace + reserveTrace;

    match outcome
    case Reserved(k) =>
      CollectedMembership(answers, slots[k]);
      stop := SlotReserved(slots[k]);
    case NoneReserved =>
      stop := NothingReserved;
    case MissingProfileField =>
      stop := NullProfileField;
  }

  /** The run after the profile has arrived: the dates GET, fatal on a
      status other than 200, then the slots and the reservation. */
  method AfterProfile(caseId: string, queueId: string, profile: Profile, server: Server, jitter: Jitter)
    returns (stop: Stop, trace: seq<Event>)
    ensures server.dates.status != HttpOk ==>
              stop == UnexpectedResponse(server.dates.status)
              && trace == [Exchange(GetDates(queueId), server.dates.status)]
    ensures server.dates.status == HttpOk ==>
              && |trace| >= 2
              && trace[..2] == [Exchange(GetDates(queueId), HttpOk), Sleep(Latency(jitter.dates))]
              && ReservesFirst(caseId, queueId, profile, server.dates.body, server, jitter, stop, trace[2..])
    ensures stop.SlotReserved? ==> stop.slot in Collected(SlotAnswers(server, |server.dates.body|))
    ensures stop.SlotReserved? ==> EndsWithAcceptance(trace) && trace[|trace| - 1].request.slotId == stop.slot.id
    ensures !stop.SlotReserved? ==> NoneAccepted(trace)
    ensures Orderly(trace, queueId)
  {
    var dates, datesTrace := FetchAvailableDates(queueId, server.dates, jitter.dates);
    StepShape(GetDates(queueId), server.dates.status, jitter.dates);
    if dates.UnknownResponse? {
      return UnexpectedResponse(dates.status), datesTrace;
    }
    var rest;
    stop, rest := CollectAndReserve(caseId, queueId, profile, dates.value, server, jitter);
    Glue(datesTrace, rest, queueId);
    trace := datesTrace + rest;
    assert trace[..2] == datesTrace && trace[2..] == rest;
  }

  /** The run once the arguments are complete: the two precursor GETs, each
      fatal on a status other than 200, then the slots and the reservation. */
  method Run(caseId: string, queueId: string, server: Server, jitter: Jitter)
    returns (stop: Stop, trace: seq<Event>)
    ensures server.profile.status != HttpOk ==>
              stop == UnexpectedResponse(server.profile.status)
              && trace == [Exchange(GetProfile(queueId), server.profile.status)]
    ensures server.profile.status == HttpOk && server.dates.status != HttpOk ==>
              stop == UnexpectedResponse(server.dates.status)
              && trace == [Exchange(GetProfile(queueId), HttpOk), Sleep(Latency(jitter.profile)),
                           Exchange(GetDates(queueId), server.dates.status)]
    ensures server.profile.status == HttpOk && server.dates.status == HttpOk ==>
              && |trace| >= 4
              && trace[..4] == [Exchange(GetProfile(queueId), HttpOk), Sleep(Latency(jitter.profile)),
                                Exchange(GetDates(queueId), HttpOk), Sleep(Latency(jitter.dates))]
              && ReservesFirst(caseId, queueId, server.profile.body, server.dates.body, server, jitter, stop, trace[4..])
    ensures stop.SlotReserved? ==> stop.slot in Collected(SlotAnswers(server, |server.dates.body|))
    ensures stop.SlotReserved? ==> EndsWithAcceptance(trace) && trace[|trace| - 1].request.slotId == stop.slot.id
    ensures !stop.SlotReserved? ==> NoneAccepted(trace)
    ensures Orderly(trace, queueId)
  {
    var profile, profileTrace := FetchProfile(queueId, server.profile, jitter.profile);
    StepShape(GetProfile(queueId), server.profile.status, jitter.profile);
    if profile.UnknownResponse? {
      return UnexpectedResponse(profile.status), profileTrace;
    }
    var rest;
    stop, rest := AfterProfile(caseId, queueId, profile.value, server, jitter);
    Glue(profileTrace, rest, queueId);
    trace := profileTrace + rest;
    assert trace[..2] == profileTrace && trace[2..] == rest;
    if server.dates.status == HttpOk {
      assert trace[..4] == profileTrace + rest[..2] && trace[4..] == rest[2..];
    }
  }

  /** main, with the network and the random source replaced by `server` and `jitter`. */
  method Launch(args: array<string>, server: Server, jitter: Jitter) returns (stop: Stop, trace: seq<Event>)
    ensures stop.ArgumentIndexOutOfBounds? <==> Scan(args[..]).IndexOutOfBounds?
    ensures stop.ArgumentIndexOutOfBounds? ==> stop.index == args.Length
    ensures stop.MissingArgument? <==> Scan(args[..]).Scanned? && CheckArguments(Scan(args[..]).found).Missing?
    ensures stop.MissingArgument? ==> stop.name == CheckArguments(Scan(args[..]).found).name
    ensures stop.ArgumentIndexOutOfBounds? || stop.MissingArgument? ==> trace == []
    ensures Scan(args[..]).Scanned? && CheckArguments(Scan(args[..]).found).Complete? ==>
              var queueId := CheckArguments(Scan(args[..]).found).queueId;
              && Orderly(trace, queueId)
              && (server.profile.status != HttpOk ==>
                    stop == UnexpectedResponse(server.profile.status)
                    && trace == [Exchange(GetProfile(queueId), server.profile.status)])
              && (server.profile.status == HttpOk && server.dates.status != HttpOk ==>
                    stop == UnexpectedResponse(server.dates.status)
                    && trace == [Exchange(GetProfile(queueId), HttpOk), Sleep(Latency(jitter.profile)),
                                 Exchange(GetDates(queueId), server.dates.status)])
              && (server.profile.status == HttpOk && server.dates.status == HttpOk ==>
                    && |trace| >= 4
                    && trace[..4] == [Exchange(GetProfile(queueId), HttpOk), Sleep(Latency(jitter.profile)),
                                      Exchange(GetDates(queueId), HttpOk), Sleep(Latency(jitter.dates))]
                    && ReservesFirst(CheckArguments(Scan(args[..]).found).caseId, queueId, server.profile.body,
                                     server.dates.body, server, jitter, stop, trace[4..]))
    ensures stop.SlotReserved? ==> stop.slot in Collected(SlotAnswers(server, |server.dates.body|))
    ensures stop.SlotReserved? ==> EndsWithAcceptance(trace) && trace[|trace| - 1].request.slotId == stop.slot.id
    ensures !stop.SlotReserved? ==> NoneAccepted(trace)
    ensures WellPaced(trace) && DelaysInRange(trace)
  {
    var scanned := ScanArgs(args);
    if scanned.IndexOutOfBounds? {
      return ArgumentIndexOutOfBounds(scanned.index), [];
    }
    var checked := CheckArguments(scanned.found);
    if checked.Missing? {
      return MissingArgument(checked.name), [];
    }
    stop, trace := Run(checked.caseId, checked.queueId, server, jitter);
  }
}
