/** What the runner makes observable: the HTTP exchanges it performs, in
    order, and the pauses it sleeps between them. The network and the
    random source are not modelled; their answers are inputs. */
module Trace {

  datatype Option<T> = None | Some(value: T)

  /** HTTP status the runner treats as success. */
  const HttpOk := 200

  /** A value of random.nextInt(1000). */
  type Draw = d: int | 0 <= d < 1000

  /** The pause, in milliseconds, that addLatency sleeps for after drawing `draw`. */
  function Latency(draw: Draw): (ms: int)
    ensures 100 <= ms <= 1099
  {
    draw + 100
  }

  /** A slot as fetchSlots reports it: its identifier and the server's date for it. */
  datatype Slot = Slot(id: int, date: string)

  /** A response whose body has already been decoded. */
  datatype Response<T> = Response(status: int, body: T)

  /** The requests the runner sends; headers are not part of the model. */
  datatype Request =
    | GetProfile(queueId: string)
    | GetDates(queueId: string)
    | GetSlots(queueId: string, date: string)
    | PostReservation(queueId: string, proceedingId: string, slotId: int,
                      name: string, lastName: string, dateOfBirth: string)

  datatype Event =
    | Exchange(request: Request, status: int)
    | Sleep(ms: int)

  /** Whether the runner sleeps right after this exchange: after a GET that
      succeeded, and after a reservation that was refused. */
  predicate PausesAfter(request: Request, status: int)
  {
    if request.PostReservation? then status != HttpOk else status == HttpOk
  }

  /** At position `j`: a pause directly follows an exchange that calls for
      one, and an exchange calls for a pause exactly when one follows it. */
  predicate PacedAt(trace: seq<Event>, j: nat)
    requires j < |trace|
  {
    match trace[j]
    case Sleep(_) => 0 < j && trace[j - 1].Exchange? && PausesAfter(trace[j - 1].request, trace[j - 1].status)
    case Exchange(request, status) => PausesAfter(request, status) <==> j + 1 < |trace| && trace[j + 1].Sleep?
  }

  predicate WellPaced(trace: seq<Event>)
  {
    forall j: nat | j < |trace| :: PacedAt(trace, j)
  }

  /** Every pause lasts between 100 and 1099 milliseconds. */
  predicate DelaysInRange(trace: seq<Event>)
  {
    forall j | 0 <= j < |trace| && trace[j].Sleep? :: 100 <= trace[j].ms <= 1099
  }

  /** The requests of a trace, in the order they were sent. */
  function Requests(trace: seq<Event>): seq<Request>
  {
    if trace == [] then []
    else (if trace[0].Exchange? then [trace[0].request] else []) + Requests(trace[1..])
  }

  /** One request, its answer, and the pause the runner takes after it if any. */
  function Step(request: Request, status: int, draw: Draw): seq<Event>
  {
    [Exchange(request, status)] + if PausesAfter(request, status) then [Sleep(Latency(draw))] else []
  }

  lemma StepShape(request: Request, status: int, draw: Draw)
    ensures WellPaced(Step(request, status, draw))
    ensures DelaysInRange(Step(request, status, draw))
    ensures Requests(Step(request, status, draw)) == [request]
  {
    var s := Step(request, status, draw);
    if PausesAfter(request, status) {
      assert s[1..] == [Sleep(Latency(draw))] && s[1..][1..] == [];
      assert Requests(s[1..]) == [] + Requests(s[1..][1..]) == [];
    } else {
      assert s[1..] == [];
    }
  }

  lemma {:induction false} RequestsConcat(a: seq<Event>, b: seq<Event>)
    ensures Requests(a + b) == Requests(a) + Requests(b)
    decreases |a|
  {
    if a == [] {
      assert a + b == b;
    } else {
      assert (a + b)[1..] == a[1..] + b;
      RequestsConcat(a[1..], b);
    }
  }

  /** Two well-paced traces glue into one: the second cannot start with a pause. */
  lemma WellPacedConcat(a: seq<Event>, b: seq<Event>)
    requires WellPaced(a) && WellPaced(b)
    ensures WellPaced(a + b)
  {
    if b != [] {
      assert PacedAt(b, 0);
    }
    var t := a + b;
    forall j: nat | j < |t|
      ensures PacedAt(t, j)
    {
      if j < |a| {
        assert PacedAt(a, j);
        assert t[j] == a[j];
        assert 0 < j ==> t[j - 1] == a[j - 1];
        if j + 1 < |a| {
          assert t[j + 1] == a[j + 1];
        } else if b != [] {
          assert t[j + 1] == b[0];
        }
      } else {
        var k := j - |a|;
        assert PacedAt(b, k);
        assert t[j] == b[k];
        assert k + 1 < |b| ==> t[j + 1] == b[k + 1];
        if 0 < k {
          assert t[j - 1] == b[k - 1];
        }
      }
    }
  }

  lemma DelaysConcat(a: seq<Event>, b: seq<Event>)
    requires DelaysInRange(a) && DelaysInRange(b)
    ensures DelaysInRange(a + b)
  {
  }

  /** Appending one step keeps a trace well paced, within the delay range,
      and adds exactly that step's request. */
  lemma AppendStep(trace: seq<Event>, request: Request, status: int, draw: Draw)
    requires WellPaced(trace) && DelaysInRange(trace)
    ensures WellPaced(trace + Step(request, status, draw))
    ensures DelaysInRange(trace + Step(request, status, draw))
    ensures Requests(trace + Step(request, status, draw)) == Requests(trace) + [request]
  {
    StepShape(request, status, draw);
    WellPacedConcat(trace, Step(request, status, draw));
    DelaysConcat(trace, Step(request, status, draw));
    RequestsConcat(trace, Step(request, status, draw));
  }
}
