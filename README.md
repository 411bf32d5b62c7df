# inpol-bot reservation runner, modelled in Dafny

The runner books an appointment slot through the queue-reservation API of
a government portal. It reads three command-line flags (`-caseId`,
`-queueId`, `-token`) and fails if any is missing. It then fetches the
user's profile and the available dates; a status other than 200 on either
request is fatal. It lists the slots of every date, skipping dates whose
request fails. Finally it posts a reservation for each slot in turn and
stops at the first one the server accepts. After most requests it sleeps
for a random 100–1099 ms.

The model keeps the runner's own control flow and treats the network and
the random source as inputs:

- Each response is a status code plus an already decoded body
  (`Trace.Response`).
- Each random value is a `Draw` in [0, 1000), the range of
  `random.nextInt(1000)`.
- What the runner does is recorded as a trace. An `Exchange(request,
  status)` event is one request and the status it got back. A
  `Sleep(ms)` event is one pause.

The files:

- `trace.dfy` (module `Trace`): events, requests, `Latency`, and the
  pacing predicate `WellPaced`. A pause comes directly after a GET that
  got 200 and after a reservation that was refused, and nowhere else.
- `arguments.dfy` (module `Arguments`): the argument loop of `main` as a
  method over the `array<string>` of arguments. It is proved equal to the
  reference function `ScanFrom`, and lemmas describe what each kind of
  round does. The module also holds the `requireNonNull` checks and the
  finding below.
- `fetch.dfy` (module `Fetch`): `fetchProfile`, `fetchAvailableDates` and
  `fetchSlots`. The slot loop is proved equal to `Collected`, the
  concatenation of the slot lists of the dates answered with 200. It is
  also proved equal to `SlotsTrace`, its exchanges and pauses.
- `reservation.dfy` (module `Reservation`): `reserveFirst`, proved against
  `FirstAccepted` (the position of the first 200) and `ReserveTrace`.
- `application.dfy` (module `Application`): `main` as `Launch`, which
  wires the steps together.

Two details of the pacing, as the code has them:

- In fetchSlots, the `continue` for a failed date skips the pause
  (src/main/java/Application.java:128-135).
- reserveFirst pauses after every refused attempt, including the last
  one (src/main/java/Application.java:101-106).

## Model

| member | source | states |
|---|---|---|
| `Arguments.ScanArgs` | src/main/java/Application.java:41-52 | the argument loop, including the in-body `++i` and the `-token` test on `args[++i]`, ends exactly as `Scan` says; an out-of-bounds read is at index `args.length` |
| `Arguments.ScanConcat` | src/main/java/Application.java:44-52 | once the scan gets through a prefix without error, its cursor is at the end of that prefix; the rest is scanned from its own start with the prefix's findings, so the lemmas below apply wherever a round begins |
| `Arguments.CaseIdTakesNextElement` | src/main/java/Application.java:45-46 | `-caseId` sets caseId to the next element, whatever it is; scanning resumes two places on, so the value is never inspected as a flag |
| `Arguments.QueueIdTakesNextElement` | src/main/java/Application.java:47-48 | `-queueId` sets queueId to the next element, and scanning resumes two places on |
| `Arguments.TokenTakenAfterOtherElement` | src/main/java/Application.java:49-50 | `-token` is recognised only as the element after one that is not `-caseId`/`-queueId`; the token is then the element after it, and scanning resumes three places on |
| `Arguments.OtherPairSkipped` | src/main/java/Application.java:49-51 | a round whose first element is not `-caseId`/`-queueId` and whose second is not `-token` changes nothing and skips both elements, even when the first is `-token` itself |
| `Arguments.LastElementReadsPastEnd` | src/main/java/Application.java:45-50 | a round that begins at the last element, flag or not, reads past the end of the array |
| `Arguments.TokenAtEndReadsPastEnd` | src/main/java/Application.java:49-50 | a recognised `-token` in the last position reads past the end for its value |
| `Arguments.OutOfBoundsIndexIsLength` | src/main/java/Application.java:44-51 | the only out-of-bounds read the loop can make is at index `args.length` |
| `Arguments.ScannedValuesFollowFlags` | src/main/java/Application.java:44-51 | every value found stands right after its own flag in the arguments; for the token, that flag also follows an element that is not `-caseId`/`-queueId` |
| `Arguments.CheckArguments` | src/main/java/Application.java:53-55 | the run goes on exactly when all three values are present; otherwise it fails on the first one missing, in the order caseId, queueId, token |
| `Arguments.PairsNeverSetToken` | src/main/java/Application.java:49-51 | arguments given as flag–value pairs, in any order and with no value equal to `-token`, never set the token |
| `Arguments.DocumentedInvocationMissesToken` | src/main/java/Application.java:44-55 | `-caseId C -queueId Q -token T` with `T` not `-token` finds caseId and queueId, but not the token, and fails the token check |
| `Arguments.IntendedScanReadsPairs` | src/main/java/Application.java:49-50 | with the `-token` test on `args[i]`, flag–value pairs in any order set each flag present to the value after its last occurrence |
| `Arguments.IntendedScanReadsDocumentedInvocation` | src/main/java/Application.java:49-50 | with the corrected test, `-caseId C -queueId Q -token T` supplies all three values |
| `Trace.Latency` | src/main/java/Application.java:110-116 | a pause of `nextInt(1000) + 100` ms lies in [100, 1099] |
| `Fetch.FetchProfile` | src/main/java/Application.java:68-82 | one GET for the profile; on 200 the decoded body is returned after one pause; on any other status the step fails with that status and does nothing more |
| `Fetch.FetchAvailableDates` | src/main/java/Application.java:140-154 | one GET for the dates; on 200 one pause, then the dates; on any other status the step fails with that status and does nothing more |
| `Fetch.FetchSlots` | src/main/java/Application.java:119-138 | the collected slots are `Collected(answers)`; the exchanges and pauses are `SlotsTrace`, one GET per date in order and a pause only after a 200 |
| `Fetch.CollectedConcat` | src/main/java/Application.java:121-137 | collection distributes over concatenation of the date list: earlier dates' slots come first, in input-date order |
| `Fetch.RefusedDateContributesNothing` | src/main/java/Application.java:128-131 | a date answered with something other than 200 contributes nothing, and the later dates are collected as if it were absent |
| `Fetch.AcceptedDateContributesItsSlots` | src/main/java/Application.java:132-134 | a date answered with 200 contributes its whole slot list, in the server's order and with duplicates, between the slots of the dates around it |
| `Fetch.CollectedMembership` | src/main/java/Application.java:121-137 | a slot is collected exactly when some date answered with 200 lists it |
| `Fetch.SlotsTraceRequestsEveryDate` | src/main/java/Application.java:121-135 | every date is requested, in the given order, whatever earlier dates got back; the pauses are well placed and in range |
| `Fetch.TwoDatesExample` | src/main/java/Application.java:119-138 | two dates answered with one slot each give exactly those two slots, in date order |
| `Reservation.FirstAccepted` | src/main/java/Application.java:87-104 | the result is the position of a 200 with no 200 before it, or none when no attempt gets 200 |
| `Reservation.Attempts` | src/main/java/Application.java:87-107 | the number of attempts: every attempt but the last is refused, at least one attempt is made when there are slots, and stopping before the end means the last attempt was accepted |
| `Reservation.ReserveFirst` | src/main/java/Application.java:85-108 | no slots: no request and a normal return; a null profile field: the body of the first attempt cannot be built, nothing is sent; otherwise attempts in slot order until the first 200, which wins, and `Attempts` requests in all |
| `Reservation.ReserveTraceShape` | src/main/java/Application.java:87-107 | the k-th reservation request is for the k-th slot, one request per attempt; a pause follows each refusal and none follows the acceptance |
| `Reservation.NoAcceptanceBefore` | src/main/java/Application.java:101-106 | before the first 200, the trace holds no accepted exchange |
| `Reservation.WinnerIsLast` | src/main/java/Application.java:101-104 | when a slot is accepted, that acceptance is the last event and the only accepted exchange: nothing happens after the winner |
| `Reservation.TwoSlotsExample` | src/main/java/Application.java:85-108 | slots 1 and 2 answered with 409 then 200: two reservation requests, for slot 1 and then slot 2, and slot 2 wins |
| `Application.SlotsTraceIsOrderly` | src/main/java/Application.java:121-135 | the slot requests all go to the run's queue, are well paced, and accept no reservation |
| `Application.ReserveTraceIsOrderly` | src/main/java/Application.java:87-107 | reservation requests go to the run's queue and are well paced; the trace ends with the one acceptance when there is one, and holds none otherwise |
| `Application.CollectAndReserve` | src/main/java/Application.java:61-63 | `ReservesFirst`: the dates' slots are collected; with no slots nothing is reserved; a null profile field stops the run before any reservation is sent; otherwise the slots are tried in order and the first accepted one is reserved; the trace is the slot trace followed by the reservation trace |
| `Application.AfterProfile` | src/main/java/Application.java:59-63 | a non-200 dates response ends the run with that status after one exchange; on 200 one pause, then `ReservesFirst` on the decoded dates |
| `Application.Run` | src/main/java/Application.java:57-63 | a non-200 profile or dates response ends the run with that status, with no later request and no pause after it; when both get 200 the trace begins with those two exchanges and their pauses, and the rest is exactly `ReservesFirst` on the profile and dates bodies |
| `Application.Launch` | src/main/java/Application.java:38-65 | an argument error ends the run before any request; with complete arguments the run is `Run`'s, for the scanned caseId and queueId, including the success path of `ReservesFirst`; every request carries the scanned queueId; at most one reservation is accepted and it ends the run; every pause is well placed and within [100, 1099] ms |

## Left out

- Network I/O: building the HTTP client, the requests, their URIs and headers, and `client.send`. Responses are inputs. `Request` records only the path data (queueId, date) and the POST body fields. The headers, which carry the token and the caseId, are not modelled, so the token is checked for presence and then unused.
- Transport failures: an `IOException` from `client.send` ends the run in the source. The model has no transport errors.
- JSON handling: Jackson decoding and encoding. Bodies arrive decoded. Profile values are taken to be strings, and a missing key stands for a JSON null. Slot ids are unbounded integers.
- The unchecked casts and `Map.entry` at the end of `fetchSlots`: a slot object without an `id` or `date`, or with a non-`Integer` id, would fail there after all dates were fetched. The model receives well-formed (id, date) records.
- Real time and randomness: `Thread.sleep` becomes a `Sleep(ms)` event. The random values are inputs, one per loop iteration. An interrupted sleep becomes a `RuntimeException` in the source; this is not modelled.
- `fetchAvailableDates` pauses before decoding its body. Since decoding cannot fail in the model, this ordering is not observable here.
- Logging, and the texts of exception messages. The message for a missing token begins "Please provide caseId"; the model reports the missing variable by name.

## Findings

| source | as written | input that shows it | evidently intended | confidence | as-written member | corrected member |
|---|---|---|---|---|---|---|
| src/main/java/Application.java:49-50 | the third branch tests `args[++i]` against `-token`, so a `-token` at the start of a round is not recognised and the element after it is compared instead | `-caseId C -queueId Q -token T` (the form the program's messages ask for), with `T` not equal to `-token`: token stays null and the run fails with the missing-token error | test `args[i]` against `-token` as for the other two flags, then take `args[++i]` | high; not executed | `Arguments.DocumentedInvocationMissesToken` | `Arguments.IntendedScanReadsDocumentedInvocation` |

`Launch` uses the scan as written, as `main` does. `Run`, which follows the argument check, does not depend on which scan supplied the credentials.
