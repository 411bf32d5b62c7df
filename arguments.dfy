/** The command-line scan at the start of main: one pass over the argument
    array that fills caseId, queueId and token, followed by the check that
    none of them is still missing. */
module Arguments {
  import opened Trace

  const CaseIdFlag := "-caseId"
  const QueueIdFlag := "-queueId"
  const TokenFlag := "-token"

  /** The three variables the scan fills; None stands for Java's null. */
  datatype Credentials = Credentials(caseId: Option<string>, queueId: Option<string>, token: Option<string>)

  const NoneFound := Credentials(None, None, None)

  /** How the scan ends: normally, or by reading `args[index]` past the end
      of the array (an ArrayIndexOutOfBoundsException). */
  datatype ScanOutcome =
    | Scanned(found: Credentials)
    | IndexOutOfBounds(index: nat)

  /** The scan from cursor `i`, with `found` filled so far. Each round looks
      at args[i]; a -caseId or -queueId flag takes args[i + 1]; anything else
      makes the round compare args[i + 1] with -token and, on a match, take
      args[i + 2]. The round's own increment then moves past what it read. */
  function ScanFrom(args: seq<string>, i: nat, found: Credentials): ScanOutcome
    decreases |args| - i
  {
    if i >= |args| then Scanned(found)
    else if args[i] == CaseIdFlag then
      if i + 1 < |args| then ScanFrom(args, i + 2, found.(caseId := Some(args[i + 1])))
      else IndexOutOfBounds(i + 1)
    else if args[i] == QueueIdFlag then
      if i + 1 < |args| then ScanFrom(args, i + 2, found.(queueId := Some(args[i + 1])))
      else IndexOutOfBounds(i + 1)
    else if i + 1 >= |args| then IndexOutOfBounds(i + 1)
    else if args[i + 1] == TokenFlag then
      if i + 2 < |args| then ScanFrom(args, i + 3, found.(token := Some(args[i + 2])))
      else IndexOutOfBounds(i + 2)
    else ScanFrom(args, i + 2, found)
  }

  function Scan(args: seq<string>): ScanOutcome
  {
    ScanFrom(args, 0, NoneFound)
  }

  /** The argument loop of main, over the array as the JVM passes it. */
  method ScanArgs(args: array<string>) returns (outcome: ScanOutcome)
    ensures outcome == Scan(args[..])
    ensures outcome.IndexOutOfBounds? ==> outcome.index == args.Length
  {
    var found := NoneFound;
    var i := 0;
    while i < args.Length
      invariant 0 <= i <= args.Length
      invariant ScanFrom(args[..], i, found) == Scan(args[..])
      decreases args.Length - i
    {
      if args[i] == CaseIdFlag {
        i := i + 1;
        if i >= args.Length { return IndexOutOfBounds(i); }
        found := found.(caseId := Some(args[i]));
      } else if args[i] == QueueIdFlag {
        i := i + 1;
        if i >= args.Length { return IndexOutOfBounds(i); }
        found := found.(queueId := Some(args[i]));
      } else {
        i := i + 1;
        if i >= args.Length { return IndexOutOfBounds(i); }
        if args[i] == TokenFlag {
          i := i + 1;
          if i >= args.Length { return IndexOutOfBounds(i); }
          found := found.(token := Some(args[i]));
        }
      }
      i := i + 1;
    }
    outcome := Scanned(found);
  }

  /** Moves the index of an out-of-bounds read `offset` positions to the right. */
  function Shifted(outcome: ScanOutcome, offset: nat): ScanOutcome
  {
    match outcome
    case Scanned(_) => outcome
    case IndexOutOfBounds(index) => IndexOutOfBounds(index + offset)
  }

  /** Scanning past a prefix is scanning the rest, with indices moved by the prefix's length. */
  lemma {:induction false} ScanFromShift(prefix: seq<string>, rest: seq<string>, i: nat, found: Credentials)
    ensures ScanFrom(prefix + rest, |prefix| + i, found) == Shifted(ScanFrom(rest, i, found), |prefix|)
    decreases |rest| - i
  {
    var a := prefix + rest;
    var n := |prefix|;
    if i < |rest| {
      assert a[n + i] == rest[i];
      if i + 1 < |rest| { assert a[n + i + 1] == rest[i + 1]; }
      if i + 2 < |rest| { assert a[n + i + 2] == rest[i + 2]; }
      if rest[i] == CaseIdFlag {
        if i + 1 < |rest| { ScanFromShift(prefix, rest, i + 2, found.(caseId := Some(rest[i + 1]))); }
      } else if rest[i] == QueueIdFlag {
        if i + 1 < |rest| { ScanFromShift(prefix, rest, i + 2, found.(queueId := Some(rest[i + 1]))); }
      } else if i + 1 < |rest| {
        if rest[i + 1] == TokenFlag {
          if i + 2 < |rest| { ScanFromShift(prefix, rest, i + 3, found.(token := Some(rest[i + 2]))); }
        } else {
          ScanFromShift(prefix, rest, i + 2, found);
        }
      }
    }
  }

  /** A prefix that the scan gets through without error leaves the cursor at
      its end: what follows is scanned from its own start, with the prefix's
      findings. So the lemmas below about the start of an argument list hold
      wherever a round of the scan begins. */
  lemma {:induction false} ScanConcat(prefix: seq<string>, rest: seq<string>, i: nat, found: Credentials)
    requires i <= |prefix|
    requires ScanFrom(prefix, i, found).Scanned?
    ensures ScanFrom(prefix + rest, i, found)
         == Shifted(ScanFrom(rest, 0, ScanFrom(prefix, i, found).found), |prefix|)
    decreases |prefix| - i
  {
    var a := prefix + rest;
    if i == |prefix| {
      ScanFromShift(prefix, rest, 0, found);
    } else {
      assert a[i] == prefix[i];
      if i + 1 < |prefix| { assert a[i + 1] == prefix[i + 1]; }
      if i + 2 < |prefix| { assert a[i + 2] == prefix[i + 2]; }
      if prefix[i] == CaseIdFlag {
        ScanConcat(prefix, rest, i + 2, found.(caseId := Some(prefix[i + 1])));
      } else if prefix[i] == QueueIdFlag {
        ScanConcat(prefix, rest, i + 2, found.(queueId := Some(prefix[i + 1])));
      } else if prefix[i + 1] == TokenFlag {
        ScanConcat(prefix, rest, i + 3, found.(token := Some(prefix[i + 2])));
      } else {
        ScanConcat(prefix, rest, i + 2, found);
      }
    }
  }

  /** -caseId takes the next element, whatever it is, and the scan resumes
      after it: the value is never itself looked at as a flag. */
  lemma CaseIdTakesNextElement(value: string, rest: seq<string>, found: Credentials)
    ensures ScanFrom([CaseIdFlag, value] + rest, 0, found)
         == Shifted(ScanFrom(rest, 0, found.(caseId := Some(value))), 2)
  {
    ScanFromShift([CaseIdFlag, value], rest, 0, found.(caseId := Some(value)));
  }

  /** -queueId takes the next element, whatever it is, and the scan resumes after it. */
  lemma QueueIdTakesNextElement(value: string, rest: seq<string>, found: Credentials)
    ensures ScanFrom([QueueIdFlag, value] + rest, 0, found)
         == Shifted(ScanFrom(rest, 0, found.(queueId := Some(value))), 2)
  {
    ScanFromShift([QueueIdFlag, value], rest, 0, found.(queueId := Some(value)));
  }

  /** -token is recognised only as the second element of a round whose first
      element is not -caseId or -queueId; it then takes the element after it
      and the scan resumes past the three. */
  lemma TokenTakenAfterOtherElement(other: string, value: string, rest: seq<string>, found: Credentials)
    requires other != CaseIdFlag && other != QueueIdFlag
    ensures ScanFrom([other, TokenFlag, value] + rest, 0, found)
         == Shifted(ScanFrom(rest, 0, found.(token := Some(value))), 3)
  {
    ScanFromShift([other, TokenFlag, value], rest, 0, found.(token := Some(value)));
  }

  /** A round whose first element is not -caseId or -queueId and whose second
      is not -token skips both and changes nothing, even when the first
      element is -token itself. */
  lemma OtherPairSkipped(first: string, second: string, rest: seq<string>, found: Credentials)
    requires first != CaseIdFlag && first != QueueIdFlag && second != TokenFlag
    ensures ScanFrom([first, second] + rest, 0, found) == Shifted(ScanFrom(rest, 0, found), 2)
  {
    ScanFromShift([first, second], rest, 0, found);
  }

  /** Any element at which a round begins in the last position, flag or not,
      makes the scan read past the end of the array. */
  lemma LastElementReadsPastEnd(prefix: seq<string>, last: string, found: Credentials)
    requires ScanFrom(prefix, 0, found).Scanned?
    ensures ScanFrom(prefix + [last], 0, found) == IndexOutOfBounds(|prefix| + 1)
  {
    ScanConcat(prefix, [last], 0, found);
  }

  /** A recognised -token in the last position has no value to take. */
  lemma TokenAtEndReadsPastEnd(prefix: seq<string>, other: string, found: Credentials)
    requires ScanFrom(prefix, 0, found).Scanned?
    requires other != CaseIdFlag && other != QueueIdFlag
    ensures ScanFrom(prefix + [other, TokenFlag], 0, found) == IndexOutOfBounds(|prefix| + 2)
  {
    ScanConcat(prefix, [other, TokenFlag], 0, found);
  }

  /** The only out-of-bounds read the scan can make is at index args.length. */
  lemma {:induction false} OutOfBoundsIndexIsLength(args: seq<string>, i: nat, found: Credentials)
    requires i <= |args|
    ensures ScanFrom(args, i, found).IndexOutOfBounds? ==> ScanFrom(args, i, found).index == |args|
    decreases |args| - i
  {
    if i < |args| {
      if args[i] == CaseIdFlag {
        if i + 2 <= |args| { OutOfBoundsIndexIsLength(args, i + 2, found.(caseId := Some(args[i + 1]))); }
      } else if args[i] == QueueIdFlag {
        if i + 2 <= |args| { OutOfBoundsIndexIsLength(args, i + 2, found.(queueId := Some(args[i + 1]))); }
      } else if i + 1 < |args| {
        if args[i + 1] == TokenFlag {
          if i + 3 <= |args| { OutOfBoundsIndexIsLength(args, i + 3, found.(token := Some(args[i + 2]))); }
        } else {
          OutOfBoundsIndexIsLength(args, i + 2, found);
        }
      }
    }
  }

  /** Each value found stands right after its flag in `args`; a token's flag
      moreover follows an element that is not -caseId or -queueId. */
  ghost predicate FollowsFlags(args: seq<string>, found: Credentials)
  {
    && (found.caseId.Some? ==>
          exists k :: 0 < k < |args| && args[k - 1] == CaseIdFlag && args[k] == found.caseId.value)
    && (found.queueId.Some? ==>
          exists k :: 0 < k < |args| && args[k - 1] == QueueIdFlag && args[k] == found.queueId.value)
    && (found.token.Some? ==>
          exists k :: 1 < k < |args| && args[k - 1] == TokenFlag && args[k] == found.token.value
                      && args[k - 2] != CaseIdFlag && args[k - 2] != QueueIdFlag)
  }

  lemma {:induction false} ScanKeepsFollowsFlags(args: seq<string>, i: nat, found: Credentials)
    requires FollowsFlags(args, found)
    requires ScanFrom(args, i, found).Scanned?
    ensures FollowsFlags(args, ScanFrom(args, i, found).found)
    decreases |args| - i
  {
    if i < |args| {
      if args[i] == CaseIdFlag {
        var next := found.(caseId := Some(args[i + 1]));
        assert args[(i + 1) - 1] == CaseIdFlag;
        ScanKeepsFollowsFlags(args, i + 2, next);
      } else if args[i] == QueueIdFlag {
        var next := found.(queueId := Some(args[i + 1]));
        assert args[(i + 1) - 1] == QueueIdFlag;
        ScanKeepsFollowsFlags(args, i + 2, next);
      } else if args[i + 1] == TokenFlag {
        var next := found.(token := Some(args[i + 2]));
        assert args[(i + 2) - 1] == TokenFlag && args[(i + 2) - 2] == args[i];
        ScanKeepsFollowsFlags(args, i + 3, next);
      } else {
        ScanKeepsFollowsFlags(args, i + 2, found);
      }
    }
  }

  /** Whatever the scan finds was taken from the element right after its flag. */
  lemma ScannedValuesFollowFlags(args: seq<string>)
    requires Scan(args).Scanned?
    ensures FollowsFlags(args, Scan(args).found)
  {
    ScanKeepsFollowsFlags(args, 0, NoneFound);
  }

  /** The result of requireNonNull on the three variables, in the order main checks them. */
  datatype Checked =
    | Complete(caseId: string, queueId: string, token: string)
    | Missing(name: string)

  function CheckArguments(found: Credentials): (r: Checked)
    ensures r.Complete? <==> found.caseId.Some? && found.queueId.Some? && found.token.Some?
    ensures r.Complete? ==> found == Credentials(Some(r.caseId), Some(r.queueId), Some(r.token))
    ensures r == Missing("caseId") <==> found.caseId.None?
    ensures r == Missing("queueId") <==> found.caseId.Some? && found.queueId.None?
    ensures r == Missing("token") <==> found.caseId.Some? && found.queueId.Some? && found.token.None?
  {
    match (found.caseId, found.queueId, found.token)
    case (None, _, _) => Missing("caseId")
    case (Some(_), None, _) => Missing("queueId")
    case (Some(_), Some(_), None) => Missing("token")
    case (Some(c), Some(q), Some(t)) => Complete(c, q, t)
  }

  // The invocation the program asks for, `-caseId C -queueId Q -token T`,
  // does not supply the token: the -token flag starts a round at an even
  // index, and that round compares the element after it, T, with -token.

  /** Arguments of even length in which no element at an odd index is -token. */
  predicate FlagValuePairs(args: seq<string>)
  {
    |args| % 2 == 0 && forall k | 0 <= k < |args| && k % 2 == 1 :: args[k] != TokenFlag
  }

  lemma {:induction false} PairsNeverSetTokenFrom(args: seq<string>, i: nat, found: Credentials)
    requires FlagValuePairs(args) && i % 2 == 0 && i <= |args|
    requires found.token.None?
    ensures ScanFrom(args, i, found).Scanned?
    ensures ScanFrom(args, i, found).found.token.None?
    decreases |args| - i
  {
    if i < |args| {
      assert (i + 1) % 2 == 1 && i + 1 < |args|;
      if args[i] == CaseIdFlag {
        PairsNeverSetTokenFrom(args, i + 2, found.(caseId := Some(args[i + 1])));
      } else if args[i] == QueueIdFlag {
        PairsNeverSetTokenFrom(args, i + 2, found.(queueId := Some(args[i + 1])));
      } else {
        assert args[i + 1] != TokenFlag;
        PairsNeverSetTokenFrom(args, i + 2, found);
      }
    }
  }

  /** Flag-value pairs, in any order, never set the token. */
  lemma PairsNeverSetToken(args: seq<string>)
    requires FlagValuePairs(args)
    ensures Scan(args).Scanned? && Scan(args).found.token.None?
  {
    PairsNeverSetTokenFrom(args, 0, NoneFound);
  }

  /** The documented invocation as written: caseId and queueId are found, the token is not. */
  lemma DocumentedInvocationMissesToken(caseId: string, queueId: string, token: string)
    requires token != TokenFlag
    ensures Scan([CaseIdFlag, caseId, QueueIdFlag, queueId, TokenFlag, token])
         == Scanned(Credentials(Some(caseId), Some(queueId), None))
    ensures CheckArguments(Credentials(Some(caseId), Some(queueId), None)) == Missing("token")
  {
    var tail := [QueueIdFlag, queueId, TokenFlag, token];
    assert [CaseIdFlag, caseId, QueueIdFlag, queueId, TokenFlag, token] == [CaseIdFlag, caseId] + tail;
    CaseIdTakesNextElement(caseId, tail, NoneFound);
    assert tail == [QueueIdFlag, queueId] + [TokenFlag, token];
    QueueIdTakesNextElement(queueId, [TokenFlag, token], NoneFound.(caseId := Some(caseId)));
    assert [TokenFlag, token] == [TokenFlag, token] + [];
    OtherPairSkipped(TokenFlag, token, [], Credentials(Some(caseId), Some(queueId), None));
  }

  /** The scan with the -token test on args[i], as for the other two flags:
      each flag takes the next element, anything else is stepped over. */
  function IntendedScanFrom(args: seq<string>, i: nat, found: Credentials): ScanOutcome
    decreases |args| - i
  {
    if i >= |args| then Scanned(found)
    else if args[i] == CaseIdFlag || args[i] == QueueIdFlag || args[i] == TokenFlag then
      if i + 1 >= |args| then IndexOutOfBounds(i + 1)
      else if args[i] == CaseIdFlag then IntendedScanFrom(args, i + 2, found.(caseId := Some(args[i + 1])))
      else if args[i] == QueueIdFlag then IntendedScanFrom(args, i + 2, found.(queueId := Some(args[i + 1])))
      else IntendedScanFrom(args, i + 2, found.(token := Some(args[i + 1])))
    else IntendedScanFrom(args, i + 1, found)
  }

  /** Arguments made of whole flag-value pairs: each even index holds one of the three flags. */
  predicate FlagsAtEvenIndices(args: seq<string>)
  {
    |args| % 2 == 0
    && forall k | 0 <= k < |args| && k % 2 == 0 :: args[k] == CaseIdFlag || args[k] == QueueIdFlag || args[k] == TokenFlag
  }

  /** The value that follows the last occurrence of `flag` at an even index
      from `i` on, or `otherwise` when there is none. */
  function LastValue(args: seq<string>, flag: string, i: nat, otherwise: Option<string>): Option<string>
    requires |args| % 2 == 0 && i % 2 == 0
    decreases |args| - i
  {
    if i >= |args| then otherwise
    else LastValue(args, flag, i + 2, if args[i] == flag then Some(args[i + 1]) else otherwise)
  }

  lemma {:induction false} IntendedScanReadsPairsFrom(args: seq<string>, i: nat, found: Credentials)
    requires FlagsAtEvenIndices(args) && i % 2 == 0 && i <= |args|
    ensures IntendedScanFrom(args, i, found)
         == Scanned(Credentials(LastValue(args, CaseIdFlag, i, found.caseId),
                                LastValue(args, QueueIdFlag, i, found.queueId),
                                LastValue(args, TokenFlag, i, found.token)))
    decreases |args| - i
  {
    if i < |args| {
      assert args[i] == CaseIdFlag || args[i] == QueueIdFlag || args[i] == TokenFlag;
      if args[i] == CaseIdFlag {
        IntendedScanReadsPairsFrom(args, i + 2, found.(caseId := Some(args[i + 1])));
      } else if args[i] == QueueIdFlag {
        IntendedScanReadsPairsFrom(args, i + 2, found.(queueId := Some(args[i + 1])));
      } else {
        IntendedScanReadsPairsFrom(args, i + 2, found.(token := Some(args[i + 1])));
      }
    }
  }

  /** With the corrected test, whole flag-value pairs in any order set every
      flag that occurs to the value after its last occurrence. */
  lemma IntendedScanReadsPairs(args: seq<string>)
    requires FlagsAtEvenIndices(args)
    ensures IntendedScanFrom(args, 0, NoneFound)
         == Scanned(Credentials(LastValue(args, CaseIdFlag, 0, None),
                                LastValue(args, QueueIdFlag, 0, None),
                                LastValue(args, TokenFlag, 0, None)))
  {
    IntendedScanReadsPairsFrom(args, 0, NoneFound);
  }

  /** With the corrected test, the documented invocation supplies all three values. */
  lemma IntendedScanReadsDocumentedInvocation(caseId: string, queueId: string, token: string)
    ensures IntendedScanFrom([CaseIdFlag, caseId, QueueIdFlag, queueId, TokenFlag, token], 0, NoneFound)
         == Scanned(Credentials(Some(caseId), Some(queueId), Some(token)))
  {
    var args := [CaseIdFlag, caseId, QueueIdFlag, queueId, TokenFlag, token];
    var all := Credentials(Some(caseId), Some(queueId), Some(token));
    assert IntendedScanFrom(args, 4, all.(token := None)) == IntendedScanFrom(args, 6, all) == Scanned(all);
    assert IntendedScanFrom(args, 2, all.(queueId := None, token := None)) == IntendedScanFrom(args, 4, all.(token := None));
  }
}
