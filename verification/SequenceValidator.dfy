/** Gap detection by sequence number (sequence_validator.cpp). Numbers stay below 2^64. */
module SequenceValidators {
  import opened Domain

  datatype SequenceOutcome = InOrder | Duplicate | OutOfOrder | Missing

  /** `expected` means something for Missing only: the numbers from it up to `observed` were skipped. */
  datatype SequenceCheck = SequenceCheck(outcome: SequenceOutcome, observed: nat, expected: nat)

  function Classify(last: Option<nat>, number: nat): SequenceCheck {
    if last.None? || number == last.value + 1 then SequenceCheck(InOrder, number, 0)
    else if number == last.value then SequenceCheck(Duplicate, number, 0)
    else if number < last.value then SequenceCheck(OutOfOrder, number, 0)
    else SequenceCheck(Missing, number, last.value + 1)
  }

  /** What the validator has seen last, once it has classified a number. */
  function Seen(last: Option<nat>, number: nat): Option<nat> {
    if last.None? || number > last.value then Some(number) else last
  }

  class SequenceValidator {
    var lastSeen: Option<nat>

    constructor ()
      ensures lastSeen == None
    {
      lastSeen := None;
    }

    method Check(number: nat) returns (check: SequenceCheck)
      modifies this
      ensures check == Classify(old(lastSeen), number) && lastSeen == Seen(old(lastSeen), number)
    {
      if lastSeen.None? {
        lastSeen := Some(number);
        return SequenceCheck(InOrder, number, 0);
      }
      var last := lastSeen.value;
      if number == last + 1 {
        lastSeen := Some(number);
        return SequenceCheck(InOrder, number, 0);
      }
      if number == last {
        return SequenceCheck(Duplicate, number, 0);
      }
      if number < last {
        return SequenceCheck(OutOfOrder, number, 0);
      }
      lastSeen := Some(number);
      return SequenceCheck(Missing, number, last + 1);
    }

    /** Declares a new baseline. */
    method Reset(number: nat)
      modifies this
      ensures lastSeen == Some(number)
    {
      lastSeen := Some(number);
    }
  }

  // ---------- a whole stream ----------

  /** What the validator says of each number of a stream. */
  function Checks(last: Option<nat>, numbers: seq<nat>): seq<SequenceCheck>
    decreases |numbers|
  {
    if numbers == [] then [] else [Classify(last, numbers[0])] + Checks(Seen(last, numbers[0]), numbers[1..])
  }

  /** The numbers one check reports as skipped. */
  predicate Reports(check: SequenceCheck, n: nat) {
    check.outcome == Missing && check.expected <= n < check.observed
  }

  /** The greatest number so far. */
  function Highest(numbers: seq<nat>): (h: Option<nat>)
    ensures h == None <==> numbers == []
    ensures h.Some? ==> h.value in numbers && forall i | 0 <= i < |numbers| :: numbers[i] <= h.value
  {
    if numbers == [] then None
    else
      var n := numbers[|numbers| - 1];
      match Highest(numbers[..|numbers| - 1])
      case None => Some(n)
      case Some(h) => Some(if n > h then n else h)
  }

  lemma HighestNext(numbers: seq<nat>, n: nat)
    ensures Highest(numbers + [n]) == Seen(Highest(numbers), n)
  {
    assert (numbers + [n])[..|numbers|] == numbers;
  }

  lemma {:induction false} ChecksFrom(before: seq<nat>, numbers: seq<nat>, k: nat)
    requires k < |numbers|
    ensures |Checks(Highest(before), numbers)| == |numbers|
    ensures Checks(Highest(before), numbers)[k] == Classify(Highest(before + numbers[..k]), numbers[k])
    decreases |numbers|
  {
    hide Classify, Seen, Highest;
    var rest, before' := numbers[1..], before + [numbers[0]];
    HighestNext(before, numbers[0]);
    if k == 0 {
      assert before + numbers[..0] == before;
      if rest == [] {
        assert Checks(Highest(before'), rest) == [];
      } else {
        ChecksFrom(before', rest, 0);
      }
    } else {
      ChecksFrom(before', rest, k - 1);
      assert before' + rest[..k - 1] == before + numbers[..k];
    }
  }

  /** Of any stream, in order or not: the first number is in order, and every other is judged by the highest
      before it: in order exactly when it is one more, a duplicate when it equals it, out of order when it is
      below it, and otherwise missing, with just the numbers in between reported. */
  lemma JudgedByHighest(numbers: seq<nat>, k: nat, n: nat)
    requires k < |numbers|
    ensures |Checks(None, numbers)| == |numbers|
    ensures var check := Checks(None, numbers)[k];
            && check.observed == numbers[k]
            && if k == 0 then check.outcome == InOrder
               else
                 var h := Highest(numbers[..k]).value;
                 && (check.outcome == InOrder <==> numbers[k] == h + 1)
                 && (check.outcome == Duplicate <==> numbers[k] == h)
                 && (check.outcome == OutOfOrder <==> numbers[k] < h)
                 && (Reports(check, n) <==> h < n < numbers[k])
  {
    ChecksFrom([], numbers, k);
    assert [] + numbers[..k] == numbers[..k];
  }

  ghost predicate Increasing(numbers: seq<nat>) {
    forall i, j | 0 <= i < j < |numbers| :: numbers[i] < numbers[j]
  }

  /** In an increasing stream every number after the first is in order or reveals a gap, and the gap
      it reveals is exactly what lies between it and its predecessor. */
  lemma {:induction false} ChecksOfIncreasing(last: Option<nat>, numbers: seq<nat>, k: nat)
    requires Increasing(numbers) && k < |numbers| && (last.Some? && numbers != [] ==> last.value < numbers[0])
    ensures |Checks(last, numbers)| == |numbers|
    ensures var before := if k == 0 then last else Some(numbers[k - 1]);
            Checks(last, numbers)[k] == Classify(before, numbers[k])
            && (before.Some? ==> before.value < numbers[k])
    decreases |numbers|
  {
    if |numbers| == 1 {
      assert Checks(Seen(last, numbers[0]), numbers[1..]) == [];
    } else {
      assert forall i | 0 <= i < |numbers| - 1 :: numbers[1..][i] == numbers[i + 1];
      ChecksOfIncreasing(Seen(last, numbers[0]), numbers[1..], if k == 0 then 0 else k - 1);
    }
  }

  ghost predicate Between(numbers: seq<nat>, k: nat, n: nat)
    requires k < |numbers|
  {
    k > 0 && numbers[k - 1] < n < numbers[k]
  }

  lemma CheckAt(numbers: seq<nat>, k: nat, n: nat)
    requires Increasing(numbers) && k < |numbers|
    ensures |Checks(None, numbers)| == |numbers|
    ensures Checks(None, numbers)[k].outcome == InOrder || Checks(None, numbers)[k].outcome == Missing
    ensures Reports(Checks(None, numbers)[k], n) <==> Between(numbers, k, n)
  {
    ChecksOfIncreasing(None, numbers, k);
  }

  /** A number lies in at most one gap, and in none when it is there. */
  lemma GapsApart(numbers: seq<nat>, n: nat)
    requires Increasing(numbers)
    ensures forall j, k | 0 <= j < k < |numbers| :: !(Between(numbers, j, n) && Between(numbers, k, n))
    ensures n in numbers ==> forall k | 0 <= k < |numbers| :: !Between(numbers, k, n)
  {
    forall j, k | 0 <= j < k < |numbers| ensures !(Between(numbers, j, n) && Between(numbers, k, n)) {
      assert numbers[j] <= numbers[k - 1];
    }
    if n in numbers {
      var j :| 0 <= j < |numbers| && numbers[j] == n;
      forall k | 0 <= k < |numbers| ensures !Between(numbers, k, n) {
        assert k > 0 && k - 1 < j ==> k <= j;
        assert j < k ==> numbers[j] <= numbers[k - 1];
      }
    }
  }

  /** An increasing stream: the validator reports no duplicate and nothing out of order, and of the
      numbers from the first to the last, each was either seen or reported missing by exactly one
      check. */
  lemma SeenOrReported(numbers: seq<nat>, n: nat)
    requires Increasing(numbers) && numbers != [] && numbers[0] <= n <= numbers[|numbers| - 1]
    ensures var checks := Checks(None, numbers);
            && |checks| == |numbers|
            && (forall k | 0 <= k < |checks| :: checks[k].outcome == InOrder || checks[k].outcome == Missing)
            && (n in numbers <==> forall k | 0 <= k < |checks| :: !Reports(checks[k], n))
            && (forall j, k | 0 <= j < k < |checks| :: !(Reports(checks[j], n) && Reports(checks[k], n)))
  {
    hide Checks, Reports, Increasing, Between;
    var checks := Checks(None, numbers);
    CheckAt(numbers, 0, n);
    forall k | 0 <= k < |numbers|
      ensures checks[k].outcome == InOrder || checks[k].outcome == Missing
      ensures Reports(checks[k], n) <==> Between(numbers, k, n)
    {
      CheckAt(numbers, k, n);
    }
    GapsApart(numbers, n);
    if n !in numbers {
      var k := Gap(numbers, n);
      assert Reports(checks[k], n);
    }
  }

  /** A number an increasing list steps over has a place in it. */
  lemma {:induction false} Gap(numbers: seq<nat>, n: nat) returns (k: nat)
    requires Increasing(numbers) && numbers != [] && numbers[0] <= n <= numbers[|numbers| - 1] && n !in numbers
    ensures k < |numbers| && Between(numbers, k, n)
  {
    k := 1;
    while numbers[k] < n
      invariant 0 < k < |numbers| && numbers[k - 1] < n
      decreases |numbers| - k
    {
      assert numbers[k] < n <= numbers[|numbers| - 1];
      k := k + 1;
    }
  }
}
