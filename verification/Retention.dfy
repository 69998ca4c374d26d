/**
 * Which core-check details a retention pass prunes
 * (src/control/check-detail-retention.ts).
 */
module Retention {
  const MAXIMUM_ELIGIBLE_CHECKS := 10_000

  /** `recordedAt` is an instant; its text sorts as the instant does. */
  datatype Check = Check(sequence: int, recordedAt: int, checkId: string)

  function Filter(checks: seq<Check>, keep: Check -> bool): seq<Check> {
    if checks == [] then []
    else (if keep(checks[0]) then [checks[0]] else []) + Filter(checks[1..], keep)
  }

  // ----- sorting ------------------------------------------------------------------

  datatype Direction = OldestFirst | NewestFirst

  predicate Before(a: Check, b: Check, direction: Direction) {
    if direction == OldestFirst then a.sequence <= b.sequence else b.sequence <= a.sequence
  }

  function InsertInto(c: Check, sorted: seq<Check>, direction: Direction): seq<Check> {
    if sorted == [] || Before(c, sorted[0], direction) then [c] + sorted
    else [sorted[0]] + InsertInto(c, sorted[1..], direction)
  }

  /** A stable sort by sequence. */
  function Sort(checks: seq<Check>, direction: Direction): seq<Check> {
    if checks == [] then [] else InsertInto(checks[0], Sort(checks[1..], direction), direction)
  }

  // ----- the selection ------------------------------------------------------------------

  function CountOverflow(newestFirst: seq<Check>, cutoff: int): set<int> {
    var inside := Filter(newestFirst, (c: Check) => c.recordedAt >= cutoff);
    if |inside| <= MAXIMUM_ELIGIBLE_CHECKS then {}
    else set c | c in inside[MAXIMUM_ELIGIBLE_CHECKS..] :: c.sequence
  }

  function SelectForPrune(checks: seq<Check>, protected: set<string>, cutoff: int): seq<Check> {
    var newestFirst := Sort(Filter(checks, (c: Check) => c.checkId !in protected), NewestFirst);
    var overflow := CountOverflow(newestFirst, cutoff);
    Sort(Filter(newestFirst, (c: Check) => c.recordedAt < cutoff || c.sequence in overflow), OldestFirst)
  }

  // ----- what filtering and sorting keep -----------------------------------------------------

  predicate Distinct(checks: seq<Check>) {
    forall i, j :: 0 <= i < j < |checks| ==> checks[i].sequence != checks[j].sequence
  }

  predicate Ordered(checks: seq<Check>, direction: Direction) {
    forall i, j :: 0 <= i < j < |checks| ==> Before(checks[i], checks[j], direction)
  }

  lemma {:induction false} FilterKeeps(checks: seq<Check>, keep: Check -> bool)
    ensures forall c :: c in Filter(checks, keep) <==> c in checks && keep(c)
    ensures Distinct(checks) ==> Distinct(Filter(checks, keep))
  {
    if checks != [] {
      FilterKeeps(checks[1..], keep);
      assert checks == [checks[0]] + checks[1..];
      var rest := Filter(checks[1..], keep);
      forall k | 0 <= k < |rest|
        ensures rest[k] in checks[1..]
      {
        assert rest[k] in rest;
      }
    }
  }

  lemma {:induction false} FilterKeepsOrder(checks: seq<Check>, keep: Check -> bool, direction: Direction)
    requires Ordered(checks, direction)
    ensures Ordered(Filter(checks, keep), direction)
  {
    if checks != [] {
      var rest := Filter(checks[1..], keep);
      FilterKeepsOrder(checks[1..], keep, direction);
      FilterKeeps(checks[1..], keep);
      forall k | 0 <= k < |rest|
        ensures Before(checks[0], rest[k], direction)
      {
        assert rest[k] in rest && rest[k] in checks[1..];
      }
    }
  }

  lemma {:induction false} InsertAdds(c: Check, sorted: seq<Check>, direction: Direction)
    ensures multiset(InsertInto(c, sorted, direction)) == multiset{c} + multiset(sorted)
    ensures |InsertInto(c, sorted, direction)| == |sorted| + 1
  {
    if sorted != [] && !Before(c, sorted[0], direction) {
      InsertAdds(c, sorted[1..], direction);
      assert sorted == [sorted[0]] + sorted[1..];
    }
  }

  lemma {:induction false} InsertKeepsOrder(c: Check, sorted: seq<Check>, direction: Direction)
    requires Ordered(sorted, direction)
    ensures Ordered(InsertInto(c, sorted, direction), direction)
  {
    if sorted != [] && !Before(c, sorted[0], direction) {
      var rest := InsertInto(c, sorted[1..], direction);
      InsertKeepsOrder(c, sorted[1..], direction);
      InsertAdds(c, sorted[1..], direction);
      forall k | 0 <= k < |rest|
        ensures Before(sorted[0], rest[k], direction)
      {
        assert rest[k] in multiset(rest);
      }
    }
  }

  lemma {:induction false} SortKeeps(checks: seq<Check>, direction: Direction)
    ensures Ordered(Sort(checks, direction), direction)
    ensures multiset(Sort(checks, direction)) == multiset(checks)
    ensures |Sort(checks, direction)| == |checks|
  {
    if checks != [] {
      SortKeeps(checks[1..], direction);
      InsertAdds(checks[0], Sort(checks[1..], direction), direction);
      InsertKeepsOrder(checks[0], Sort(checks[1..], direction), direction);
      assert checks == [checks[0]] + checks[1..];
    }
  }

  /** A permutation has the same members and repeats a sequence only if the original does. */
  lemma {:induction false} PermutationDistinct(a: seq<Check>, b: seq<Check>)
    requires multiset(a) == multiset(b) && Distinct(a)
    ensures Distinct(b)
    ensures forall c :: c in a <==> c in b
  {
    forall c ensures c in a <==> c in b {
      assert c in multiset(a) <==> c in multiset(b);
    }
    forall i, j | 0 <= i < j < |b|
      ensures b[i].sequence != b[j].sequence
    {
      assert b[i] in a && b[j] in a;
      if b[i] == b[j] {
        assert b == b[..i] + [b[i]] + b[i + 1..];
        assert b[j] in b[i + 1..];
        assert multiset(b)[b[i]] >= 2;
        OnceEach(a, b[i]);
      }
    }
  }

  lemma {:induction false} OnceEach(a: seq<Check>, c: Check)
    requires Distinct(a)
    ensures multiset(a)[c] <= 1
  {
    if a != [] {
      assert a == [a[0]] + a[1..];
      OnceEach(a[1..], c);
      if a[0] == c { assert c !in a[1..]; }
    }
  }

  // ----- what is pruned --------------------------------------------------------------------------

  predicate Eligible(c: Check, protected: set<string>, cutoff: int) {
    c.checkId !in protected && c.recordedAt >= cutoff
  }

  /** The unprotected checks inside the window that are newer than a sequence. */
  function NewerEligible(checks: seq<Check>, protected: set<string>, cutoff: int, sequence: int): set<int> {
    set c | c in checks && Eligible(c, protected, cutoff) && c.sequence > sequence :: c.sequence
  }

  function NewerIn(checks: seq<Check>, sequence: int): set<int> {
    set c | c in checks && c.sequence > sequence :: c.sequence
  }

  /** In a strictly newest-first list, position `k` has exactly `k` newer entries. */
  lemma {:induction false} PositionIsRank(inside: seq<Check>, k: nat)
    requires Distinct(inside) && Ordered(inside, NewestFirst) && k < |inside|
    ensures |NewerIn(inside, inside[k].sequence)| == k
  {
    var newer := NewerIn(inside, inside[k].sequence);
    assert newer == set i | 0 <= i < k :: inside[i].sequence by {
      forall i | 0 <= i < k ensures inside[i].sequence in newer {
        assert Before(inside[i], inside[k], NewestFirst) && inside[i] in inside;
      }
      forall n | n in newer ensures exists i :: 0 <= i < k && inside[i].sequence == n {
        var c :| c in inside && c.sequence > inside[k].sequence && c.sequence == n;
        var i :| 0 <= i < |inside| && inside[i] == c;
        assert k < i ==> Before(inside[k], inside[i], NewestFirst);
      }
    }
    PrefixRank(inside, k);
  }

  lemma {:induction false} PrefixRank(inside: seq<Check>, k: nat)
    requires Distinct(inside) && k <= |inside|
    ensures |set i | 0 <= i < k :: inside[i].sequence| == k
  {
    if k > 0 {
      PrefixRank(inside, k - 1);
      var before := set i | 0 <= i < k - 1 :: inside[i].sequence;
      assert inside[k - 1].sequence !in before;
      assert (set i | 0 <= i < k :: inside[i].sequence) == before + {inside[k - 1].sequence};
    }
  }

  /** The overflow holds exactly the eligible checks with the maximum or more newer eligible ones. */
  lemma OverflowIff(newestFirst: seq<Check>, cutoff: int, c: Check)
    requires Distinct(newestFirst) && Ordered(newestFirst, NewestFirst)
    requires c in newestFirst && c.recordedAt >= cutoff
    ensures c.sequence in CountOverflow(newestFirst, cutoff) <==>
            |set d | d in newestFirst && d.recordedAt >= cutoff && d.sequence > c.sequence :: d.sequence|
              >= MAXIMUM_ELIGIBLE_CHECKS
  {
    var inside := Filter(newestFirst, (d: Check) => d.recordedAt >= cutoff);
    FilterKeeps(newestFirst, (d: Check) => d.recordedAt >= cutoff);
    FilterKeepsOrder(newestFirst, (d: Check) => d.recordedAt >= cutoff, NewestFirst);
    var k :| 0 <= k < |inside| && inside[k] == c;
    PositionIsRank(inside, k);
    assert (set d | d in newestFirst && d.recordedAt >= cutoff && d.sequence > c.sequence :: d.sequence)
        == NewerIn(inside, inside[k].sequence);
    PastTheMaximum(inside, k);
  }

  /** Checks past the maximum, told apart by their sequences. */
  lemma PastTheMaximum(inside: seq<Check>, k: nat)
    requires Distinct(inside) && k < |inside|
    ensures (|inside| > MAXIMUM_ELIGIBLE_CHECKS
             && exists d :: d in inside[MAXIMUM_ELIGIBLE_CHECKS..] && d.sequence == inside[k].sequence) <==>
              k >= MAXIMUM_ELIGIBLE_CHECKS
  {
    if |inside| > MAXIMUM_ELIGIBLE_CHECKS {
      var late := inside[MAXIMUM_ELIGIBLE_CHECKS..];
      if k >= MAXIMUM_ELIGIBLE_CHECKS {
        assert late[k - MAXIMUM_ELIGIBLE_CHECKS] == inside[k];
      }
      if d :| d in late && d.sequence == inside[k].sequence {
        var j :| 0 <= j < |late| && late[j] == d;
        assert inside[j + MAXIMUM_ELIGIBLE_CHECKS].sequence == inside[k].sequence;
      }
    }
  }

  /**
   * With distinct sequences, a check is pruned exactly when it is unprotected
   * and either older than the cutoff or behind the maximum number of newer
   * unprotected checks inside the window; and the pruned come oldest first.
   */
  lemma PrunedIff(checks: seq<Check>, protected: set<string>, cutoff: int)
    requires Distinct(checks)
    ensures var pruned := SelectForPrune(checks, protected, cutoff);
            && Distinct(pruned) && Ordered(pruned, OldestFirst)
            && forall c :: c in pruned <==>
                 && c in checks && c.checkId !in protected
                 && (c.recordedAt < cutoff
                    || |NewerEligible(checks, protected, cutoff, c.sequence)| >= MAXIMUM_ELIGIBLE_CHECKS)
  {
    hide Sort;
    var open := Filter(checks, (c: Check) => c.checkId !in protected);
    FilterKeeps(checks, (c: Check) => c.checkId !in protected);
    var newestFirst := Sort(open, NewestFirst);
    SortKeeps(open, NewestFirst);
    PermutationDistinct(open, newestFirst);
    var overflow := CountOverflow(newestFirst, cutoff);
    var chosen := Filter(newestFirst, (c: Check) => c.recordedAt < cutoff || c.sequence in overflow);
    FilterKeeps(newestFirst, (c: Check) => c.recordedAt < cutoff || c.sequence in overflow);
    SortKeeps(chosen, OldestFirst);
    PermutationDistinct(chosen, Sort(chosen, OldestFirst));
    forall c | c in newestFirst && c.recordedAt >= cutoff
      ensures c.sequence in overflow <==>
        |NewerEligible(checks, protected, cutoff, c.sequence)| >= MAXIMUM_ELIGIBLE_CHECKS
    {
      OverflowIff(newestFirst, cutoff, c);
      assert NewerEligible(checks, protected, cutoff, c.sequence)
          == set d | d in newestFirst && d.recordedAt >= cutoff && d.sequence > c.sequence :: d.sequence;
    }
  }

  // ----- consequences ------------------------------------------------------------------------------

  /** The checks a pass leaves. */
  function Survivors(checks: seq<Check>, protected: set<string>, cutoff: int): seq<Check> {
    Filter(checks, (c: Check) => c !in SelectForPrune(checks, protected, cutoff))
  }

  /** Every eligible check kept is newer than every eligible one pruned. */
  lemma KeptAreNewer(checks: seq<Check>, protected: set<string>, cutoff: int, kept: Check, gone: Check)
    requires Distinct(checks)
    requires kept in Survivors(checks, protected, cutoff) && gone in SelectForPrune(checks, protected, cutoff)
    requires Eligible(kept, protected, cutoff) && Eligible(gone, protected, cutoff)
    ensures kept.sequence > gone.sequence
  {
    PrunedIff(checks, protected, cutoff);
    FilterKeeps(checks, (c: Check) => c !in SelectForPrune(checks, protected, cutoff));
    if kept.sequence <= gone.sequence {
      var newer, older :=
        NewerEligible(checks, protected, cutoff, gone.sequence),
        NewerEligible(checks, protected, cutoff, kept.sequence);
      assert newer <= older;
      SubsetSmaller(newer, older);
    }
  }

  lemma {:induction false} SubsetSmaller(a: set<int>, b: set<int>)
    requires a <= b
    ensures |a| <= |b|
  {
    assert b == a + (b - a);
  }

  /** If each entry has fewer than `limit` newer ones, there are at most `limit`. */
  lemma RankBounds(checks: seq<Check>, limit: nat)
    requires Distinct(checks)
    requires forall c :: c in checks ==> |NewerIn(checks, c.sequence)| < limit
    ensures |checks| <= limit
  {
    hide Sort;
    var sorted := Sort(checks, NewestFirst);
    SortKeeps(checks, NewestFirst);
    PermutationDistinct(checks, sorted);
    if sorted != [] {
      var oldest := sorted[|sorted| - 1];
      PositionIsRank(sorted, |sorted| - 1);
      assert oldest in checks;
      assert NewerIn(checks, oldest.sequence) == NewerIn(sorted, oldest.sequence);
    }
  }

  /** At most the maximum number of eligible checks survive. */
  lemma AtMostMaximumSurvive(checks: seq<Check>, protected: set<string>, cutoff: int)
    requires Distinct(checks)
    ensures |Filter(Survivors(checks, protected, cutoff), (c: Check) => Eligible(c, protected, cutoff))|
              <= MAXIMUM_ELIGIBLE_CHECKS
  {
    var survivors := Survivors(checks, protected, cutoff);
    var kept := Filter(survivors, (c: Check) => Eligible(c, protected, cutoff));
    PrunedIff(checks, protected, cutoff);
    FilterKeeps(checks, (c: Check) => c !in SelectForPrune(checks, protected, cutoff));
    FilterKeeps(survivors, (c: Check) => Eligible(c, protected, cutoff));
    forall c | c in kept
      ensures |NewerIn(kept, c.sequence)| < MAXIMUM_ELIGIBLE_CHECKS
    {
      SubsetSmaller(NewerIn(kept, c.sequence), NewerEligible(checks, protected, cutoff, c.sequence));
    }
    RankBounds(kept, MAXIMUM_ELIGIBLE_CHECKS);
  }

  /** Run again on what it left, with the same cutoff, the pass prunes nothing. */
  lemma PruneIsIdempotent(checks: seq<Check>, protected: set<string>, cutoff: int)
    requires Distinct(checks)
    ensures SelectForPrune(Survivors(checks, protected, cutoff), protected, cutoff) == []
  {
    var survivors := Survivors(checks, protected, cutoff);
    var again := SelectForPrune(survivors, protected, cutoff);
    PrunedIff(checks, protected, cutoff);
    FilterKeeps(checks, (c: Check) => c !in SelectForPrune(checks, protected, cutoff));
    PrunedIff(survivors, protected, cutoff);
    if again != [] {
      var c := again[0];
      assert c in again;
      var newer := NewerEligible(survivors, protected, cutoff, c.sequence);
      SubsetSmaller(newer, NewerEligible(checks, protected, cutoff, c.sequence));
    }
  }
}
