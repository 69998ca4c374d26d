/** The cooldown of repeating roots: how it grows with a kind's streak of finding nothing. */
module Cooldown {
  import opened WorkTypes
  import opened QueueModel

  lemma {:induction false} Pow2Grows(m: nat, n: nat)
    requires m <= n
    ensures 1 <= Pow2(m) <= Pow2(n)
    decreases n
  {
    if m < n {
      Pow2Grows(m, n - 1);
    } else if n > 0 {
      Pow2Grows(n - 1, n - 1);
    }
  }

  lemma SixtyDoublingsExceed(base: int)
    requires base >= 1
    ensures base * Pow2(60) >= MAX_NO_FINDING_COOLDOWN_SECONDS
  {
    Pow2Grows(21, 60);
    assert Pow2(21) == 2097152 by {
      assert Pow2(7) == 128 && Pow2(14) == 128 * 128;
    }
    assert base * Pow2(60) >= Pow2(60) by {
      Product(base, Pow2(60));
    }
  }

  lemma Product(a: int, b: int)
    requires a >= 1 && b >= 0
    ensures a * b >= b
  {
    assert a * b == b + (a - 1) * b;
  }

  lemma Monotone(a: int, b: int, c: int)
    requires a >= 0 && b <= c
    ensures a * b <= a * c
  {
    assert a * c == a * b + a * (c - b);
  }

  /**
   * The cooldown is the base, doubled once for each root of the streak after
   * the first, up to fourteen days and never below the base: bounding the
   * exponent at sixty changes nothing.
   */
  lemma CooldownIsCappedDoubling(base: int, streak: nat)
    requires base >= 1 && streak >= 1
    ensures BackedOffCooldown(base, streak) == Max(base, Min(base * Pow2(streak - 1), MAX_NO_FINDING_COOLDOWN_SECONDS))
  {
    if streak - 1 > 60 {
      SixtyDoublingsExceed(base);
      Pow2Grows(60, streak - 1);
      Monotone(base, Pow2(60), Pow2(streak - 1));
    }
  }

  /**
   * A longer streak never cools for less; one more root doubles the cooldown
   * until the ceiling; a zero base never cools.
   */
  lemma CooldownGrows(base: int, streak: nat)
    requires base >= 1 && streak >= 1
    ensures base <= BackedOffCooldown(base, streak) <= BackedOffCooldown(base, streak + 1)
    ensures BackedOffCooldown(base, streak + 1) <= Max(base, MAX_NO_FINDING_COOLDOWN_SECONDS)
    ensures BackedOffCooldown(base, streak + 1) < MAX_NO_FINDING_COOLDOWN_SECONDS ==>
            BackedOffCooldown(base, streak + 1) == 2 * BackedOffCooldown(base, streak)
  {
    CooldownIsCappedDoubling(base, streak);
    CooldownIsCappedDoubling(base, streak + 1);
    Pow2Grows(0, streak - 1);
    Monotone(base, 1, Pow2(streak - 1));
    Doubled(base, streak - 1);
    Capped(base, base * Pow2(streak - 1));
  }

  lemma Doubled(base: int, n: nat)
    ensures base * Pow2(n + 1) == 2 * (base * Pow2(n))
  {
    assert Pow2(n + 1) == 2 * Pow2(n);
  }

  lemma Capped(base: int, grown: int)
    requires 1 <= base <= grown
    ensures var cap := MAX_NO_FINDING_COOLDOWN_SECONDS;
            var now, next := Max(base, Min(grown, cap)), Max(base, Min(2 * grown, cap));
            base <= now <= next <= Max(base, cap) && (next < cap ==> next == 2 * now)
  {
  }

  // ----- what a streak is -------------------------------------------------------------

  /** The kind's roots among the first `n` rows, newest first. */
  function RootsOf(rows: seq<Row>, repository: string, kind: string, n: nat): (ids: seq<nat>)
    requires n <= |rows|
    ensures forall k :: 0 <= k < |ids| ==> ids[k] < n
  {
    if n == 0 then []
    else if RootOf(rows[n - 1], repository, kind) then [n - 1] + RootsOf(rows, repository, kind, n - 1)
    else RootsOf(rows, repository, kind, n - 1)
  }

  /** The streak is the longest run of the newest roots that each completed without creating anything. */
  lemma {:induction false} StreakMeans(rows: seq<Row>, repository: string, kind: string, n: nat)
    requires n <= |rows|
    ensures var roots, streak := RootsOf(rows, repository, kind, n), Streak(rows, repository, kind, n);
            && streak <= |roots|
            && (forall k :: 0 <= k < streak ==> NoFinding(rows, roots[k]))
            && (streak < |roots| ==> !NoFinding(rows, roots[streak]))
            && NewestRoot(rows, repository, kind, n) == if roots == [] then None else Some(roots[0])
  {
    if n > 0 { StreakMeans(rows, repository, kind, n - 1); }
  }
}
