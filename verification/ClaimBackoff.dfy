/** The claim backoff: how often an item can be declined, and when it returns. */
module ClaimBackoff {
  import opened WorkTypes
  import opened QueueModel
  import opened QueueWrites
  import opened LedgerReplay
  import opened QueueInvariant

  /** No thirty-minute window of any run holds more than three counted releases of one item. */
  lemma AtMostThreeReleases(trace: seq<State>, ops: seq<Op>, i: nat, id: nat, end: int)
    requires Run(trace, ops) && i < |trace| && id < |trace[i].rows|
    ensures ReleasesWithin(History(trace[i], id), end - CLAIM_BACKOFF_WINDOW, end) <= CLAIM_BACKOFF_RELEASES
  {
    RunItem(trace, ops, i, id);
    EveryWindowBounded(History(trace[i], id), end);
  }

  /** The backoff never hides a claimed item, so a lapsed lease can always be reclaimed. */
  lemma LapsedIsNeverBackedOff(trace: seq<State>, ops: seq<Op>, i: nat, id: nat)
    requires Run(trace, ops) && i < |trace| && id < |trace[i].rows| && trace[i].rows[id].stored == Claimed
    ensures !BackedOff(trace[i], id)
  {
    hide Run;
    RunItem(trace, ops, i, id);
  }

  // ----- when the backoff lapses -----------------------------------------------------

  /** The counted releases after an instant, newest first. */
  function NewestReleases(h: seq<Event>, after: int): seq<Event> {
    if h == [] then []
    else
      var e := h[|h| - 1];
      (if CountedRelease(e) && e.at > after then [e] else []) + NewestReleases(h[..|h| - 1], after)
  }

  /** The newest releases still counted later are exactly the leading ones. */
  lemma {:induction false} LeadingReleasesStay(h: seq<Event>, now: int, after: int, later: int)
    requires InOrder(h, now) && after <= later
    ensures ReleasesAfter(h, later) <= |NewestReleases(h, after)| == ReleasesAfter(h, after)
    ensures forall k :: 0 <= k < |NewestReleases(h, after)| ==>
              (NewestReleases(h, after)[k].at > later <==> k < ReleasesAfter(h, later))
    ensures forall k :: 0 <= k < |NewestReleases(h, after)| ==>
      h != [] && NewestReleases(h, after)[k].at <= h[|h| - 1].at
  {
    if h != [] {
      var before, e := h[..|h| - 1], h[|h| - 1];
      LeadingReleasesStay(before, now, after, later);
      var newest, rest := NewestReleases(h, after), NewestReleases(before, after);
      if CountedRelease(e) && e.at > after {
        assert newest == [e] + rest;
        if e.at <= later && rest != [] {
          assert rest[0].at <= e.at;
        }
        forall k | 0 <= k < |newest|
          ensures newest[k].at > later <==> k < ReleasesAfter(h, later)
          ensures newest[k].at <= e.at
        {
          if k > 0 { assert newest[k] == rest[k - 1]; }
        }
      } else {
        assert newest == rest;
      }
    }
  }

  /** The instant the churn view reports: when the third newest counted release leaves the window. */
  function BackoffUntil(s: State, id: nat): int
    requires BackedOff(s, id)
  {
    var newest := NewestReleases(History(s, id), s.clock - CLAIM_BACKOFF_WINDOW);
    if |newest| >= CLAIM_BACKOFF_RELEASES then newest[CLAIM_BACKOFF_RELEASES - 1].at + CLAIM_BACKOFF_WINDOW
    else s.clock
  }

  /**
   * With the item's ledger as it stands, the claim predicate admits the item
   * again at exactly the reported instant: backed off at every instant before
   * it, and at none from it on.
   */
  lemma BackoffUntilIsFirstInstant(s: State, id: nat, at: int)
    requires Inv(s) && id < |s.rows| && BackedOff(s, id) && s.clock <= at
    ensures s.clock < BackoffUntil(s, id)
    ensures BackedOff(s.(clock := at), id) <==> at < BackoffUntil(s, id)
  {
    var h := History(s, id);
    assert ItemOk(s.rows[id], h, s.clock);
    assert History(s.(clock := at), id) == h;
    LeadingReleasesStay(h, s.clock, s.clock - CLAIM_BACKOFF_WINDOW, s.clock - CLAIM_BACKOFF_WINDOW);
    LeadingReleasesStay(h, s.clock, s.clock - CLAIM_BACKOFF_WINDOW, at - CLAIM_BACKOFF_WINDOW);
  }

  lemma {:induction false} LongerLedgerLongerHistory(before: seq<Event>, after: seq<Event>, id: nat)
    requires before <= after
    ensures EventsOf(before, id) <= EventsOf(after, id)
    decreases |after|
  {
    if |before| < |after| {
      LongerLedgerLongerHistory(before, after[..|after| - 1], id);
    } else {
      assert before == after;
    }
  }

  lemma {:induction false} LongerHistoryCountsMore(h: seq<Event>, longer: seq<Event>, after: int)
    requires h <= longer
    ensures ReleasesAfter(h, after) <= ReleasesAfter(longer, after)
    decreases |longer|
  {
    if |h| < |longer| {
      LongerHistoryCountsMore(h, longer[..|longer| - 1], after);
    } else {
      assert h == longer;
    }
  }

  /** A longer ledger and a later clock do not bring the item back before the reported instant. */
  lemma BackedOffBeforeThen(s: State, t: State, id: nat)
    requires Inv(s) && id < |s.rows| && BackedOff(s, id)
    requires s.ledger <= t.ledger && s.clock <= t.clock < BackoffUntil(s, id)
    ensures BackedOff(t, id)
  {
    BackoffUntilIsFirstInstant(s, id, t.clock);
    assert History(s.(clock := t.clock), id) == History(s, id);
    LongerLedgerLongerHistory(s.ledger, t.ledger, id);
    LongerHistoryCountsMore(History(s, id), History(t, id), t.clock - CLAIM_BACKOFF_WINDOW);
  }

  /** Whatever else the run does, the item stays out of every claim until the reported instant. */
  lemma BackedOffUntilThen(trace: seq<State>, ops: seq<Op>, i: nat, j: nat, id: nat)
    requires Run(trace, ops) && i <= j < |trace| && id < |trace[i].rows|
    requires BackedOff(trace[i], id) && trace[j].clock < BackoffUntil(trace[i], id)
    ensures BackedOff(trace[j], id)
    ensures forall q :: !Claimable(trace[j], q, id)
  {
    hide Run;
    RunKeeps(trace, ops, i, j);
    BackedOffBeforeThen(trace[i], trace[j], id);
  }
}
