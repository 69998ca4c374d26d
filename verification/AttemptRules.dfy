/** What the read of an item's attempts says of its leases, told from the places of their events in the ledger. */
module AttemptRules {
  import opened WorkTypes
  import opened QueueModel
  import opened QueueWrites
  import opened LedgerReplay
  import opened QueueInvariant
  import opened Attempts

  // ----- leases in the ledger -------------------------------------------------------------

  predicate ClaimAt(ledger: seq<Event>, id: nat, p: nat) {
    p < |ledger| && ledger[p].item == id && ledger[p].body.WorkClaimed?
  }

  predicate EndAt(ledger: seq<Event>, id: nat, q: nat) {
    && q < |ledger| && ledger[q].item == id
    && (ledger[q].body.WorkCompleted? || ledger[q].body.WorkBlocked?
        || ledger[q].body.WorkReleased? || ledger[q].body.LeaseExpired?)
  }

  /** The claims of the item before position `p`. */
  function ClaimsBefore(ledger: seq<Event>, id: nat, p: nat): set<nat> {
    set k: nat | k < p && k < |ledger| && ClaimAt(ledger, id, k)
  }

  /** The event at `q` ends the lease taken at `p`: no claim or end of the item lies between. */
  predicate Closes(ledger: seq<Event>, id: nat, p: nat, q: nat) {
    && p < q && EndAt(ledger, id, q)
    && forall k :: p < k < q ==> !ClaimAt(ledger, id, k) && !EndAt(ledger, id, k)
  }

  /** The ending says how, when and by whom; a lease that expired ended when it ran out. */
  predicate ToldBy(ending: Ending, e: Event) {
    && ending.endedBy == e.actor
    && ending.at == (if e.body.LeaseExpired? then e.body.expiredAt else e.at)
    && (e.body.WorkCompleted? ==> ending.outcome == WasCompleted)
    && (e.body.WorkBlocked? ==> ending.outcome == WasBlocked)
    && (e.body.WorkReleased? ==> ending.outcome == WasReleased)
    && (e.body.LeaseExpired? ==> ending.outcome == WasExpired)
  }

  /** The attempt is the lease taken at `p`, with the event that closed it before position `n`, if one did. */
  ghost predicate Tells(ledger: seq<Event>, id: nat, p: nat, n: nat, attempt: Attempt)
    requires p < |ledger|
  {
    && attempt.sequence == ledger[p].sequence
    && attempt.claimedAt == ledger[p].at
    && attempt.worker == ledger[p].actor
    && match attempt.ending
       case None => forall q: nat :: q < n ==> !Closes(ledger, id, p, q)
       case Some(ending) => exists q: nat :: q < n && Closes(ledger, id, p, q) && ToldBy(ending, ledger[q])
  }

  ghost predicate TellsAll(ledger: seq<Event>, id: nat, n: nat, attempts: seq<Attempt>) {
    && |attempts| == |ClaimsBefore(ledger, id, n)|
    && forall p: nat :: p < n && ClaimAt(ledger, id, p) ==>
         |ClaimsBefore(ledger, id, p)| < |attempts|
         && Tells(ledger, id, p, n, attempts[|ClaimsBefore(ledger, id, p)|])
  }

  /** Another event of no lease of the item tells nothing new. */
  lemma NothingMore(ledger: seq<Event>, id: nat, n: nat, attempts: seq<Attempt>)
    requires n < |ledger| && TellsAll(ledger, id, n, attempts) && !ClaimAt(ledger, id, n) && !EndAt(ledger, id, n)
    ensures TellsAll(ledger, id, n + 1, attempts)
  {
    assert ClaimsBefore(ledger, id, n + 1) == ClaimsBefore(ledger, id, n);
    forall p: nat | p < n + 1 && ClaimAt(ledger, id, p)
      ensures |ClaimsBefore(ledger, id, p)| < |attempts|
      ensures Tells(ledger, id, p, n + 1, attempts[|ClaimsBefore(ledger, id, p)|])
    {
      assert Tells(ledger, id, p, n, attempts[|ClaimsBefore(ledger, id, p)|]);
    }
  }

  lemma FewerClaims(ledger: seq<Event>, id: nat, p: nat, q: nat)
    requires p < q && ClaimAt(ledger, id, p)
    ensures |ClaimsBefore(ledger, id, p)| < |ClaimsBefore(ledger, id, q)|
  {
    SmallerSet(ClaimsBefore(ledger, id, p), ClaimsBefore(ledger, id, q), p);
  }

  lemma SmallerSet(a: set<nat>, b: set<nat>, extra: nat)
    requires a <= b && extra in b && extra !in a
    ensures |a| < |b|
  {
    Within(a, b - {extra});
  }

  lemma {:induction false} Within(a: set<nat>, b: set<nat>)
    requires a <= b
    ensures |a| <= |b|
  {
    if a != {} {
      var x :| x in a;
      Within(a - {x}, b - {x});
    }
  }

  lemma ClaimTold(ledger: seq<Event>, id: nat, n: nat, attempts: seq<Attempt>)
    requires TellsAll(ledger, id, n, attempts) && ClaimAt(ledger, id, n)
    ensures TellsAll(ledger, id, n + 1, attempts + [Opened(ledger[n])])
  {
    hide Tells, Closes, ClaimsBefore, Opened;
    var more := attempts + [Opened(ledger[n])];
    OneMoreClaim(ledger, id, n);
    JustOpened(ledger, id, n);
    forall p: nat | p < n + 1 && ClaimAt(ledger, id, p)
      ensures |ClaimsBefore(ledger, id, p)| < |more|
      ensures Tells(ledger, id, p, n + 1, more[|ClaimsBefore(ledger, id, p)|])
    {
      if p < n {
        ClaimClosesNothing(ledger, id, n, p, attempts[|ClaimsBefore(ledger, id, p)|]);
      }
    }
  }

  lemma OneMoreClaim(ledger: seq<Event>, id: nat, n: nat)
    requires ClaimAt(ledger, id, n)
    ensures |ClaimsBefore(ledger, id, n + 1)| == |ClaimsBefore(ledger, id, n)| + 1
  {
    assert ClaimsBefore(ledger, id, n + 1) == ClaimsBefore(ledger, id, n) + {n};
  }

  lemma ClaimClosesNothing(ledger: seq<Event>, id: nat, n: nat, p: nat, attempt: Attempt)
    requires p < n && ClaimAt(ledger, id, n) && Tells(ledger, id, p, n, attempt)
    ensures Tells(ledger, id, p, n + 1, attempt)
  {
  }

  lemma JustOpened(ledger: seq<Event>, id: nat, n: nat)
    requires ClaimAt(ledger, id, n)
    ensures Tells(ledger, id, n, n + 1, Opened(ledger[n]))
  {
  }

  /** The newest claim before position `n`. */
  lemma {:induction false} NewestClaim(ledger: seq<Event>, id: nat, n: nat) returns (p: nat)
    requires n <= |ledger| && ClaimsBefore(ledger, id, n) != {}
    ensures p < n && ClaimAt(ledger, id, p) && |ClaimsBefore(ledger, id, p)| == |ClaimsBefore(ledger, id, n)| - 1
    ensures forall k :: p < k < n ==> !ClaimAt(ledger, id, k)
  {
    if n > 0 && ClaimAt(ledger, id, n - 1) {
      p := n - 1;
      assert ClaimsBefore(ledger, id, n) == ClaimsBefore(ledger, id, p) + {p};
    } else {
      assert ClaimsBefore(ledger, id, n) == ClaimsBefore(ledger, id, n - 1);
      p := NewestClaim(ledger, id, n - 1);
    }
  }

  /** An end of the item told of nothing but the newest lease, and that only if it was open. */
  lemma EndTold(ledger: seq<Event>, id: nat, n: nat, attempts: seq<Attempt>)
    requires TellsAll(ledger, id, n, attempts) && EndAt(ledger, id, n)
    ensures TellsAll(ledger, id, n + 1, ReadEvent(attempts, ledger[n]))
  {
    hide Tells, Closes;
    var read := ReadEvent(attempts, ledger[n]);
    assert |read| == |attempts|;
    assert ClaimsBefore(ledger, id, n + 1) == ClaimsBefore(ledger, id, n);
    hide ReadEvent, ClaimsBefore;
    if attempts != [] {
      SomeClaim(ledger, id, n);
      var newest := NewestClaim(ledger, id, n);
      forall p: nat | p < n + 1 && ClaimAt(ledger, id, p)
        ensures |ClaimsBefore(ledger, id, p)| < |read|
        ensures Tells(ledger, id, p, n + 1, read[|ClaimsBefore(ledger, id, p)|])
      {
        EndTellsOne(ledger, id, n, attempts, newest, p);
      }
    } else {
      NoClaims(ledger, id, n);
    }
  }

  lemma SomeClaim(ledger: seq<Event>, id: nat, n: nat)
    requires |ClaimsBefore(ledger, id, n)| > 0
    ensures ClaimsBefore(ledger, id, n) != {}
  {
  }

  lemma NoClaims(ledger: seq<Event>, id: nat, n: nat)
    requires |ClaimsBefore(ledger, id, n)| == 0
    ensures forall p: nat :: p < n ==> !ClaimAt(ledger, id, p)
  {
    assert ClaimsBefore(ledger, id, n) == {};
    forall p: nat | p < n
      ensures ClaimAt(ledger, id, p) ==> p in ClaimsBefore(ledger, id, n)
    {
    }
  }

  lemma EndTellsOne(ledger: seq<Event>, id: nat, n: nat, attempts: seq<Attempt>, newest: nat, p: nat)
    requires TellsAll(ledger, id, n, attempts) && EndAt(ledger, id, n) && attempts != []
    requires newest < n && ClaimAt(ledger, id, newest) && |ClaimsBefore(ledger, id, newest)| == |attempts| - 1
    requires forall k :: newest < k < n ==> !ClaimAt(ledger, id, k)
    requires p < n && ClaimAt(ledger, id, p)
    ensures |ClaimsBefore(ledger, id, p)| < |attempts|
    ensures Tells(ledger, id, p, n + 1, ReadEvent(attempts, ledger[n])[|ClaimsBefore(ledger, id, p)|])
  {
    var attempt := attempts[|ClaimsBefore(ledger, id, p)|];
    assert Tells(ledger, id, p, n, attempt);
    if p < newest {
      FewerClaims(ledger, id, p, newest);
      assert !Closes(ledger, id, p, n);
    } else {
      assert p == newest;
      if attempt.ending.None? {
        OpenIsClosed(ledger, id, p, n);
        assert ToldBy(EndingOf(ledger[n]), ledger[n]);
      } else {
        var q: nat :| q < n && Closes(ledger, id, p, q) && ToldBy(attempt.ending.value, ledger[q]);
        assert EndAt(ledger, id, q);
      }
    }
  }

  /** With no claim and no closing event since, the next end closes the lease. */
  lemma OpenIsClosed(ledger: seq<Event>, id: nat, p: nat, n: nat)
    requires p < n && EndAt(ledger, id, n) && forall q: nat :: q < n ==> !Closes(ledger, id, p, q)
    requires forall k :: p < k < n ==> !ClaimAt(ledger, id, k)
    ensures Closes(ledger, id, p, n)
  {
    if k: nat :| p < k < n && EndAt(ledger, id, k) {
      FirstEnd(ledger, id, p, k);
    }
  }

  lemma {:induction false} FirstEnd(ledger: seq<Event>, id: nat, p: nat, k: nat)
    requires p < k && EndAt(ledger, id, k) && forall j :: p < j < k ==> !ClaimAt(ledger, id, j)
    ensures exists q: nat :: q <= k && Closes(ledger, id, p, q)
    decreases k
  {
    if j: nat :| p < j < k && EndAt(ledger, id, j) {
      FirstEnd(ledger, id, p, j);
    } else {
      assert Closes(ledger, id, p, k);
    }
  }

  lemma {:induction false} FoldTells(ledger: seq<Event>, id: nat, n: nat)
    requires n <= |ledger|
    ensures TellsAll(ledger, id, n, ReadEvents(Lifecycle(EventsOf(ledger[..n], id))))
  {
    hide TellsAll, ReadEvent;
    if n == 0 {
      assert ledger[..0] == [];
      NothingTold(ledger, id);
    } else {
      FoldTells(ledger, id, n - 1);
      var e, h := ledger[n - 1], EventsOf(ledger[..n - 1], id);
      var before := ReadEvents(Lifecycle(h));
      assert ledger[..n][..n - 1] == ledger[..n - 1];
      if e.item == id && e.body.Lifecycle() {
        LifecycleOn(h, e);
        if e.body.WorkClaimed? {
          ClaimTold(ledger, id, n - 1, before);
          ClaimOpens(before, e);
        } else {
          EndTold(ledger, id, n - 1, before);
        }
      } else {
        SilentStep(h, e, id);
        NothingMore(ledger, id, n - 1, before);
      }
    }
  }

  lemma ClaimOpens(attempts: seq<Attempt>, e: Event)
    requires e.body.WorkClaimed?
    ensures ReadEvent(attempts, e) == attempts + [Opened(e)]
  {
  }

  lemma SilentStep(h: seq<Event>, e: Event, id: nat)
    requires e.item != id || !e.body.Lifecycle()
    ensures Lifecycle(h + if e.item == id then [e] else []) == Lifecycle(h)
  {
    if e.item == id {
      LifecycleOn(h, e);
    } else {
      assert h + [] == h;
    }
  }

  lemma NothingTold(ledger: seq<Event>, id: nat)
    ensures TellsAll(ledger, id, 0, ReadEvents(Lifecycle(EventsOf([], id))))
  {
    assert ClaimsBefore(ledger, id, 0) == {};
  }

  lemma {:induction false} OnlyNewestOpen(events: seq<Event>)
    requires TakesTurns(events)
    ensures forall k :: 0 <= k < |ReadEvents(events)| - 1 ==> ReadEvents(events)[k].ending.Some?
  {
    if |events| > 1 {
      OnlyNewestOpen(events[2..]);
      TurnsReadInPairs(events);
    } else if |events| == 1 {
      assert events[..0] == [];
      assert ReadEvents(events) == ReadEvent(ReadEvents([]), events[0]);
    }
  }

  // ----- what a reader is told -----------------------------------------------------------------

  /**
   * In every reached state the read has one attempt for each claim of the
   * item, in order, that names its claim. Where an event closed the lease the
   * attempt says how, when and by whom; a lease no event closed is the item's
   * own, and reads as expired by the system from the instant it runs out.
   */
  lemma AttemptsTellLeases(trace: seq<State>, ops: seq<Op>, i: nat, id: nat, p: nat)
    requires Run(trace, ops) && i < |trace| && id < |trace[i].rows| && ClaimAt(trace[i].ledger, id, p)
    ensures var s := trace[i];
            var attempts, k := FullRead(s.rows[id], History(s, id), s.clock), |ClaimsBefore(s.ledger, id, p)|;
            && |attempts| == |ClaimsBefore(s.ledger, id, |s.ledger|)| && k < |attempts|
            && attempts[k].sequence == s.ledger[p].sequence
            && attempts[k].claimedAt == s.ledger[p].at && attempts[k].worker == s.ledger[p].actor
            && if exists q: nat :: Closes(s.ledger, id, p, q) then
                 && attempts[k].ending.Some?
                 && exists q: nat :: Closes(s.ledger, id, p, q) && ToldBy(attempts[k].ending.value, s.ledger[q])
               else
                 && k == |attempts| - 1 && s.rows[id].stored == Claimed && s.rows[id].lease.Some?
                 && var until := s.rows[id].lease.value.expiresAt;
                    attempts[k].ending == if until <= s.clock then Some(Ending(WasExpired, until, System)) else None
  {
    hide Run, ReadEvents, EventsOf, Tells, Closes, ItemOk;
    var s := trace[i];
    var read := ReadEvents(Lifecycle(History(s, id)));
    var k := |ClaimsBefore(s.ledger, id, p)|;
    assert s.ledger[..|s.ledger|] == s.ledger;
    FoldTells(s.ledger, id, |s.ledger|);
    assert Tells(s.ledger, id, p, |s.ledger|, read[k]);
    if read[k].ending.None? {
      OnlyNewestIsOpen(trace, ops, i, id, k);
    }
    OpenAttemptIsClaimed(trace, ops, i, id);
    ToldThroughout(s.ledger, id, p, read[k]);
  }

  lemma OnlyNewestIsOpen(trace: seq<State>, ops: seq<Op>, i: nat, id: nat, k: nat)
    requires Run(trace, ops) && i < |trace| && id < |trace[i].rows|
    requires k < |ReadEvents(Lifecycle(History(trace[i], id)))|
    requires ReadEvents(Lifecycle(History(trace[i], id)))[k].ending.None?
    ensures k == |ReadEvents(Lifecycle(History(trace[i], id)))| - 1
    ensures trace[i].rows[id].stored == Claimed && trace[i].rows[id].lease.Some?
  {
    hide Run, ReadEvents, EventsOf;
    var h := History(trace[i], id);
    RunItem(trace, ops, i, id);
    LifecycleTakesTurns(h);
    OnlyNewestOpen(Lifecycle(h));
    OpenAttemptIsClaimed(trace, ops, i, id);
  }

  lemma ToldThroughout(ledger: seq<Event>, id: nat, p: nat, attempt: Attempt)
    requires p < |ledger| && Tells(ledger, id, p, |ledger|, attempt)
    ensures attempt.sequence == ledger[p].sequence
    ensures attempt.claimedAt == ledger[p].at && attempt.worker == ledger[p].actor
    ensures attempt.ending.Some? <==> exists q: nat :: Closes(ledger, id, p, q)
    ensures attempt.ending.Some? ==>
              exists q: nat :: Closes(ledger, id, p, q) && ToldBy(attempt.ending.value, ledger[q])
  {
  }
}
