/** What a claim may hand out, told from the query's fields and the tables, and what it leaves behind. */
module ClaimRules {
  import opened WorkTypes
  import opened QueueModel

  // ----- the clauses of a claim ---------------------------------------------------------

  /** The positions of the item's releases after an instant, but for those of operators and policies. */
  function RecentDeclines(ledger: seq<Event>, id: nat, after: int): set<nat> {
    set k: nat | k < |ledger| && ledger[k].item == id && ledger[k].body.WorkReleased? && ledger[k].at > after
                 && !ledger[k].actor.Operator? && !ledger[k].actor.Policy?
  }

  /** The item is of a kind the request asks for, if it asks for any, and of one the credential allows. */
  predicate KindAsked(q: ClaimQuery, kind: string) {
    && (q.kinds.Some? && q.kinds.value != {} ==> kind in q.kinds.value)
    && (q.allowedKinds.Some? ==> kind in q.allowedKinds.value)
  }

  /** The row waits for a worker: queued and admitted, or claimed under a lease that has run out. */
  predicate Waits(row: Row, now: int) {
    || (row.stored == Queued && row.admitted)
    || (row.stored == Claimed && row.lease.Some? && row.lease.value.expiresAt <= now)
  }

  /** Everything but the item's predecessors lets the claim have it. */
  predicate InTheRunning(s: State, q: ClaimQuery, id: nat) {
    && id < |s.rows|
    && var row := s.rows[id];
       && row.repository in s.repos && s.repos[row.repository]
       && Waits(row, s.clock)
       && |RecentDeclines(s.ledger, id, s.clock - 30 * 60 * 1000)| < 3
       && (q.repository.Some? ==> row.repository == q.repository.value)
       && KindAsked(q, row.def.kind)
       && (s.eligible.Some? ==> row.repository in s.eligible.value)
  }

  /** A completed item carries the reference, with every pull request of it merged and every release published. */
  ghost predicate CarriedOut(rows: seq<Row>, ref: SourceRef) {
    exists c :: 0 <= c < |rows| && rows[c].def.sourceRef == Some(ref) && rows[c].stored == Completed
      && (rows[c].result.Some? ==> forall a :: a in rows[c].result.value.artifacts ==> Settled(a))
  }

  /** Not a pull request short of merged, nor a release short of published. */
  predicate Settled(a: Artifact) {
    a.kind in {PullRequest, Release} ==>
      && a.verification.Some? && a.verification.value.Verified?
      && a.verification.value.state == if a.kind == PullRequest then Merged else Published
  }

  ghost predicate Takeable(s: State, q: ClaimQuery, id: nat) {
    && InTheRunning(s, q, id)
    && (s.rows[id].predecessors.Some? ==>
          forall ref :: ref in s.rows[id].predecessors.value ==> CarriedOut(s.rows, ref))
  }

  lemma {:induction false} DeclinesCounted(ledger: seq<Event>, id: nat, after: int)
    ensures ReleasesAfter(EventsOf(ledger, id), after) == |RecentDeclines(ledger, id, after)|
  {
    if ledger == [] {
      assert RecentDeclines(ledger, id, after) == {};
    } else {
      var n := |ledger| - 1;
      var before, last := ledger[..n], ledger[n];
      DeclinesCounted(before, id, after);
      assert RecentDeclines(ledger, id, after) ==
        RecentDeclines(before, id, after)
          + if last.item == id && CountedRelease(last) && last.at > after then {n} else {};
      if last.item == id {
        var h := EventsOf(before, id);
        assert (h + [last])[..|h + [last]| - 1] == h;
      } else {
        assert EventsOf(ledger, id) == EventsOf(before, id);
      }
    }
  }

  /** The claim's clauses hold of exactly these items: both lists of kinds restrict it, together. */
  lemma InTheRunningIff(s: State, q: ClaimQuery, id: nat)
    ensures Runs(s, q, id) <==> InTheRunning(s, q, id)
  {
    DeclinesCounted(s.ledger, id, s.clock - 30 * 60 * 1000);
  }

  lemma CarriedOutMeans(rows: seq<Row>, ref: SourceRef)
    ensures Satisfied(rows, ref) <==> CarriedOut(rows, ref)
  {
    forall c | 0 <= c < |rows| && rows[c].result.Some?
      ensures (forall k :: 0 <= k < |rows[c].result.value.artifacts| ==>
                 ArtifactDelivered(rows[c].result.value.artifacts[k]))
              <==> forall a :: a in rows[c].result.value.artifacts ==> Settled(a)
    {
      SettledMeans(rows[c].result.value.artifacts);
    }
  }

  lemma SettledMeans(artifacts: seq<Artifact>)
    ensures (forall k :: 0 <= k < |artifacts| ==> ArtifactDelivered(artifacts[k])) <==>
            forall a :: a in artifacts ==> Settled(a)
  {
    forall k | 0 <= k < |artifacts|
      ensures artifacts[k] in artifacts && (ArtifactDelivered(artifacts[k]) <==> Settled(artifacts[k]))
    {
    }
  }

  /** An item can be claimed exactly when it is in the running and everything it waits for is carried out. */
  lemma TakeableIff(s: State, q: ClaimQuery, id: nat)
    ensures Claimable(s, q, id) <==> Takeable(s, q, id)
  {
    hide Runs, InTheRunning, Satisfied, CarriedOut;
    InTheRunningIff(s, q, id);
    forall ref
      ensures Satisfied(s.rows, ref) <==> CarriedOut(s.rows, ref)
    {
      CarriedOutMeans(s.rows, ref);
    }
  }

  // ----- what a claim leaves behind -------------------------------------------------------

  /** The seconds asked for, between half a minute and an hour; a quarter of an hour when none are. */
  predicate LeaseAsked(seconds: Option<int>) {
    seconds.Some? ==> 30 <= seconds.value <= 3600
  }

  function LeaseLength(seconds: Option<int>): int {
    if seconds.Some? then seconds.value else 900
  }

  predicate QueryFits(q: ClaimQuery) {
    && (q.worker.Member? || q.worker.Worker?)
    && LeaseAsked(q.leaseSeconds)
    && (q.allowedKinds.Some? ==> q.allowedKinds.value != {} && forall k :: k in q.allowedKinds.value ==> KindOk(k))
  }

  /** No other item the claim could take is of higher priority, or of the same and older. */
  ghost predicate FirstOfTakeable(s: State, q: ClaimQuery, id: nat) {
    && Takeable(s, q, id)
    && forall other: nat :: Takeable(s, q, other) ==>
         && s.rows[other].priority <= s.rows[id].priority
         && (s.rows[other].priority == s.rows[id].priority ==>
               s.rows[id].def.createdAt <= s.rows[other].def.createdAt)
  }

  /** The item is claimed by the worker under a fresh token for the seconds asked; a lease it had ran out. */
  ghost predicate HandedOut(s: State, q: ClaimQuery, id: nat, t: State)
    requires id < |s.rows|
  {
    var row, until := s.rows[id], s.clock + LeaseLength(q.leaseSeconds) * 1000;
    var expired :=
      if row.stored == Claimed && row.lease.Some? then
        [Event(|s.ledger| + 1, id, System, s.clock, LeaseExpired(row.lease.value.owner, row.lease.value.expiresAt))]
      else [];
    t == s.(
      rows := s.rows[id := row.(stored := Claimed, lease := Some(Lease(q.worker, s.tokens, until)),
        updatedAt := s.clock)],
      tokens := s.tokens + 1,
      ledger := s.ledger + expired
        + [Event(|s.ledger| + |expired| + 1, id, q.worker, s.clock, WorkClaimed(until))])
  }

  lemma TakeHandsOut(s: State, q: ClaimQuery, id: nat)
    requires id < |s.rows| && LeaseAsked(q.leaseSeconds) && Waits(s.rows[id], s.clock)
    ensures LeaseSeconds(q.leaseSeconds).Accepted?
    ensures HandedOut(s, q, id, Take(Strike(s, id), id, q.worker, LeaseSeconds(q.leaseSeconds).value))
  {
    var t := Take(Strike(s, id), id, q.worker, LeaseSeconds(q.leaseSeconds).value);
    if s.rows[id].stored == Claimed {
      assert t.rows == s.rows[id := t.rows[id]];
    }
  }

  /**
   * A claim changes nothing when its query does not fit or nothing can be
   * taken. Otherwise it hands out an item that can be taken - of a kind both
   * the request and the credential name - and that no other precedes, to its
   * worker, for exactly the seconds asked.
   */
  lemma ClaimHandsOut(s: State, op: Op, t: State)
    requires op.OpClaim? && Step(s, op, t)
    ensures QueryFits(op.q) ==> (op.choice.Some? <==> exists id: nat :: Takeable(s, op.q, id))
    ensures if !QueryFits(op.q) || (forall id: nat :: !Takeable(s, op.q, id)) then t == s
            else
              && op.choice.Some? && FirstOfTakeable(s, op.q, op.choice.value)
              && HandedOut(s, op.q, op.choice.value, t)
  {
    hide Claimable, InTheRunning, Take, Strike, HandedOut, CarriedOut;
    if QueryFits(op.q) {
      assert ClaimRefusal(op.q).None?;
      forall id: nat
        ensures Claimable(s, op.q, id) <==> Takeable(s, op.q, id)
      {
        TakeableIff(s, op.q, id);
      }
      if op.choice.Some? {
        InTheRunningWaits(s, op.q, op.choice.value);
        TakeHandsOut(s, op.q, op.choice.value);
      }
    }
  }

  lemma InTheRunningWaits(s: State, q: ClaimQuery, id: nat)
    requires InTheRunning(s, q, id)
    ensures id < |s.rows| && Waits(s.rows[id], s.clock)
  {
  }
}
