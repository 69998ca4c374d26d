/** Short runs from the empty database: the reachable states in which a stronger claim fails. */
module SampleRuns {
  import opened WorkTypes
  import opened Contracts
  import opened FollowUpIntent
  import opened QueueModel
  import opened QueueInvariant

  const REPO: string := "o/r"
  const OPERATOR: Principal := Operator("ann")
  const WORKER: Principal := Worker("w")
  const BRIEF: Brief := Brief("o", "i", ["c"])
  const QUERY: ClaimQuery := ClaimQuery(WORKER, None, None, None, None)
  const DONE: WorkResult := WorkResult("done", [], [])
  const OPEN_PULL: Artifact := Artifact(PullRequest, "https://github.com/o/r/pull/2", Some(REPO), Some(2),
    Some(Verified(Observed.Open, false, Some(2))))

  /** Work that only reads, of any kind. */
  function Reading(kind: string): Root {
    Root(kind, BRIEF, [Read], [], None, ReadOnly, None, OPERATOR, None)
  }

  lemma BriefStated()
    ensures BRIEF.Stated()
  {
    assert !Blank("o") by { assert "o"[0] == 'o'; }
    assert !Blank("i") by { assert "i"[0] == 'i'; }
    assert !Blank("c") by { assert "c"[0] == 'c'; }
  }

  lemma DoneOk()
    ensures ResultOk(DONE)
  {
    assert !Blank("done") by { assert "done"[0] == 'd'; }
  }

  /** One repository, and it is enabled; no hook is configured, and nothing was ever released. */
  predicate Calm(s: State) {
    && s.repos == map[REPO := true]
    && s.authorities.None?
    && s.eligible.None?
    && forall k :: 0 <= k < |s.ledger| ==> !s.ledger[k].body.WorkReleased?
  }

  /** The item is waiting to be claimed, and waits for nothing. */
  predicate Waiting(row: Row) {
    row.repository == REPO && row.stored == Queued && row.admitted && row.predecessors.None?
  }

  predicate Idle(row: Row) {
    row.stored != Queued && row.stored != Claimed
  }

  /** The item is claimed under the token, with time left. */
  predicate HeldBy(row: Row, token: nat, now: int) {
    row.stored == Claimed && row.lease.Some? && row.lease.value == Lease(WORKER, token, row.lease.value.expiresAt)
    && row.lease.value.expiresAt > now
  }

  lemma {:induction false} NothingReleased(ledger: seq<Event>, id: nat, after: int)
    requires forall k :: 0 <= k < |ledger| ==> !ledger[k].body.WorkReleased?
    ensures ReleasesAfter(EventsOf(ledger, id), after) == 0
  {
    if ledger != [] {
      var before, last := EventsOf(ledger[..|ledger| - 1], id), ledger[|ledger| - 1];
      NothingReleased(ledger[..|ledger| - 1], id, after);
      if last.item == id {
        assert (before + [last])[..|before|] == before;
      } else {
        assert before + [] == before;
      }
    }
  }

  /** The one item that can run is claimed. */
  lemma TakeOnly(s: State, id: nat)
    requires Calm(s) && id < |s.rows| && Waiting(s.rows[id])
    requires forall i :: 0 <= i < |s.rows| && i != id ==> Idle(s.rows[i])
    ensures Step(s, OpClaim(QUERY, Some(id)), Take(s, id, WORKER, DEFAULT_LEASE_SECONDS))
    ensures Calm(Take(s, id, WORKER, DEFAULT_LEASE_SECONDS))
    ensures HeldBy(Take(s, id, WORKER, DEFAULT_LEASE_SECONDS).rows[id], s.tokens, s.clock)
  {
    hide EnqueueBatch, EnqueueImports, EnqueueCure, EnqueueReview, Complete, ClaimAnswer, Approve;
    OnlyAnswer(s, id);
    assert Perform(s, OpClaim(QUERY, Some(id))) == Accepted(Take(s, id, WORKER, DEFAULT_LEASE_SECONDS));
  }

  lemma OnlyAnswer(s: State, id: nat)
    requires Calm(s) && id < |s.rows| && Waiting(s.rows[id])
    requires forall i :: 0 <= i < |s.rows| && i != id ==> Idle(s.rows[i])
    ensures ClaimAnswer(s, QUERY, Some(id))
  {
    NothingReleased(s.ledger, id, s.clock - CLAIM_BACKOFF_WINDOW);
    forall other: nat | Claimable(s, QUERY, other)
      ensures other == id
    {
      assert Available(s.rows[other], s.clock);
    }
    assert Claimable(s, QUERY, id);
  }

  lemma BlockHeld(s: State, id: nat, token: nat, reason: string)
    requires Calm(s) && id < |s.rows| && HeldBy(s.rows[id], token, s.clock) && !Blank(reason)
    ensures var t := BlockWork(s, id, token, WORKER, reason).value;
            && BlockWork(s, id, token, WORKER, reason).Accepted?
            && Step(s, OpBlock(id, token, WORKER, reason), t)
            && Calm(t)
  {
  }

  /** Held work that owes no artifact completes, a review with the verdict it owes. */
  lemma CompleteHeld(s: State, id: nat, token: nat, verdict: Option<Verdict>)
    requires Calm(s) && id < |s.rows| && HeldBy(s.rows[id], token, s.clock)
    requires s.rows[id].def.required == NoArtifact && ReviewProblem(s.rows[id], verdict).None?
    ensures Complete(s, id, token, WORKER, DONE, [], verdict) ==
      Accepted(Finish(s, id, s.rows[id], WORKER, DONE, verdict, []))
    ensures Step(s, OpComplete(id, token, WORKER, DONE, [], verdict),
      Finish(s, id, s.rows[id], WORKER, DONE, verdict, []))
    ensures Calm(Finish(s, id, s.rows[id], WORKER, DONE, verdict, []))
  {
    hide Complete, Finish, EnqueueBatch, EnqueueReview, Approve;
    CompletesHeld(s, id, token, verdict);
    FinishStaysCalm(s, id, verdict);
  }

  lemma CompletesHeld(s: State, id: nat, token: nat, verdict: Option<Verdict>)
    requires id < |s.rows| && HeldBy(s.rows[id], token, s.clock)
    requires s.rows[id].def.required == NoArtifact && ReviewProblem(s.rows[id], verdict).None?
    ensures Complete(s, id, token, WORKER, DONE, [], verdict) ==
      Accepted(Finish(s, id, s.rows[id], WORKER, DONE, verdict, []))
  {
    hide Finish, AddFollowUp, ReviewProblem, ResultOk;
    DoneOk();
    assert seq(0, i requires 0 <= i < 0 => |s.rows| + i) == [];
  }

  lemma FinishStaysCalm(s: State, id: nat, verdict: Option<Verdict>)
    requires Calm(s) && id < |s.rows|
    ensures Calm(Finish(s, id, s.rows[id], WORKER, DONE, verdict, []))
  {
  }

  lemma EnabledReached(s: State)
    requires s == EMPTY.(repos := map[REPO := true])
    ensures Reached(s)
  {
    hide Reached;
    EmptyReached();
    ReachedOn(EMPTY, OpEnable(REPO, true), s);
  }

  /** The one item that can run is claimed, in a reachable state. */
  lemma ClaimedOnly(s: State, id: nat) returns (t: State)
    requires Reached(s) && Calm(s) && id < |s.rows| && Waiting(s.rows[id])
    requires forall i :: 0 <= i < |s.rows| && i != id ==> Idle(s.rows[i])
    ensures Reached(t) && Calm(t) && |t.rows| == |s.rows| && HeldBy(t.rows[id], s.tokens, t.clock)
    ensures t.rows[id].def == s.rows[id].def && t.rows[id].repository == s.rows[id].repository
    ensures t.rows[id].review == s.rows[id].review && t.rows[id].previous == s.rows[id].previous
  {
    hide Reached, Step, Perform, Calm, Idle, Waiting;
    TakeOnly(s, id);
    t := Take(s, id, WORKER, DEFAULT_LEASE_SECONDS);
    ReachedOn(s, OpClaim(QUERY, Some(id)), t);
  }

  lemma SeededOnce(s: State, kind: string) returns (t: State)
    requires s == EMPTY.(repos := map[REPO := true])
    requires KindOk(kind) && RootProblem(Reading(kind), false).None?
    ensures Step(s, OpSeed(REPO, Reading(kind)), t) && Calm(t) && |t.rows| == 1 && t.tokens == 0
    ensures t.rows[0] == RootRow(s, REPO, Reading(kind), true, None, None, None, None, None)
  {
    hide RootProblem, KindOk;
    t := EnqueueSeed(s, REPO, Reading(kind)).value;
  }

  /** A root that only reads is created and claimed. */
  lemma SeedClaimed(kind: string) returns (s: State)
    requires KindOk(kind) && RootProblem(Reading(kind), false).None?
    ensures Reached(s) && Calm(s) && |s.rows| == 1 && HeldBy(s.rows[0], 0, s.clock)
    ensures s.rows[0].def.kind == kind && s.rows[0].def.required == NoArtifact
    ensures s.rows[0].review.None? && s.rows[0].previous == []
  {
    hide Reached, Step, Perform, RootProblem, KindOk;
    var s1 := EMPTY.(repos := map[REPO := true]);
    EnabledReached(s1);
    var s2 := SeededOnce(s1, kind);
    ReachedOn(s1, OpSeed(REPO, Reading(kind)), s2);
    s := ClaimedOnly(s2, 0);
  }
}
