/** Why the review budget has conditions: what one requeue, or one rename, does to a run that kept them all. */
module BudgetConditions {
  import opened WorkTypes
  import opened QueueModel
  import opened OpEvents
  import opened ReviewGate
  import opened ReviewBudget
  import opened SampleRuns
  import opened FixSpellings

  const AGAIN: string := "again"
  const OTHER: string := "o/q"

  // ----- a requeue -----------------------------------------------------------------------

  /** A review that was not given a verdict lies blocked, and the next one is queued. */
  lemma BlockedThenQueued(reviewed: PullUrl, one: string, two: string) returns (t: State)
    requires one != two
    ensures GateReached(Gate(t, None)) && |t.rows| == 2
    ensures GateItem(t.rows[0], REPO, reviewed.number) && t.rows[0].stored == Blocked
    ensures GateItem(t.rows[1], REPO, reviewed.number) && InFlight(t.rows[1])
  {
    hide GateReached, Decide, Calm, Idle, StandsBlocked;
    var s0 := EnabledAtRest();
    FirstDecision(s0, reviewed, one);
    var first := ReviewPlan(SampleReview(reviewed, one, 1, []));
    var s := EndsBlocked(s0, reviewed, one, MintReview(first.review), first);
    RestIsQuiet(s, reviewed.number, two);
    DecidesReview(s.rows, reviewed, two);
    var next := ReviewPlan(SampleReview(reviewed, two, 1, []));
    t := Queued(s, reviewed, two, next);
    assert t.rows[0] == t.rows[..1][0] && s.rows[0] == t.rows[0];
  }

  /** The sweep's plan is enqueued and waits. */
  lemma Queued(s: State, url: PullUrl, head: string, plan: Plan) returns (t: State)
    requires AtRest(s) && SamplePlan(plan, Decide(s.rows, REPO, url, head)) && plan.repository == REPO
    requires !SourceRefExists(s, REPO, plan.ref)
    ensures GateReached(Gate(t, None)) && Begun(s, t, plan) && Waiting(t.rows[|s.rows|])
  {
    hide GateReached, GateRunTo;
    GateReachedHolds(Gate(s, None), url.number);
    PlanAccepted(s, plan, Decide(s.rows, REPO, url, head));
    t := EnqueueReview(s, plan.repository, plan.root, plan.ref, plan.review).value;
    Swept(s, url, head, plan, t);
    Enqueued(s, plan, t);
  }

  ghost predicate RequeueBreaks(g: Gate, id: nat, t: State, number: nat) {
    && GateReached(g)
    && Step(g.queue, OpRequeue(id, OPERATOR, AGAIN, None), t)
    && !OneInFlight(t.rows, REPO, number)
  }

  /** A run within the conditions, and the requeue after which two reviews of one pull request are in flight. */
  lemma RequeueBreaksBudget(reviewed: PullUrl, one: string, two: string)
    requires one != two
    ensures exists g, t :: RequeueBreaks(g, 0, t, reviewed.number)
  {
    hide GateReached, BudgetOk, OneInFlight, GateRunTo, Complete, EnqueueBatch, EnqueueReview;
    var s := BlockedThenQueued(reviewed, one, two);
    assert !Blank(AGAIN) by { assert AGAIN[0] == 'a'; }
    var t := Requeue(s, 0, OPERATOR, AGAIN, None).value;
    GateReachedHolds(Gate(s, None), reviewed.number);
    RequeueKeepsOneInFlightIff(s, None, 0, OPERATOR, AGAIN, None, REPO, reviewed.number);
    assert RequeueBreaks(Gate(s, None), 0, t, reviewed.number);
  }

  // ----- a rename ----------------------------------------------------------------------------

  /** The pull request's first review under this name is a second round. */
  ghost predicate Misnumbered(s: State, number: nat) {
    && VerdictsOf(s, REPO, number) == []
    && exists i :: 0 <= i < |s.rows| && ReviewItem(s.rows[i], REPO, number) && s.rows[i].review.value.round == 2
  }

  /** What a sweep does with its plan. */
  function EnqueueOf(p: Plan): Op {
    OpReview(p.repository, p.root, p.ref, p.review)
  }

  /** The repository is renamed, the old name enabled again, and then the pending plan enqueued. */
  ghost predicate RenameBreaks(g: Gate, t: State, u: State, v: State, number: nat) {
    && GateReached(g) && g.pending.Some?
    && Step(g.queue, OpRename(REPO, OTHER, OPERATOR), t)
    && Step(t, OpEnable(REPO, true), u)
    && Step(u, EnqueueOf(g.pending.value), v)
    && Misnumbered(v, number)
  }

  lemma DecidesSecond(s: State, reviewed: PullUrl, one: string, two: string)
    requires AtRest(s) && StandsBlocked(s, reviewed.number, 0, one, 1) && one != two
    ensures Decide(s.rows, REPO, reviewed, two) == MintReview(SampleReview(reviewed, two, 2, [BLOCKER]))
  {
    hide AtRest, GateReached, VerdictsOf;
    RestIsQuiet(s, reviewed.number, two);
    DecidesNextReview(s.rows, VerdictsOf(s, REPO, reviewed.number), reviewed, two, 0, one, 1);
  }

  /** After a first round that blocked, the sweep has decided a second review. */
  lemma SecondReviewPending(reviewed: PullUrl, one: string, two: string) returns (s: State, plan: Plan)
    requires one != two
    ensures GateReached(Gate(s, Some(plan))) && Calm(s) && ItemsExist(s)
    ensures forall i :: 0 <= i < |s.rows| ==> s.rows[i].repository == REPO
    ensures plan.repository == REPO && plan.root.kind == REVIEW_KIND
    ensures plan.review == SampleReview(reviewed, two, 2, [BLOCKER]) && SamplePlan(plan, MintReview(plan.review))
  {
    hide GateReached, StandsBlocked, Decide, BudgetOk, GateRunTo;
    var s0 := EnabledAtRest();
    s := FirstRound(s0, reviewed, one);
    GateReachedHolds(Gate(s, None), reviewed.number);
    DecidesSecond(s, reviewed, one, two);
    plan := ReviewPlan(SampleReview(reviewed, two, 2, [BLOCKER]));
    Looked(s, reviewed, two, plan);
  }

  /** The repository is renamed, and the old name enabled again. */
  lemma RenamedAndEnabled(s: State) returns (t: State, u: State)
    requires Calm(s) && forall i :: 0 <= i < |s.rows| ==> s.rows[i].repository == REPO
    ensures Step(s, OpRename(REPO, OTHER, OPERATOR), t) && Step(t, OpEnable(REPO, true), u)
    ensures Enabled(u, REPO) && u.authorities.None? && u.ledger == s.ledger && |u.rows| == |s.rows|
    ensures forall i :: 0 <= i < |u.rows| ==> u.rows[i].repository == OTHER
  {
    assert Lower(REPO)[2] == 'r' && Lower(OTHER)[2] == 'q';
    t := Rename(s, REPO, OTHER, OPERATOR).value;
    u := t.(repos := t.repos[REPO := true]);
  }

  /** Nothing is left under the old name, and the plan is enqueued there. */
  lemma EnqueuedUnderOldName(u: State, plan: Plan) returns (v: State)
    requires Enabled(u, REPO) && u.authorities.None? && ItemsExist(u)
    requires forall i :: 0 <= i < |u.rows| ==> u.rows[i].repository == OTHER
    requires plan.repository == REPO && plan.root.kind == REVIEW_KIND && plan.review.round == 2
    requires SamplePlan(plan, MintReview(plan.review))
    ensures Step(u, EnqueueOf(plan), v)
    ensures Misnumbered(v, plan.review.url.number)
  {
    hide EnqueueBatch, AddFollowUps, EnqueueImports;
    hide SamplePlan, Misnumbered, EnqueueReview;
    var number := plan.review.url.number;
    OldNameIsFree(u, plan, number);
    PlanAccepted(u, plan, MintReview(plan.review));
    EnqueueAdds(u, plan);
    v := EnqueueReview(u, plan.repository, plan.root, plan.ref, plan.review).value;
    MintAddsPlan(u, plan, v);
    AddedUnderOldName(u, plan, v, number);
  }

  lemma EnqueueAdds(u: State, plan: Plan)
    requires EnqueueReview(u, plan.repository, plan.root, plan.ref, plan.review).Accepted?
    requires !SourceRefExists(u, plan.repository, plan.ref)
    ensures |EnqueueReview(u, plan.repository, plan.root, plan.ref, plan.review).value.rows| == |u.rows| + 1
  {
  }

  lemma OldNameIsFree(u: State, plan: Plan, number: nat)
    requires forall i :: 0 <= i < |u.rows| ==> u.rows[i].repository == OTHER
    ensures VerdictsOf(u, REPO, number) == [] && !SourceRefExists(u, REPO, plan.ref)
  {
    assert REPO[2] != OTHER[2];
    NoVerdicts(u.ledger, u.rows, REPO, number);
  }

  lemma AddedUnderOldName(u: State, plan: Plan, v: State, number: nat)
    requires ItemsExist(u) && VerdictsOf(u, REPO, number) == [] && plan.review.url.number == number
    requires plan.repository == REPO && plan.root.kind == REVIEW_KIND && plan.review.round == 2
    requires |v.rows| == |u.rows| + 1 && Planned(plan, v.rows[|u.rows|])
    requires v == Insert(u, v.rows[|u.rows|], WorkQueued)
    ensures Misnumbered(v, number)
  {
    VerdictsAfter(u, v, v.ledger[|u.ledger|], REPO, number);
    assert ReviewItem(v.rows[|u.rows|], REPO, number);
  }

  /**
   * A run within the conditions, and the rename after which a pull request
   * that has no verdict is given a review of the second round.
   */
  lemma RenameBreaksBudget(reviewed: PullUrl, one: string, two: string)
    requires one != two
    ensures exists g, t, u, v :: RenameBreaks(g, t, u, v, reviewed.number)
  {
    hide GateReached, Step, Calm, Misnumbered, SamplePlan;
    var s, plan := SecondReviewPending(reviewed, one, two);
    var t, u := RenamedAndEnabled(s);
    var v := EnqueuedUnderOldName(u, plan);
    assert RenameBreaks(Gate(s, Some(plan)), t, u, v, reviewed.number);
  }
}
