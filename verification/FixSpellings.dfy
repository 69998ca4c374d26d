/**
 * The bound on fixes is met: a run of the gate in which a pull request whose
 * URL is spelled in several ways is fixed twice under each of them.
 */
module FixSpellings {
  import opened WorkTypes
  import opened Contracts
  import opened QueueModel
  import opened QueueInvariant
  import opened OpEvents
  import opened ReviewGate
  import opened ReviewBudget
  import opened FixBudget
  import opened SampleRuns

  const BLOCKER: Blocker := Blocker("src/a", "breaks b")
  const BLOCKED: Verdict := Verdict(Decision.Block, [BLOCKER], [])

  // ----- states a gate run reaches -------------------------------------------------------

  ghost predicate GateRunTo(trace: seq<Gate>, steps: seq<GateStep>, g: Gate) {
    GateRun(trace, steps) && trace[|steps|] == g
  }

  ghost predicate GateReached(g: Gate) {
    exists trace, steps :: GateRunTo(trace, steps, g)
  }

  lemma GateStarts()
    ensures GateReached(Gate(EMPTY, None))
  {
    assert GateRunTo([Gate(EMPTY, None)], [], Gate(EMPTY, None));
  }

  lemma GateReachedOn(g: Gate, step: GateStep, h: Gate)
    requires GateReached(g) && Moves(g, step, h)
    ensures GateReached(h)
  {
    hide Moves;
    var trace, steps :| GateRunTo(trace, steps, g);
    var longer, more := trace + [h], steps + [step];
    forall i: nat | i < |more|
      ensures MovesAt(longer, more, i)
    {
      if i < |steps| { assert MovesAt(trace, steps, i); }
    }
    assert GateRunTo(longer, more, h);
  }

  lemma Transacted(s: State, op: Op, t: State)
    requires GateReached(Gate(s, None)) && Permitted(Gate(s, None), op) && Step(s, op, t)
    ensures GateReached(Gate(t, None))
  {
    GateReachedOn(Gate(s, None), Transact(op), Gate(t, None));
  }

  lemma GateReachedHolds(g: Gate, number: nat)
    requires GateReached(g)
    ensures ItemsExist(g.queue)
    ensures BudgetOk(g.queue, g.pending, REPO, number)
  {
    hide MovesAt;
    var trace, steps :| GateRunTo(trace, steps, g);
    GateRunHolds(trace, steps, |steps|);
  }

  // ----- one root through the queue ----------------------------------------------------------

  /** Nothing waits or runs, every fix ended blocked, and every completed item is a review. */
  ghost predicate AtRest(s: State) {
    && GateReached(Gate(s, None)) && Calm(s)
    && forall i :: 0 <= i < |s.rows| ==>
         Idle(s.rows[i]) && (s.rows[i].def.kind == REVIEW_FIX_KIND ==> s.rows[i].stored == Blocked)
  }

  /** A plan of a review or fix with at most the sample blocker. */
  predicate SamplePlan(plan: Plan, decision: GateDecision) {
    && PlanFor(REPO, decision, BRIEF, 0) == Some(plan)
    && plan.review.round >= 1
    && (plan.review.priorBlockers == [] || plan.review.priorBlockers == [BLOCKER])
    && (plan.review.blockers == [] || plan.review.blockers == [BLOCKER])
    && (plan.root.kind == REVIEW_FIX_KIND ==> plan.review.reviewItem.Some?)
  }

  lemma GateKindsOk()
    ensures KindOk(REVIEW_KIND) && KindOk(REVIEW_FIX_KIND)
  {
  }

  lemma SampleBlockersOk()
    ensures BlockersOk([BLOCKER]) && BlockersOk([])
  {
    assert !Blank("src/a") by { assert "src/a"[0] == 's'; }
    assert !Blank("breaks b") by { assert "breaks b"[0] == 'b'; }
  }

  lemma PlanAccepted(s: State, plan: Plan, decision: GateDecision)
    requires SamplePlan(plan, decision) && Enabled(s, REPO) && s.authorities.None?
    requires !SourceRefExists(s, REPO, plan.ref)
    ensures EnqueueReview(s, plan.repository, plan.root, plan.ref, plan.review).Accepted?
  {
    hide CreationAuthorization, BlockersOk;
    GateKindsOk();
    SampleBlockersOk();
    BriefStated();
  }

  /** From `s` on exactly one row was added, as planned, and no verdict was given. */
  ghost predicate Begun(s: State, u: State, plan: Plan) {
    && Calm(u) && ItemsExist(u)
    && |u.rows| == |s.rows| + 1 && u.rows[..|s.rows|] == s.rows
    && (var row := u.rows[|s.rows|];
        && row.repository == REPO && row.def.kind == plan.root.kind && row.def.sourceRef == Some(plan.ref)
        && row.def.required == Required(plan.root) && row.review == Some(plan.review))
    && VerdictsOf(u, REPO, plan.review.url.number) == VerdictsOf(s, REPO, plan.review.url.number)
  }

  lemma Enqueued(s: State, plan: Plan, t: State)
    requires plan.repository == REPO && Calm(s) && ItemsExist(s)
    requires !SourceRefExists(s, REPO, plan.ref)
    requires EnqueueReview(s, plan.repository, plan.root, plan.ref, plan.review) == Accepted(t)
    ensures Begun(s, t, plan) && Waiting(t.rows[|s.rows|]) && t.tokens == s.tokens
  {
    hide RootProblem, BindPolicy, GateRootOk, ReviewOk;
    var row := t.rows[|s.rows|];
    assert t == Insert(s, row, WorkQueued);
    VerdictsAfter(s, t, t.ledger[|s.ledger|], REPO, plan.review.url.number);
  }

  lemma Taken(s: State, t: State, plan: Plan)
    requires Begun(s, t, plan) && Waiting(t.rows[|s.rows|])
    requires forall i :: 0 <= i < |s.rows| ==> Idle(s.rows[i])
    ensures var u := Take(t, |s.rows|, WORKER, DEFAULT_LEASE_SECONDS);
            && Begun(s, u, plan)
            && Step(t, OpClaim(QUERY, Some(|s.rows|)), u)
            && HeldBy(u.rows[|s.rows|], t.tokens, u.clock)
  {
    hide Step, Perform;
    assert forall i :: 0 <= i < |t.rows| && i != |s.rows| ==> t.rows[i] == t.rows[..|s.rows|][i];
    TakeOnly(t, |s.rows|);
    var u := Take(t, |s.rows|, WORKER, DEFAULT_LEASE_SECONDS);
    VerdictsAfter(t, u, u.ledger[|t.ledger|], REPO, plan.review.url.number);
  }

  lemma Minted(s: State, plan: Plan, t: State)
    requires EnqueueReview(s, plan.repository, plan.root, plan.ref, plan.review) == Accepted(t)
    ensures Moves(Gate(s, Some(plan)), Mint, Gate(t, None))
  {
    hide EnqueueReview;
  }

  lemma Looked(s: State, url: PullUrl, head: string, plan: Plan)
    requires GateReached(Gate(s, None)) && PlanFor(REPO, Decide(s.rows, REPO, url, head), BRIEF, 0) == Some(plan)
    ensures GateReached(Gate(s, Some(plan)))
  {
    hide GateReached, Decide, PlanFor;
    GateReachedOn(Gate(s, None), Look(REPO, url, head, BRIEF, 0), Gate(s, Some(plan)));
  }

  lemma Swept(s: State, url: PullUrl, head: string, plan: Plan, t: State)
    requires GateReached(Gate(s, None)) && PlanFor(REPO, Decide(s.rows, REPO, url, head), BRIEF, 0) == Some(plan)
    requires EnqueueReview(s, plan.repository, plan.root, plan.ref, plan.review) == Accepted(t)
    ensures GateReached(Gate(t, None))
  {
    hide GateReached, EnqueueReview, Decide, PlanFor, Moves;
    Looked(s, url, head, plan);
    Minted(s, plan, t);
    GateReachedOn(Gate(s, Some(plan)), Mint, Gate(t, None));
  }

  /** A sweep looks, decides, and enqueues; a worker claims. */
  lemma Started(s: State, url: PullUrl, head: string, decision: GateDecision, plan: Plan) returns (u: State)
    requires AtRest(s) && Decide(s.rows, REPO, url, head) == decision && SamplePlan(plan, decision)
    requires !SourceRefExists(s, REPO, plan.ref)
    ensures GateReached(Gate(u, None)) && Begun(s, u, plan) && HeldBy(u.rows[|s.rows|], s.tokens, u.clock)
  {
    hide GateReached, Decide, EnqueueReview, Step, Perform;
    GateReachedHolds(Gate(s, None), url.number);
    PlanAccepted(s, plan, decision);
    var t := EnqueueReview(s, plan.repository, plan.root, plan.ref, plan.review).value;
    Swept(s, url, head, plan, t);
    Enqueued(s, plan, t);
    Taken(s, t, plan);
    u := Take(t, |s.rows|, WORKER, DEFAULT_LEASE_SECONDS);
    Transacted(t, OpClaim(QUERY, Some(|s.rows|)), u);
  }

  // ----- a fix that ends blocked, and a review that blocks -------------------------------------

  /** One more row at rest: the planned item, with this record. */
  ghost predicate Ended(s: State, t: State, plan: Plan, review: Review) {
    && AtRest(t)
    && |t.rows| == |s.rows| + 1 && t.rows[..|s.rows|] == s.rows
    && var row := t.rows[|s.rows|];
       && row.repository == REPO && row.def.kind == plan.root.kind && row.def.sourceRef == Some(plan.ref)
       && row.review == Some(review)
  }

  /** Planned work is claimed and blocks: a fix, or a review that gives no verdict. */
  lemma EndsBlocked(s: State, url: PullUrl, head: string, decision: GateDecision, plan: Plan) returns (t: State)
    requires AtRest(s) && Decide(s.rows, REPO, url, head) == decision && SamplePlan(plan, decision)
    requires !SourceRefExists(s, REPO, plan.ref)
    ensures Ended(s, t, plan, plan.review) && t.rows[|s.rows|].stored == Blocked
    ensures VerdictsOf(t, REPO, plan.review.url.number) == VerdictsOf(s, REPO, plan.review.url.number)
  {
    hide GateReached, Ended, Perform;
    var u := Started(s, url, head, decision, plan);
    var id := |s.rows|;
    assert !Blank("stuck") by { assert "stuck"[0] == 's'; }
    BlockHeld(u, id, s.tokens, "stuck");
    t := BlockWork(u, id, s.tokens, WORKER, "stuck").value;
    Transacted(u, OpBlock(id, s.tokens, WORKER, "stuck"), t);
    RestsBlocked(s, u, plan, t);
    VerdictsAfter(u, t, t.ledger[|u.ledger|], REPO, plan.review.url.number);
  }

  lemma RestsBlocked(s: State, u: State, plan: Plan, t: State)
    requires AtRest(s) && Begun(s, u, plan) && GateReached(Gate(t, None)) && Calm(t)
    requires |t.rows| == |u.rows| && t.rows[..|s.rows|] == u.rows[..|s.rows|]
    requires var was, row := u.rows[|s.rows|], t.rows[|s.rows|];
             row.stored == Blocked && row.def == was.def && row.repository == was.repository && row.review == was.review
    ensures Ended(s, t, plan, plan.review)
  {
    hide GateReached;
    assert forall i :: 0 <= i < |s.rows| ==> t.rows[i] == t.rows[..|s.rows|][i];
  }

  lemma ReviewBlocks(s: State, url: PullUrl, head: string, review: Review, plan: Plan) returns (t: State)
    requires AtRest(s) && Decide(s.rows, REPO, url, head) == MintReview(review) && SamplePlan(plan, MintReview(review))
    requires !SourceRefExists(s, REPO, plan.ref)
    ensures Ended(s, t, plan, Judged(review, BLOCKED))
    ensures VerdictsOf(t, REPO, review.url.number) == VerdictsOf(s, REPO, review.url.number) + [|s.rows|]
  {
    hide GateReached, AtRest, Perform;
    var u := Started(s, url, head, MintReview(review), plan);
    var id := |s.rows|;
    SampleBlockersOk();
    CompleteHeld(u, id, s.tokens, Some(BLOCKED));
    t := Finish(u, id, u.rows[id], WORKER, DONE, Some(BLOCKED), []);
    Transacted(u, OpComplete(id, s.tokens, WORKER, DONE, [], Some(BLOCKED)), t);
    VerdictGiven(u, id, t, review.url.number);
    RestsJudged(s, u, plan, t);
  }

  lemma RestsJudged(s: State, u: State, plan: Plan, t: State)
    requires AtRest(s) && Begun(s, u, plan) && plan.root.kind == REVIEW_KIND && GateReached(Gate(t, None)) && Calm(t)
    requires t == Finish(u, |s.rows|, u.rows[|s.rows|], WORKER, DONE, Some(BLOCKED), [])
    ensures Ended(s, t, plan, Judged(plan.review, BLOCKED))
  {
    hide GateReached;
    assert forall i :: 0 <= i < |s.rows| ==> t.rows[i] == u.rows[..|s.rows|][i];
  }

  lemma VerdictGiven(u: State, id: nat, t: State, number: nat)
    requires ItemsExist(u) && id < |u.rows| && ReviewItem(u.rows[id], REPO, number)
    requires t == Finish(u, id, u.rows[id], WORKER, DONE, Some(BLOCKED), [])
    ensures VerdictsOf(t, REPO, number) == VerdictsOf(u, REPO, number) + [id]
  {
    var done := CompletedRow(u, u.rows[id], DONE, Some(BLOCKED));
    var s1 := Touch(u, id, done, WorkCompleted([]), WORKER);
    VerdictsAfter(u, s1, s1.ledger[|u.ledger|], REPO, number);
    VerdictsAfter(s1, t, t.ledger[|s1.ledger|], REPO, number);
  }

  lemma ReviewPlan(review: Review) returns (plan: Plan)
    requires review.round >= 1 && (review.priorBlockers == [] || review.priorBlockers == [BLOCKER])
    requires review.blockers == [] || review.blockers == [BLOCKER]
    ensures SamplePlan(plan, MintReview(review))
    ensures plan.repository == REPO && plan.root.kind == REVIEW_KIND && plan.review == review
    ensures plan.ref == BoundHead(REVIEW_KIND, review.url, review.headSha)
  {
    plan := PlanFor(REPO, MintReview(review), BRIEF, 0).value;
  }

  /** No reference of the table names the head of the plan. */
  lemma PlanIsFree(s: State, plan: Plan, head: string)
    requires Unnamed(s.rows, head) && plan.ref.BoundHead? && plan.ref.head == head
    ensures !SourceRefExists(s, REPO, plan.ref)
  {
  }

  // ----- what the sweep decides on the way ---------------------------------------------------------

  function SampleFix(url: PullUrl, head: string, round: int, verdict: nat): Review {
    Review(url, head, round, [], Some(verdict), None, [BLOCKER])
  }

  function SampleReview(url: PullUrl, head: string, round: int, prior: seq<Blocker>): Review {
    Review(url, head, round, prior, None, None, [])
  }

  predicate BlocksAt(row: Row, head: string) {
    && row.review.Some?
    && row.review.value.headSha == head
    && row.review.value.decision == Some(Decision.Block)
    && row.review.value.blockers == [BLOCKER]
  }

  /** The last verdict, of this round, blocks this head, with rounds left. */
  predicate LastBlocks(rows: seq<Row>, verdicts: seq<nat>, verdict: nat, head: string, round: int) {
    && |verdicts| == round && 1 <= round < MAX_REVIEW_ROUNDS && verdicts[round - 1] == verdict
    && verdict < |rows| && BlocksAt(rows[verdict], head)
  }

  ghost predicate StandsBlocked(s: State, number: nat, verdict: nat, head: string, round: int) {
    LastBlocks(s.rows, VerdictsOf(s, REPO, number), verdict, head, round)
  }

  lemma TreeBlocker()
    ensures PartitionBlockers([BLOCKER]).tree == [BLOCKER]
  {
    assert PartitionBlockers([BLOCKER][1..]) == Partition([], []);
  }

  lemma RestIsQuiet(s: State, number: nat, head: string)
    requires AtRest(s)
    ensures Numbered(s.rows, VerdictsOf(s, REPO, number), REPO, number)
    ensures Quiescent(s.rows, REPO, number) && !FixedAt(s.rows, REPO, number, head)
  {
    hide GateReached, GateRunTo;
    GateReachedHolds(Gate(s, None), number);
  }

  lemma DecidesFix(rows: seq<Row>, verdicts: seq<nat>, url: PullUrl, head: string, verdict: nat, round: int)
    requires Numbered(rows, verdicts, REPO, url.number) && LastBlocks(rows, verdicts, verdict, head, round)
    requires Quiescent(rows, REPO, url.number) && !FixedAt(rows, REPO, url.number, head)
    ensures Decide(rows, REPO, url, head) == MintFix(SampleFix(url, head, round, verdict))
  {
    hide Decide;
    DecisionByVerdicts(rows, verdicts, REPO, url, head);
    BlockDecides(rows, url, head, verdict, round);
    TreeBlocker();
    assert rows[verdicts[round - 1]].review.value.round == round;
    BlockLeadsToFix(rows, url, head, verdict, [BLOCKER]);
  }

  lemma BlockDecides(rows: seq<Row>, url: PullUrl, head: string, verdict: nat, count: nat)
    requires verdict < |rows| && BlocksAt(rows[verdict], head)
    ensures DecideFrom(rows, REPO, url, head, Some(verdict), count) == AfterBlock(rows, REPO, url, head, verdict)
  {
  }

  lemma BlockLeadsToFix(rows: seq<Row>, url: PullUrl, head: string, verdict: nat, tree: seq<Blocker>)
    requires verdict < |rows| && rows[verdict].review.Some? && rows[verdict].review.value.round < MAX_REVIEW_ROUNDS
    requires PartitionBlockers(rows[verdict].review.value.blockers).tree == tree != []
    requires !FixedAt(rows, REPO, url.number, head)
    ensures AfterBlock(rows, REPO, url, head, verdict) ==
              MintFix(Review(url, head, rows[verdict].review.value.round, [], Some(verdict), None, tree))
  {
  }

  lemma DecidesReview(rows: seq<Row>, url: PullUrl, head: string)
    requires Numbered(rows, [], REPO, url.number) && Quiescent(rows, REPO, url.number)
    ensures Decide(rows, REPO, url, head) == MintReview(SampleReview(url, head, 1, []))
  {
    DecisionByVerdicts(rows, [], REPO, url, head);
  }

  lemma DecidesNextReview(rows: seq<Row>, verdicts: seq<nat>, url: PullUrl, head: string, verdict: nat,
    judged: string, round: int)
    requires Numbered(rows, verdicts, REPO, url.number) && LastBlocks(rows, verdicts, verdict, judged, round)
    requires Quiescent(rows, REPO, url.number) && head != judged
    ensures Decide(rows, REPO, url, head) == MintReview(SampleReview(url, head, round + 1, [BLOCKER]))
  {
    hide Decide;
    DecisionByVerdicts(rows, verdicts, REPO, url, head);
  }

  // ----- one fix for each spelling ------------------------------------------------------------------

  predicate FixesFor(row: Row, url: PullUrl, number: nat, verdict: nat, round: int) {
    && FixItem(row, REPO, number)
    && row.review.value.url == url
    && row.review.value.reviewItem == Some(verdict)
    && row.review.value.round == round
  }

  /** From row `from` on, one fix for each spelling, all of the same verdict. */
  predicate FixedUnderEach(rows: seq<Row>, urls: seq<PullUrl>, number: nat, verdict: nat, round: int, from: nat) {
    && from + |urls| <= |rows|
    && forall j :: 0 <= j < |urls| ==> FixesFor(rows[from + j], urls[j], number, verdict, round)
  }

  /** No reference names the head. */
  predicate Unnamed(rows: seq<Row>, head: string) {
    forall i :: 0 <= i < |rows| && rows[i].def.sourceRef.Some? && rows[i].def.sourceRef.value.BoundHead? ==>
      rows[i].def.sourceRef.value.head != head
  }

  predicate Unspelled(rows: seq<Row>, urls: seq<PullUrl>, head: string) {
    forall i, j :: 0 <= i < |rows| && 0 <= j < |urls| ==>
      rows[i].def.sourceRef != Some(BoundHead(REVIEW_FIX_KIND, urls[j], head))
  }

  /** What fixing under each spelling leaves as it was. */
  ghost predicate FixedOn(s: State, t: State, number: nat, later: string) {
    && AtRest(t) && s.rows <= t.rows
    && VerdictsOf(t, REPO, number) == VerdictsOf(s, REPO, number)
    && (Unnamed(s.rows, later) ==> Unnamed(t.rows, later))
    && |AllFixes(t.rows, REPO, number)| + |s.rows| == |AllFixes(s.rows, REPO, number)| + |t.rows|
  }

  /** One more row, a fix of the head. */
  ghost predicate OneFixMore(s: State, t: State, url: PullUrl, head: string, fix: Review) {
    && AtRest(t) && |t.rows| == |s.rows| + 1 && s.rows <= t.rows
    && VerdictsOf(t, REPO, url.number) == VerdictsOf(s, REPO, url.number)
    && FixItem(t.rows[|s.rows|], REPO, url.number) && t.rows[|s.rows|].review == Some(fix)
    && t.rows[|s.rows|].def.sourceRef == Some(BoundHead(REVIEW_FIX_KIND, url, head))
  }

  lemma FixUnder(s: State, url: PullUrl, head: string, verdict: nat, round: int) returns (t: State)
    requires AtRest(s) && StandsBlocked(s, url.number, verdict, head, round)
    requires !SourceRefExists(s, REPO, BoundHead(REVIEW_FIX_KIND, url, head))
    ensures OneFixMore(s, t, url, head, SampleFix(url, head, round, verdict))
  {
    hide GateReached;
    var fix := SampleFix(url, head, round, verdict);
    var plan := PlanFor(REPO, MintFix(fix), BRIEF, 0).value;
    RestIsQuiet(s, url.number, head);
    DecidesFix(s.rows, VerdictsOf(s, REPO, url.number), url, head, verdict, round);
    t := EndsBlocked(s, url, head, MintFix(fix), plan);
  }

  lemma OneFixCounts(s: State, t: State, url: PullUrl, head: string, fix: Review, later: string)
    requires OneFixMore(s, t, url, head, fix) && later != head
    ensures FixedOn(s, t, url.number, later)
  {
    hide GateReached;
    OneMoreFix(s.rows, t.rows, url.number);
    StaysUnnamed(s.rows, t.rows, later);
  }

  lemma OneMoreFix(rows: seq<Row>, more: seq<Row>, number: nat)
    requires rows <= more && |more| == |rows| + 1 && FixItem(more[|rows|], REPO, number)
    ensures |AllFixes(more, REPO, number)| == |AllFixes(rows, REPO, number)| + 1
  {
    assert AllFixes(more, REPO, number) == AllFixes(rows, REPO, number) + {|rows|};
  }

  lemma StaysUnnamed(rows: seq<Row>, more: seq<Row>, later: string)
    requires rows <= more && |more| == |rows| + 1
    requires more[|rows|].def.sourceRef.Some? && more[|rows|].def.sourceRef.value.BoundHead?
    requires more[|rows|].def.sourceRef.value.head != later
    ensures Unnamed(rows, later) ==> Unnamed(more, later)
  {
  }

  lemma StillBlocked(s: State, t: State, number: nat, later: string, verdict: nat, head: string, round: int)
    requires FixedOn(s, t, number, later) && StandsBlocked(s, number, verdict, head, round)
    ensures StandsBlocked(t, number, verdict, head, round)
  {
    hide GateReached;
  }

  lemma FixedOnTogether(s: State, t: State, u: State, number: nat, later: string)
    requires FixedOn(s, t, number, later) && FixedOn(t, u, number, later)
    ensures FixedOn(s, u, number, later)
  {
    hide GateReached;
  }

  predicate AreSpellings(urls: seq<PullUrl>, number: nat) {
    && (forall j :: 0 <= j < |urls| ==> urls[j].number == number)
    && (forall j, k :: 0 <= j < k < |urls| ==> urls[j] != urls[k])
  }

  /** The verdict stands, and none of the spellings was fixed for it yet. */
  ghost predicate ReadyToFix(s: State, urls: seq<PullUrl>, number: nat, head: string, verdict: nat, round: int) {
    && AtRest(s) && StandsBlocked(s, number, verdict, head, round)
    && AreSpellings(urls, number) && Unspelled(s.rows, urls, head)
  }

  /** What fixing under each of the spellings does. */
  ghost predicate FixedAll(s: State, t: State, urls: seq<PullUrl>, number: nat, verdict: nat, round: int,
    later: string) {
    && FixedOn(s, t, number, later)
    && |t.rows| == |s.rows| + |urls|
    && FixedUnderEach(t.rows, urls, number, verdict, round, |s.rows|)
  }

  lemma FixedAllTogether(s: State, t: State, u: State, urls: seq<PullUrl>, number: nat, verdict: nat, round: int,
    later: string)
    requires urls != [] && FixedAll(s, t, urls[..1], number, verdict, round, later)
    requires FixedAll(t, u, urls[1..], number, verdict, round, later)
    ensures FixedAll(s, u, urls, number, verdict, round, later)
  {
    hide GateReached, AtRest;
    FixedOnTogether(s, t, u, number, later);
    EachFixed(t.rows, u.rows, urls, number, verdict, round, |s.rows|);
  }

  lemma FixUnderFirst(s: State, urls: seq<PullUrl>, number: nat, head: string, verdict: nat, round: int,
    later: string) returns (t: State)
    requires ReadyToFix(s, urls, number, head, verdict, round) && urls != [] && later != head
    ensures FixedAll(s, t, urls[..1], number, verdict, round, later)
    ensures ReadyToFix(t, urls[1..], number, head, verdict, round)
  {
    hide GateReached, FixedOn;
    assert !SourceRefExists(s, REPO, BoundHead(REVIEW_FIX_KIND, urls[0], head));
    t := FixUnder(s, urls[0], head, verdict, round);
    OneFixCounts(s, t, urls[0], head, SampleFix(urls[0], head, round, verdict), later);
    StillBlocked(s, t, number, later, verdict, head, round);
    StillUnspelled(s.rows, t.rows, urls, head);
  }

  lemma {:induction false} FixUnderEach(s: State, urls: seq<PullUrl>, number: nat, head: string, verdict: nat,
    round: int, later: string) returns (t: State)
    requires ReadyToFix(s, urls, number, head, verdict, round) && later != head
    ensures FixedAll(s, t, urls, number, verdict, round, later)
    decreases |urls|
  {
    hide GateReached;
    if urls == [] {
      t := s;
    } else {
      var next := FixUnderFirst(s, urls, number, head, verdict, round, later);
      t := FixUnderEach(next, urls[1..], number, head, verdict, round, later);
      FixedAllTogether(s, next, t, urls, number, verdict, round, later);
    }
  }

  lemma StillUnspelled(rows: seq<Row>, more: seq<Row>, urls: seq<PullUrl>, head: string)
    requires urls != [] && (forall j, k :: 0 <= j < k < |urls| ==> urls[j] != urls[k]) && Unspelled(rows, urls, head)
    requires rows <= more && |more| == |rows| + 1
    requires more[|rows|].def.sourceRef == Some(BoundHead(REVIEW_FIX_KIND, urls[0], head))
    ensures Unspelled(more, urls[1..], head)
  {
    assert forall j :: 0 <= j < |urls[1..]| ==> urls[1..][j] == urls[j + 1];
  }

  lemma EachFixed(rows: seq<Row>, more: seq<Row>, urls: seq<PullUrl>, number: nat, verdict: nat, round: int, from: nat)
    requires urls != [] && rows <= more && FixedUnderEach(rows, urls[..1], number, verdict, round, from)
    requires FixedUnderEach(more, urls[1..], number, verdict, round, from + 1)
    ensures FixedUnderEach(more, urls, number, verdict, round, from)
  {
    forall j | 0 <= j < |urls|
      ensures FixesFor(more[from + j], urls[j], number, verdict, round)
    {
      if j == 0 {
        assert FixesFor(rows[from + 0], urls[..1][0], number, verdict, round);
      } else {
        assert FixesFor(more[from + 1 + (j - 1)], urls[1..][j - 1], number, verdict, round);
      }
    }
  }

  lemma FixedUnderStays(rows: seq<Row>, more: seq<Row>, urls: seq<PullUrl>, number: nat, verdict: nat, round: int,
    from: nat)
    requires rows <= more && FixedUnderEach(rows, urls, number, verdict, round, from)
    ensures FixedUnderEach(more, urls, number, verdict, round, from)
  {
    forall j | 0 <= j < |urls|
      ensures FixesFor(more[from + j], urls[j], number, verdict, round)
    {
      assert FixesFor(rows[from + j], urls[j], number, verdict, round);
    }
  }

  // ----- the whole run --------------------------------------------------------------------------------

  lemma EnabledAtRest() returns (s: State)
    ensures AtRest(s) && s.rows == [] && s.ledger == []
  {
    hide GateReached;
    GateStarts();
    s := EMPTY.(repos := map[REPO := true]);
    Transacted(EMPTY, OpEnable(REPO, true), s);
  }

  lemma KindsDiffer()
    ensures REVIEW_KIND != REVIEW_FIX_KIND
  {
    assert |REVIEW_KIND| != |REVIEW_FIX_KIND|;
  }

  /** A review named the head first: no fix of it is in the table yet. */
  lemma ReviewedOnly(rows: seq<Row>, more: seq<Row>, urls: seq<PullUrl>, head: string)
    requires Unnamed(rows, head) && rows <= more && |more| == |rows| + 1
    requires more[|rows|].def.sourceRef.Some? && more[|rows|].def.sourceRef.value.BoundHead?
    requires more[|rows|].def.sourceRef.value.prefix == REVIEW_KIND
    ensures Unspelled(more, urls, head)
  {
    KindsDiffer();
  }

  /** The item at the end of the table reviewed the head, whatever was named before, and blocks. */
  ghost predicate RoundBlocked(s: State, t: State, reviewed: PullUrl, head: string, round: int) {
    var number := reviewed.number;
    && AtRest(t) && |t.rows| == |s.rows| + 1 && s.rows <= t.rows
    && StandsBlocked(t, number, |s.rows|, head, round)
    && AllFixes(t.rows, REPO, number) == AllFixes(s.rows, REPO, number)
    && ReviewedAt(t.rows, |s.rows|, reviewed, head)
    && t.rows[|s.rows|].def.sourceRef == Some(BoundHead(REVIEW_KIND, reviewed, head))
  }

  lemma RoundEnds(s: State, t: State, reviewed: PullUrl, head: string, round: int, prior: seq<Blocker>, plan: Plan)
    requires plan.root.kind == REVIEW_KIND && plan.ref == BoundHead(REVIEW_KIND, reviewed, head)
    requires Ended(s, t, plan, Judged(SampleReview(reviewed, head, round, prior), BLOCKED))
    requires VerdictsOf(t, REPO, reviewed.number) == VerdictsOf(s, REPO, reviewed.number) + [|s.rows|]
    requires |VerdictsOf(s, REPO, reviewed.number)| == round - 1 && 1 <= round < MAX_REVIEW_ROUNDS
    ensures RoundBlocked(s, t, reviewed, head, round)
  {
    hide GateReached;
    KindsDiffer();
    RestIsQuiet(t, reviewed.number, head);
    assert Judges(t.rows[VerdictsOf(t, REPO, reviewed.number)[round - 1]], REPO, reviewed.number);
    assert s.rows <= t.rows;
    assert AllFixes(t.rows, REPO, reviewed.number) == AllFixes(s.rows, REPO, reviewed.number);
  }

  lemma FirstDecision(s: State, url: PullUrl, one: string)
    requires AtRest(s) && s.rows == [] && s.ledger == []
    ensures Decide(s.rows, REPO, url, one) == MintReview(SampleReview(url, one, 1, []))
    ensures VerdictsOf(s, REPO, url.number) == []
  {
    hide GateReached;
    RestIsQuiet(s, url.number, one);
    DecidesReview(s.rows, url, one);
  }

  lemma FirstRound(s: State, reviewed: PullUrl, one: string) returns (t: State)
    requires AtRest(s) && s.rows == [] && s.ledger == []
    ensures RoundBlocked(s, t, reviewed, one, 1)
  {
    hide AtRest, Decide, SamplePlan, RoundBlocked, Ended;
    var review := SampleReview(reviewed, one, 1, []);
    var plan := ReviewPlan(review);
    FirstDecision(s, reviewed, one);
    PlanIsFree(s, plan, one);
    t := ReviewBlocks(s, reviewed, one, review, plan);
    RoundEnds(s, t, reviewed, one, 1, [], plan);
  }

  lemma SecondRound(s: State, reviewed: PullUrl, one: string, two: string) returns (t: State)
    requires AtRest(s) && StandsBlocked(s, reviewed.number, 0, one, 1) && Unnamed(s.rows, two) && one != two
    ensures RoundBlocked(s, t, reviewed, two, 2)
  {
    hide AtRest, Decide, SamplePlan, RoundBlocked, Ended, Unnamed, Numbered, Quiescent;
    var review := SampleReview(reviewed, two, 2, [BLOCKER]);
    var plan := ReviewPlan(review);
    RestIsQuiet(s, reviewed.number, two);
    DecidesNextReview(s.rows, VerdictsOf(s, REPO, reviewed.number), reviewed, two, 0, one, 1);
    PlanIsFree(s, plan, two);
    t := ReviewBlocks(s, reviewed, two, review, plan);
    RoundEnds(s, t, reviewed, two, 2, [BLOCKER], plan);
  }

  /** A blocked round, and every spelling fixed for it. */
  lemma RoundFixed(s: State, t: State, reviewed: PullUrl, urls: seq<PullUrl>, head: string, round: int, later: string)
    returns (u: State)
    requires RoundBlocked(s, t, reviewed, head, round) && Unnamed(s.rows, head) && later != head
    requires AreSpellings(urls, reviewed.number)
    ensures FixedAll(t, u, urls, reviewed.number, |s.rows|, round, later)
    ensures StandsBlocked(u, reviewed.number, |s.rows|, head, round)
    ensures |AllFixes(u.rows, REPO, reviewed.number)| == |AllFixes(s.rows, REPO, reviewed.number)| + |urls|
  {
    hide GateReached;
    ReviewedOnly(s.rows, t.rows, urls, head);
    u := FixUnderEach(t, urls, reviewed.number, head, |s.rows|, round, later);
    StillBlocked(t, u, reviewed.number, later, |s.rows|, head, round);
  }

  /** The row reviewed the head under the URL, and blocked it. */
  predicate ReviewedAt(rows: seq<Row>, i: nat, reviewed: PullUrl, head: string) {
    && i < |rows| && Judges(rows[i], REPO, reviewed.number)
    && rows[i].review.value.url == reviewed && BlocksAt(rows[i], head)
  }

  /** Two rounds, each a review that blocks its head and one fix under each spelling. */
  ghost predicate FixedTwiceUnderEach(rows: seq<Row>, urls: seq<PullUrl>, reviewed: PullUrl, one: string, two: string,
    second: nat)
  {
    && ReviewedAt(rows, 0, reviewed, one) && FixedUnderEach(rows, urls, reviewed.number, 0, 1, 1)
    && ReviewedAt(rows, second, reviewed, two) && FixedUnderEach(rows, urls, reviewed.number, second, 2, second + 1)
    && |AllFixes(rows, REPO, reviewed.number)| == 2 * |urls|
  }

  /**
   * However many ways the URL of one pull request is spelled, whichever of
   * them its reviews bear, and whatever two heads its author pushes, some run
   * of the gate fixes it twice under each spelling, every fix of a round for
   * the same verdict: with two spellings, one verdict is fixed twice and the
   * pull request four times.
   */
  lemma EverySpellingIsFixedTwice(urls: seq<PullUrl>, reviewed: PullUrl, one: string, two: string)
    requires AreSpellings(urls, reviewed.number) && one != two
    ensures exists g, second: nat ::
              GateReached(g) && FixedTwiceUnderEach(g.queue.rows, urls, reviewed, one, two, second)
  {
    hide GateReached;
    var s0 := EnabledAtRest();
    var s1 := FirstRound(s0, reviewed, one);
    var s2 := RoundFixed(s0, s1, reviewed, urls, one, 1, two);
    assert Unnamed(s1.rows, two);
    var s3 := SecondRound(s2, reviewed, one, two);
    var s4 := RoundFixed(s2, s3, reviewed, urls, two, 2, one);
    FixedUnderStays(s2.rows, s4.rows, urls, reviewed.number, 0, 1, 1);
    assert AllFixes(s0.rows, REPO, reviewed.number) == {};
    assert ReviewedAt(s4.rows, 0, reviewed, one) && ReviewedAt(s4.rows, |s2.rows|, reviewed, two);
    assert GateReached(Gate(s4, None))
        && FixedTwiceUnderEach(Gate(s4, None).queue.rows, urls, reviewed, one, two, |s2.rows|);
  }
}
