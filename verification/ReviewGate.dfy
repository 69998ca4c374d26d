/**
 * The review gate: what a sweep decides about one draft pull request from the
 * review and fix items bound to it, and the sweep as a protocol beside
 * everything else that happens to the queue
 * (src/queue/pull-request-review.ts).
 */
module ReviewGate {
  import opened WorkTypes
  import opened QueueModel

  const MAX_REVIEW_ROUNDS := 3

  const DESCRIPTION_BLOCKER_PREFIX: string := "contract:pr-body:"

  // ----- the items of one pull request ---------------------------------------------

  /** A review or fix bound to pull request `number`, however its URL is spelled. */
  predicate GateItem(row: Row, repository: string, number: nat) {
    && row.repository == repository
    && (row.def.kind == REVIEW_KIND || row.def.kind == REVIEW_FIX_KIND)
    && row.review.Some?
    && row.review.value.url.number == number
  }

  predicate ReviewItem(row: Row, repository: string, number: nat) {
    GateItem(row, repository, number) && row.def.kind == REVIEW_KIND
  }

  predicate FixItem(row: Row, repository: string, number: nat) {
    GateItem(row, repository, number) && row.def.kind == REVIEW_FIX_KIND
  }

  predicate InFlight(row: Row) {
    row.Status() == Stands(Queued) || row.Status() == Stands(Claimed)
  }

  predicate Judges(row: Row, repository: string, number: nat) {
    ReviewItem(row, repository, number) && row.stored == Completed && row.review.value.decision.Some?
  }

  /** The completed reviews with a verdict among the first `n` rows, in row order. */
  function CompletedReviews(rows: seq<Row>, repository: string, number: nat, n: nat): (ids: seq<nat>)
    requires n <= |rows|
    ensures forall k :: 0 <= k < |ids| ==> ids[k] < n && Judges(rows[ids[k]], repository, number)
    ensures forall j, k :: 0 <= j < k < |ids| ==> ids[j] < ids[k]
    ensures forall i :: 0 <= i < n && Judges(rows[i], repository, number) ==> i in ids
  {
    if n == 0 then []
    else
      CompletedReviews(rows, repository, number, n - 1)
        + if Judges(rows[n - 1], repository, number) then [n - 1] else []
  }

  /** The last review once they are sorted by round, the later row on a tie. */
  function LatestOf(rows: seq<Row>, ids: seq<nat>): (latest: Option<nat>)
    requires forall k :: 0 <= k < |ids| ==> ids[k] < |rows| && rows[ids[k]].review.Some?
    ensures latest.Some? <==> ids != []
    ensures latest.Some? ==> latest.value in ids
    ensures latest.Some? ==> forall k :: 0 <= k < |ids| ==>
              rows[ids[k]].review.value.round <= rows[latest.value].review.value.round
  {
    if ids == [] then None
    else
      var before := LatestOf(rows, ids[..|ids| - 1]);
      var last := ids[|ids| - 1];
      if before.None? || rows[last].review.value.round >= rows[before.value].review.value.round then Some(last)
        else before
  }

  // ----- the sort by round ---------------------------------------------------------------

  function RoundAt(rows: seq<Row>, i: nat): int {
    if i < |rows| && rows[i].review.Some? then rows[i].review.value.round else 0
  }

  /** By round, and by row within a round: what a stable sort makes of ids in row order. */
  predicate Before(rows: seq<Row>, i: nat, j: nat) {
    RoundAt(rows, i) < RoundAt(rows, j) || (RoundAt(rows, i) == RoundAt(rows, j) && i < j)
  }

  predicate Sorted(rows: seq<Row>, ids: seq<nat>) {
    forall j, k :: 0 <= j < k < |ids| ==> Before(rows, ids[j], ids[k])
  }

  /** `id` put behind everything of its round or an earlier one. */
  function InsertByRound(rows: seq<Row>, ids: seq<nat>, id: nat): seq<nat> {
    if ids == [] || RoundAt(rows, ids[|ids| - 1]) <= RoundAt(rows, id) then ids + [id]
    else InsertByRound(rows, ids[..|ids| - 1], id) + [ids[|ids| - 1]]
  }

  function SortByRound(rows: seq<Row>, ids: seq<nat>): seq<nat> {
    if ids == [] then [] else InsertByRound(rows, SortByRound(rows, ids[..|ids| - 1]), ids[|ids| - 1])
  }

  lemma {:induction false} InsertKeepsAll(rows: seq<Row>, ids: seq<nat>, id: nat)
    ensures multiset(InsertByRound(rows, ids, id)) == multiset(ids) + multiset{id}
  {
    if ids != [] && RoundAt(rows, ids[|ids| - 1]) > RoundAt(rows, id) {
      InsertKeepsAll(rows, ids[..|ids| - 1], id);
      assert ids == ids[..|ids| - 1] + [ids[|ids| - 1]];
    }
  }

  lemma SortedOnto(rows: seq<Row>, front: seq<nat>, last: nat)
    requires Sorted(rows, front) && forall i :: i in front ==> Before(rows, i, last)
    ensures Sorted(rows, front + [last])
  {
  }

  lemma {:induction false} InsertKeepsSorted(rows: seq<Row>, ids: seq<nat>, id: nat)
    requires Sorted(rows, ids) && forall i :: i in ids ==> i < id
    ensures Sorted(rows, InsertByRound(rows, ids, id))
  {
    if ids != [] {
      var front, last := ids[..|ids| - 1], ids[|ids| - 1];
      if RoundAt(rows, last) <= RoundAt(rows, id) {
        SortedOnto(rows, ids, id);
      } else {
        assert forall i :: i in front ==> i in ids;
        InsertKeepsSorted(rows, front, id);
        InsertKeepsAll(rows, front, id);
        forall i | i in InsertByRound(rows, front, id)
          ensures Before(rows, i, last)
        {
          assert i in multiset(InsertByRound(rows, front, id));
        }
        SortedOnto(rows, InsertByRound(rows, front, id), last);
      }
    }
  }

  lemma SameMembers(a: seq<nat>, b: seq<nat>)
    requires multiset(a) == multiset(b)
    ensures forall i :: i in a <==> i in b
  {
    forall i
      ensures i in a <==> i in b
    {
      assert i in a <==> i in multiset(a);
    }
  }

  /** The sort permutes ids in row order into the order of their rounds, row order within a round. */
  lemma {:induction false} SortByRoundSorts(rows: seq<Row>, ids: seq<nat>)
    requires forall j, k :: 0 <= j < k < |ids| ==> ids[j] < ids[k]
    ensures Sorted(rows, SortByRound(rows, ids)) && multiset(SortByRound(rows, ids)) == multiset(ids)
  {
    if ids != [] {
      var front, last := ids[..|ids| - 1], ids[|ids| - 1];
      SortByRoundSorts(rows, front);
      SameMembers(SortByRound(rows, front), front);
      assert forall i :: i in front ==> i < last;
      InsertKeepsSorted(rows, SortByRound(rows, front), last);
      InsertKeepsAll(rows, SortByRound(rows, front), last);
      assert ids == front + [last];
    }
  }

  /** One pass that keeps the latest round, the later row on a tie, finds what the sort puts last. */
  lemma {:induction false} LatestIsLastSorted(rows: seq<Row>, ids: seq<nat>)
    requires forall j, k :: 0 <= j < k < |ids| ==> ids[j] < ids[k]
    requires forall k :: 0 <= k < |ids| ==> ids[k] < |rows| && rows[ids[k]].review.Some?
    ensures |SortByRound(rows, ids)| == |ids|
    ensures ids != [] ==> LatestOf(rows, ids) == Some(SortByRound(rows, ids)[|ids| - 1])
  {
    SortByRoundSorts(rows, ids);
    assert |multiset(SortByRound(rows, ids))| == |multiset(ids)|;
    if ids != [] { LatestIsLastSorted(rows, ids[..|ids| - 1]); }
  }

  // ----- a verdict's blockers ---------------------------------------------------------

  predicate DescriptionBlocker(b: Blocker) {
    |DESCRIPTION_BLOCKER_PREFIX| <= |b.fingerprint|
    && b.fingerprint[..|DESCRIPTION_BLOCKER_PREFIX|] == DESCRIPTION_BLOCKER_PREFIX
  }

  datatype Partition = Partition(description: seq<Blocker>, tree: seq<Blocker>)

  function PartitionBlockers(blockers: seq<Blocker>): Partition {
    if blockers == [] then Partition([], [])
    else
      var rest := PartitionBlockers(blockers[1..]);
      if DescriptionBlocker(blockers[0]) then rest.(description := [blockers[0]] + rest.description)
      else rest.(tree := [blockers[0]] + rest.tree)
  }

  /** Every blocker goes to exactly one side, and none is lost. */
  lemma {:induction false} PartitionLosesNothing(blockers: seq<Blocker>)
    ensures multiset(PartitionBlockers(blockers).description) + multiset(PartitionBlockers(blockers).tree) ==
      multiset(blockers)
  {
    if blockers != [] {
      PartitionLosesNothing(blockers[1..]);
      assert blockers == [blockers[0]] + blockers[1..];
    }
  }

  /** The sides are told apart by the prefix alone. */
  lemma {:induction false} PartitionByPrefix(blockers: seq<Blocker>, b: Blocker)
    ensures b in PartitionBlockers(blockers).description <==> b in blockers && DescriptionBlocker(b)
    ensures b in PartitionBlockers(blockers).tree <==> b in blockers && !DescriptionBlocker(b)
  {
    if blockers != [] {
      PartitionByPrefix(blockers[1..], b);
    }
  }

  /** Each side keeps its blockers in the verdict's order. */
  lemma {:induction false} PartitionKeepsOrder(front: seq<Blocker>, back: seq<Blocker>)
    ensures PartitionBlockers(front + back).description
         == PartitionBlockers(front).description + PartitionBlockers(back).description
    ensures PartitionBlockers(front + back).tree == PartitionBlockers(front).tree + PartitionBlockers(back).tree
  {
    if front == [] {
      assert front + back == back;
    } else {
      assert (front + back)[1..] == front[1..] + back;
      PartitionKeepsOrder(front[1..], back);
    }
  }

  /** A previous round already routed the blocker to a human. */
  predicate Routed(b: Blocker, prior: seq<Blocker>) {
    exists j :: 0 <= j < |prior| && prior[j].fingerprint == b.fingerprint
  }

  /** Nothing but description blockers, each already routed to a human by the previous round. */
  predicate OnlyOutstanding(verdict: Review) {
    var p, prior := PartitionBlockers(verdict.blockers), PartitionBlockers(verdict.priorBlockers).description;
    p.tree == [] && p.description != [] && forall k :: 0 <= k < |p.description| ==> Routed(p.description[k], prior)
  }

  /** A fix that addressed exactly this head has completed. */
  predicate FixedAt(rows: seq<Row>, repository: string, number: nat, head: string) {
    exists i :: 0 <= i < |rows| && FixItem(rows[i], repository, number) && rows[i].stored == Completed
      && rows[i].review.value.headSha == head
  }

  // ----- the decision for one head ------------------------------------------------------

  datatype HumanReason = CouldNotReview | FixWithoutNewHead | BlockedAtLastRound | BudgetExhausted

  datatype GateDecision =
    | AlreadyInFlight
    | TakePass(reviewItem: nat, round: int)
    | LeaveToHuman(why: HumanReason, round: int)
    | LeaveDescription(round: int)
    | MintFix(fix: Review)
    | MintReview(review: Review)

  /** What a block at exactly this head leads to. */
  function AfterBlock(rows: seq<Row>, repository: string, url: PullUrl, head: string, latest: nat): GateDecision
    requires latest < |rows| && rows[latest].review.Some?
  {
    var verdict := rows[latest].review.value;
    var tree := PartitionBlockers(verdict.blockers).tree;
    if OnlyOutstanding(verdict) then
      TakePass(latest, verdict.round)
    else if FixedAt(rows, repository, url.number, head) then
      LeaveToHuman(FixWithoutNewHead, verdict.round)
    else if verdict.round >= MAX_REVIEW_ROUNDS then
      LeaveToHuman(BlockedAtLastRound, verdict.round)
    else if tree == [] then
      LeaveDescription(verdict.round)
    else
      MintFix(Review(url, head, verdict.round, [], Some(latest), None, tree))
  }

  /** The decision when nothing is in flight, from the latest verdict and how many there are. */
  function DecideFrom(rows: seq<Row>, repository: string, url: PullUrl, head: string, latest: Option<nat>,
    count: nat): GateDecision
    requires latest.Some? ==> latest.value < |rows| && rows[latest.value].review.Some?
  {
    if latest.Some? && rows[latest.value].review.value.headSha == head then
      var verdict := rows[latest.value].review.value;
      if verdict.decision == Some(Pass) then TakePass(latest.value, verdict.round)
      else if verdict.decision == Some(UnableToReview) then LeaveToHuman(CouldNotReview, verdict.round)
      else AfterBlock(rows, repository, url, head, latest.value)
    else if count + 1 > MAX_REVIEW_ROUNDS then
      LeaveToHuman(BudgetExhausted, count + 1)
    else
      MintReview(Review(url, head, count + 1,
        if latest.Some? then rows[latest.value].review.value.blockers else [], None, None, []))
  }

  predicate SomethingInFlight(rows: seq<Row>, repository: string, number: nat) {
    exists i :: 0 <= i < |rows| && GateItem(rows[i], repository, number) && InFlight(rows[i])
  }

  /** The sweep's decision for an open draft whose head it has just read. */
  function Decide(rows: seq<Row>, repository: string, url: PullUrl, head: string): GateDecision {
    if SomethingInFlight(rows, repository, url.number) then
      AlreadyInFlight
    else
      var completed := CompletedReviews(rows, repository, url.number, |rows|);
      DecideFrom(rows, repository, url, head, LatestOf(rows, completed), |completed|)
  }

  /** The verdict blocks exactly this head. */
  predicate BlocksHead(verdict: Review, head: string) {
    verdict.headSha == head && verdict.decision != Some(Pass) && verdict.decision != Some(UnableToReview)
  }

  /** The latest verdict, if it blocks exactly this head and nothing is in flight. */
  function BlockingVerdict(rows: seq<Row>, repository: string, number: nat, head: string): (latest: Option<nat>)
    ensures latest.Some? ==> latest.value < |rows| && Judges(rows[latest.value], repository, number)
  {
    if SomethingInFlight(rows, repository, number) then None
    else
      var latest := LatestOf(rows, CompletedReviews(rows, repository, number, |rows|));
      if latest.Some? && BlocksHead(rows[latest.value].review.value, head) then latest else None
  }

  /** The reviews with a verdict, as the sweep sorts them. */
  function SortedVerdicts(rows: seq<Row>, repository: string, number: nat): (ids: seq<nat>)
    ensures forall k :: 0 <= k < |ids| ==> ids[k] < |rows| && Judges(rows[ids[k]], repository, number)
    ensures Sorted(rows, ids)
    ensures forall i :: 0 <= i < |rows| && Judges(rows[i], repository, number) ==> i in ids
  {
    var found := CompletedReviews(rows, repository, number, |rows|);
    SortByRoundSorts(rows, found);
    var ids := SortByRound(rows, found);
    SameMembers(ids, found);
    assert forall k :: 0 <= k < |ids| ==> ids[k] in found;
    ids
  }

  /** The decision reads the verdict the sort puts last, and how many there are. */
  lemma DecisionBySort(rows: seq<Row>, repository: string, url: PullUrl, head: string)
    requires !SomethingInFlight(rows, repository, url.number)
    ensures var ids := SortedVerdicts(rows, repository, url.number);
            Decide(rows, repository, url, head) ==
              DecideFrom(rows, repository, url, head, if ids == [] then None else Some(ids[|ids| - 1]), |ids|)
  {
    LatestIsLastSorted(rows, CompletedReviews(rows, repository, url.number, |rows|));
  }

  lemma OneOfThree(decision: Decision)
    ensures decision == Pass || decision == Decision.Block || decision == UnableToReview
  {
    match decision
    case Pass =>
    case Block =>
    case UnableToReview =>
  }

  /** The verdict passes the head, or blocks it only by what a previous round already routed to a human. */
  predicate PassesHead(verdict: Review, head: string) {
    && verdict.headSha == head
    && (verdict.decision == Some(Pass) || (verdict.decision == Some(Decision.Block) && OnlyOutstanding(verdict)))
  }

  /**
   * The pass consequence is taken exactly when nothing is in flight and the
   * verdict sorted last judged exactly the head just read, as a pass or as a
   * block made only of description blockers a previous round already routed;
   * however often rounds repeat after a requeue.
   */
  lemma PassTakenIff(rows: seq<Row>, repository: string, url: PullUrl, head: string)
    ensures var ids, decision := SortedVerdicts(rows, repository, url.number), Decide(rows, repository, url, head);
            && (decision.TakePass? <==>
                  && !SomethingInFlight(rows, repository, url.number)
                  && ids != [] && PassesHead(rows[ids[|ids| - 1]].review.value, head))
            && (decision.TakePass? ==>
                  decision == TakePass(ids[|ids| - 1], rows[ids[|ids| - 1]].review.value.round))
  {
    var ids := SortedVerdicts(rows, repository, url.number);
    if !SomethingInFlight(rows, repository, url.number) {
      DecisionBySort(rows, repository, url, head);
      if ids != [] {
        assert Judges(rows[ids[|ids| - 1]], repository, url.number);
        OneOfThree(rows[ids[|ids| - 1]].review.value.decision.value);
      }
    }
  }

  lemma FixOfBlock(rows: seq<Row>, repository: string, url: PullUrl, head: string, latest: nat)
    requires latest < |rows| && rows[latest].review.Some? && AfterBlock(rows, repository, url, head, latest).MintFix?
    ensures var fix, verdict := AfterBlock(rows, repository, url, head, latest).fix, rows[latest].review.value;
            && fix.reviewItem == Some(latest) && fix.round == verdict.round && fix.blockers != []
            && forall b :: b in fix.blockers <==> b in verdict.blockers && !DescriptionBlocker(b)
  {
    forall b
      ensures b in PartitionBlockers(rows[latest].review.value.blockers).tree <==>
                b in rows[latest].review.value.blockers && !DescriptionBlocker(b)
    {
      PartitionByPrefix(rows[latest].review.value.blockers, b);
    }
  }

  /**
   * A fix is minted only for a block at exactly the head just read, by the
   * verdict sorted last, and carries its tree blockers only.
   */
  lemma FixCarriesTreeBlockers(rows: seq<Row>, repository: string, url: PullUrl, head: string)
    requires Decide(rows, repository, url, head).MintFix?
    ensures var ids, fix := SortedVerdicts(rows, repository, url.number), Decide(rows, repository, url, head).fix;
            && ids != [] && fix.reviewItem == Some(ids[|ids| - 1])
            && var verdict := rows[ids[|ids| - 1]].review.value;
               && verdict.headSha == head && verdict.decision == Some(Decision.Block) && verdict.round == fix.round
               && fix.blockers != []
               && forall b :: b in fix.blockers <==> b in verdict.blockers && !DescriptionBlocker(b)
  {
    hide SortedVerdicts, SortByRound, Sorted, AfterBlock, SomethingInFlight;
    DecisionBySort(rows, repository, url, head);
    var ids := SortedVerdicts(rows, repository, url.number);
    var last := ids[|ids| - 1];
    assert Judges(rows[last], repository, url.number);
    OneOfThree(rows[last].review.value.decision.value);
    FixOfBlock(rows, repository, url, head, last);
  }

  // ----- what a decision writes --------------------------------------------------------------

  const REVIEW_ACTOR: Principal := Policy("review-gate")

  /** A root the sweep is about to enqueue. `brief` is the text of its instructions. */
  datatype Plan = Plan(repository: string, root: Root, ref: SourceRef, review: Review)

  function PlanFor(repository: string, decision: GateDecision, brief: Brief, priority: int): Option<Plan> {
    match decision
    case MintReview(review) =>
      Some(Plan(repository,
        Root(REVIEW_KIND, brief, [Read, RunTests], [], Some(NoArtifact), ReadOnly, Some(priority), REVIEW_ACTOR, None),
        BoundHead(REVIEW_KIND, review.url, review.headSha), review))
    case MintFix(review) =>
      Some(Plan(repository,
        Root(REVIEW_FIX_KIND, brief, [Read, Write, RunTests, OpenPr], [], Some(RequiredPullRequest),
          ExistingPullRequest, Some(priority), REVIEW_ACTOR, None),
        BoundHead(REVIEW_FIX_KIND, review.url, review.headSha), review))
    case _ => None
  }

  // ----- the protocol ------------------------------------------------------------------------

  /** The queue, and the root a sweep has decided to enqueue but not yet enqueued. */
  datatype Gate = Gate(queue: State, pending: Option<Plan>)

  /**
   * One move: any queue transaction; a sweep that reads a pull request at
   * whatever head its author has pushed by then and decides; the enqueue that
   * decision leads to, GitHub reads later; or the end of a sweep that stops
   * in between. There is one sweep at a time.
   */
  datatype GateStep =
    | Transact(op: Op)
    | Look(repository: string, url: PullUrl, head: string, brief: Brief, priority: int)
    | Mint
    | Abandon

  /**
   * The review budget's conditions: review records are enqueued by the sweep
   * only, no operator requeues or defers an item that carries one, and no
   * repository is renamed between a sweep's read and its enqueue.
   */
  predicate Permitted(g: Gate, op: Op) {
    && !op.OpReview?
    && (op.OpRename? ==> g.pending.None?)
    && (op.OpRequeue? && op.id < |g.queue.rows| ==> g.queue.rows[op.id].review.None?)
    && (op.OpDefer? && op.id < |g.queue.rows| ==> g.queue.rows[op.id].review.None?)
  }

  ghost predicate Moves(g: Gate, step: GateStep, h: Gate) {
    match step
    case Transact(op) => Permitted(g, op) && Step(g.queue, op, h.queue) && h.pending == g.pending
    case Look(repository, url, head, brief, priority) =>
      && g.pending.None? && h.queue == g.queue
      && h.pending == PlanFor(repository, Decide(g.queue.rows, repository, url, head), brief, priority)
    case Mint =>
      && g.pending.Some? && h.pending.None?
      && var p := g.pending.value; Step(g.queue, OpReview(p.repository, p.root, p.ref, p.review), h.queue)
    case Abandon => h == g.(pending := None)
  }

  ghost predicate MovesAt(trace: seq<Gate>, steps: seq<GateStep>, i: nat)
    requires i < |steps| && |trace| == |steps| + 1
  {
    Moves(trace[i], steps[i], trace[i + 1])
  }

  ghost predicate GateRun(trace: seq<Gate>, steps: seq<GateStep>) {
    && |trace| == |steps| + 1
    && trace[0] == Gate(EMPTY, None)
    && forall i: nat :: i < |steps| ==> MovesAt(trace, steps, i)
  }
}
