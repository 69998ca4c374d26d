/**
 * What each decision of the sweep means, told from the rows of the pull
 * request's items alone.
 */
module GateOutcomes {
  import opened WorkTypes
  import opened QueueModel
  import opened ReviewGate
  import opened RootCreation

  // ----- what the rows say ------------------------------------------------------------

  /** A review or fix of the pull request that waits for a worker or is being worked on. */
  predicate UnderWayRow(row: Row, repository: string, number: nat) {
    && row.repository == repository && row.def.kind in {REVIEW_KIND, REVIEW_FIX_KIND}
    && row.review.Some? && row.review.value.url.number == number
    && ((row.stored == Queued && row.admitted) || row.stored == Claimed)
  }

  ghost predicate UnderWay(rows: seq<Row>, repository: string, number: nat) {
    exists i :: 0 <= i < |rows| && UnderWayRow(rows[i], repository, number)
  }

  /** Row `i` is a completed review of the pull request, with its verdict. */
  predicate JudgedBy(rows: seq<Row>, repository: string, number: nat, i: nat) {
    && i < |rows|
    && rows[i].repository == repository && rows[i].def.kind == REVIEW_KIND && rows[i].stored == Completed
    && rows[i].review.Some? && rows[i].review.value.url.number == number && rows[i].review.value.decision.Some?
  }

  function JudgedBelow(rows: seq<Row>, repository: string, number: nat, n: nat): set<nat> {
    set i: nat | i < n && JudgedBy(rows, repository, number, i)
  }

  /** The rows that judged the pull request. */
  function Judgements(rows: seq<Row>, repository: string, number: nat): set<nat> {
    JudgedBelow(rows, repository, number, |rows|)
  }

  /** The verdict of the latest round, and of the later row where a round was judged twice. */
  ghost predicate LastVerdict(rows: seq<Row>, repository: string, number: nat, v: nat) {
    && JudgedBy(rows, repository, number, v)
    && forall i: nat :: JudgedBy(rows, repository, number, i) ==>
         || rows[i].review.value.round < rows[v].review.value.round
         || (rows[i].review.value.round == rows[v].review.value.round && i <= v)
  }

  /** The last verdict judged exactly this head, and judged it so. */
  ghost predicate LastJudged(rows: seq<Row>, repository: string, number: nat, head: string, v: nat,
    decision: Decision) {
    && LastVerdict(rows, repository, number, v)
    && rows[v].review.value.headSha == head && rows[v].review.value.decision == Some(decision)
  }

  /** Every blocker is on the description, and was among those the previous round left to a human. */
  predicate AlreadyRouted(verdict: Review) {
    && verdict.blockers != []
    && forall b :: b in verdict.blockers ==>
         DescriptionBlocker(b)
           && exists p :: p in verdict.priorBlockers && DescriptionBlocker(p) && p.fingerprint == b.fingerprint
  }

  /** A completed fix bound to this head. */
  predicate CompletedFixRow(row: Row, repository: string, number: nat, head: string) {
    && row.repository == repository && row.def.kind == REVIEW_FIX_KIND && row.stored == Completed
    && row.review.Some? && row.review.value.url.number == number && row.review.value.headSha == head
  }

  ghost predicate FixCompletedAt(rows: seq<Row>, repository: string, number: nat, head: string) {
    exists i :: 0 <= i < |rows| && CompletedFixRow(rows[i], repository, number, head)
  }

  /** A block of this head that something can still be done about. */
  ghost predicate BlockToFollow(rows: seq<Row>, repository: string, number: nat, head: string, v: nat) {
    && LastJudged(rows, repository, number, head, v, Decision.Block)
    && !AlreadyRouted(rows[v].review.value) && !FixCompletedAt(rows, repository, number, head)
  }

  predicate OnTree(verdict: Review) {
    exists b :: b in verdict.blockers && !DescriptionBlocker(b)
  }

  /** No round has judged this head last. */
  ghost predicate Unjudged(rows: seq<Row>, repository: string, number: nat, head: string) {
    forall v: nat :: LastVerdict(rows, repository, number, v) ==> rows[v].review.value.headSha != head
  }

  // ----- when each decision is the right one --------------------------------------------

  ghost predicate LeftToHuman(rows: seq<Row>, repository: string, number: nat, head: string, why: HumanReason,
    round: int)
  {
    match why
    case CouldNotReview =>
      exists v: nat ::
        LastJudged(rows, repository, number, head, v, UnableToReview) && rows[v].review.value.round == round
    case FixWithoutNewHead =>
      && FixCompletedAt(rows, repository, number, head)
      && exists v: nat :: LastJudged(rows, repository, number, head, v, Decision.Block)
           && !AlreadyRouted(rows[v].review.value) && rows[v].review.value.round == round
    case BlockedAtLastRound =>
      round >= 3
        && exists v: nat :: BlockToFollow(rows, repository, number, head, v) && rows[v].review.value.round == round
    case BudgetExhausted =>
      && Unjudged(rows, repository, number, head)
      && |Judgements(rows, repository, number)| >= 3 && round == |Judgements(rows, repository, number)| + 1
  }

  ghost predicate FixDue(rows: seq<Row>, repository: string, url: PullUrl, head: string, fix: Review) {
    exists v: nat :: BlockToFollow(rows, repository, url.number, head, v)
      && var verdict := rows[v].review.value;
         && verdict.round < 3 && OnTree(verdict)
         && fix == Review(url, head, verdict.round, [], Some(v), None, PartitionBlockers(verdict.blockers).tree)
  }

  ghost predicate ReviewDue(rows: seq<Row>, repository: string, url: PullUrl, head: string, review: Review) {
    && Unjudged(rows, repository, url.number, head)
    && |Judgements(rows, repository, url.number)| < 3
    && review == Review(url, head, |Judgements(rows, repository, url.number)| + 1, review.priorBlockers, None, None, [])
    && (Judgements(rows, repository, url.number) == {} ==> review.priorBlockers == [])
    && forall v: nat :: LastVerdict(rows, repository, url.number, v) ==>
         review.priorBlockers == rows[v].review.value.blockers
  }

  /** The decision is the one this head calls for. */
  ghost predicate Warranted(rows: seq<Row>, repository: string, url: PullUrl, head: string, decision: GateDecision) {
    if UnderWay(rows, repository, url.number) then decision == AlreadyInFlight
    else
      match decision
      case AlreadyInFlight => false
      case TakePass(item, round) =>
        && (|| LastJudged(rows, repository, url.number, head, item, Pass)
            || (LastJudged(rows, repository, url.number, head, item, Decision.Block)
                && AlreadyRouted(rows[item].review.value)))
        && rows[item].review.value.round == round
      case LeaveToHuman(why, round) => LeftToHuman(rows, repository, url.number, head, why, round)
      case LeaveDescription(round) =>
        round < 3
          && exists v: nat :: BlockToFollow(rows, repository, url.number, head, v)
               && !OnTree(rows[v].review.value) && rows[v].review.value.round == round
      case MintFix(fix) => FixDue(rows, repository, url, head, fix)
      case MintReview(review) => ReviewDue(rows, repository, url, head, review)
  }

  // ----- the sorted reviews say the same ------------------------------------------------

  lemma UnderWayMeans(rows: seq<Row>, repository: string, number: nat)
    ensures UnderWay(rows, repository, number) <==> SomethingInFlight(rows, repository, number)
  {
    if i :| 0 <= i < |rows| && UnderWayRow(rows[i], repository, number) {
      assert GateItem(rows[i], repository, number) && InFlight(rows[i]);
    }
    if i :| 0 <= i < |rows| && GateItem(rows[i], repository, number) && InFlight(rows[i]) {
      assert UnderWayRow(rows[i], repository, number);
    }
  }

  lemma FixCompletedMeans(rows: seq<Row>, repository: string, number: nat, head: string)
    ensures FixCompletedAt(rows, repository, number, head) <==> FixedAt(rows, repository, number, head)
  {
    if i :| 0 <= i < |rows| && CompletedFixRow(rows[i], repository, number, head) {
      assert FixItem(rows[i], repository, number);
    }
    if i :| 0 <= i < |rows| && FixItem(rows[i], repository, number) && rows[i].stored == Completed
            && rows[i].review.value.headSha == head {
      assert CompletedFixRow(rows[i], repository, number, head);
    }
  }

  lemma JudgesMeans(rows: seq<Row>, repository: string, number: nat, i: nat)
    requires i < |rows|
    ensures Judges(rows[i], repository, number) <==> JudgedBy(rows, repository, number, i)
  {
  }

  lemma {:induction false} CountedOnce(rows: seq<Row>, repository: string, number: nat, n: nat)
    requires n <= |rows|
    ensures |CompletedReviews(rows, repository, number, n)| == |JudgedBelow(rows, repository, number, n)|
  {
    hide JudgedBy, Judges, JudgedBelow;
    OneMoreJudged(rows, repository, number, n);
    if n > 0 {
      CountedOnce(rows, repository, number, n - 1);
      JudgesMeans(rows, repository, number, n - 1);
    }
  }

  lemma OneMoreJudged(rows: seq<Row>, repository: string, number: nat, n: nat)
    requires n <= |rows|
    ensures |JudgedBelow(rows, repository, number, n)| ==
            if n == 0 then 0
            else
              |JudgedBelow(rows, repository, number, n - 1)|
                + if JudgedBy(rows, repository, number, n - 1) then 1 else 0
  {
    hide JudgedBy;
    var whole := JudgedBelow(rows, repository, number, n);
    if n == 0 {
      assert whole == {};
    } else if JudgedBy(rows, repository, number, n - 1) {
      assert whole == JudgedBelow(rows, repository, number, n - 1) + {n - 1};
    } else {
      assert whole == JudgedBelow(rows, repository, number, n - 1);
    }
  }

  /** The review the sort puts last, if there is one. */
  function SortedLast(rows: seq<Row>, repository: string, number: nat): (last: Option<nat>)
    ensures last.Some? ==> last.value < |rows| && rows[last.value].review.Some?
  {
    var ids := SortedVerdicts(rows, repository, number);
    if ids == [] then None
    else
      assert Judges(rows[ids[|ids| - 1]], repository, number);
      Some(ids[|ids| - 1])
  }

  lemma JudgedInRange(rows: seq<Row>, repository: string, number: nat)
    ensures forall i: nat :: JudgedBy(rows, repository, number, i) ==> i < |rows|
  {
  }

  lemma SortedLastIsLast(rows: seq<Row>, repository: string, number: nat, v: nat)
    ensures LastVerdict(rows, repository, number, v) <==> SortedLast(rows, repository, number) == Some(v)
  {
    hide JudgedBy, Judges, SortedVerdicts;
    var ids := SortedVerdicts(rows, repository, number);
    forall i: nat | i < |rows|
      ensures i in ids <==> JudgedBy(rows, repository, number, i)
    {
      JudgesMeans(rows, repository, number, i);
    }
    JudgedInRange(rows, repository, number);
    LastOfSorted(rows, repository, number, ids, v);
  }

  lemma LastOfSorted(rows: seq<Row>, repository: string, number: nat, ids: seq<nat>, v: nat)
    requires Sorted(rows, ids)
    requires forall i: nat :: i in ids <==> JudgedBy(rows, repository, number, i)
    ensures LastVerdict(rows, repository, number, v) <==> ids != [] && v == ids[|ids| - 1]
  {
    forall i | i in ids && i != ids[|ids| - 1]
      ensures Before(rows, i, ids[|ids| - 1])
    {
      var k :| 0 <= k < |ids| && ids[k] == i;
    }
    if ids != [] { assert ids[|ids| - 1] in ids; }
  }

  lemma VerdictsCounted(rows: seq<Row>, repository: string, number: nat)
    ensures |SortedVerdicts(rows, repository, number)| == |Judgements(rows, repository, number)|
  {
    hide SortByRound, JudgedBy;
    LatestIsLastSorted(rows, CompletedReviews(rows, repository, number, |rows|));
    CountedOnce(rows, repository, number, |rows|);
  }

  lemma AlreadyRoutedMeans(verdict: Review)
    ensures AlreadyRouted(verdict) <==> OnlyOutstanding(verdict)
    ensures OnTree(verdict) <==> PartitionBlockers(verdict.blockers).tree != []
  {
    var p, prior := PartitionBlockers(verdict.blockers), PartitionBlockers(verdict.priorBlockers).description;
    forall b
      ensures b in p.description <==> b in verdict.blockers && DescriptionBlocker(b)
      ensures b in p.tree <==> b in verdict.blockers && !DescriptionBlocker(b)
      ensures b in prior <==> b in verdict.priorBlockers && DescriptionBlocker(b)
    {
      PartitionByPrefix(verdict.blockers, b);
      PartitionByPrefix(verdict.priorBlockers, b);
    }
    RoutedMeans(p.description, prior);
    if p.tree != [] { assert p.tree[0] in p.tree; }
    if p.description != [] { assert p.description[0] in p.description; }
    if verdict.blockers != [] { assert verdict.blockers[0] in verdict.blockers; }
  }

  lemma RoutedMeans(description: seq<Blocker>, prior: seq<Blocker>)
    ensures (forall k :: 0 <= k < |description| ==> Routed(description[k], prior)) <==>
            forall b :: b in description ==> exists p :: p in prior && p.fingerprint == b.fingerprint
  {
    if forall b :: b in description ==> exists p :: p in prior && p.fingerprint == b.fingerprint {
      forall k | 0 <= k < |description|
        ensures Routed(description[k], prior)
      {
        assert description[k] in description;
        var p :| p in prior && p.fingerprint == description[k].fingerprint;
        var j :| 0 <= j < |prior| && prior[j] == p;
      }
    }
    if forall k :: 0 <= k < |description| ==> Routed(description[k], prior) {
      forall b | b in description
        ensures exists p :: p in prior && p.fingerprint == b.fingerprint
      {
        var k :| 0 <= k < |description| && description[k] == b;
        var j :| 0 <= j < |prior| && prior[j].fingerprint == description[k].fingerprint;
        assert prior[j] in prior;
      }
    }
  }

  // ----- the decision is the warranted one ------------------------------------------------

  lemma DecidesFromLast(rows: seq<Row>, repository: string, url: PullUrl, head: string)
    requires !UnderWay(rows, repository, url.number)
    ensures Decide(rows, repository, url, head) ==
              DecideFrom(rows, repository, url, head, SortedLast(rows, repository, url.number),
                |Judgements(rows, repository, url.number)|)
  {
    hide SortedVerdicts, DecideFrom, Judgements;
    UnderWayMeans(rows, repository, url.number);
    DecisionBySort(rows, repository, url, head);
    VerdictsCounted(rows, repository, url.number);
  }

  lemma LatestIsSortedLast(rows: seq<Row>, repository: string, number: nat)
    ensures LatestOf(rows, CompletedReviews(rows, repository, number, |rows|)) == SortedLast(rows, repository, number)
  {
    LatestIsLastSorted(rows, CompletedReviews(rows, repository, number, |rows|));
  }

  /** With a last verdict, what is said of some last verdict is said of it. */
  lemma OnlyLast(rows: seq<Row>, repository: string, number: nat, v: nat)
    requires SortedLast(rows, repository, number) == Some(v)
    ensures JudgedBy(rows, repository, number, v)
    ensures forall u: nat :: LastVerdict(rows, repository, number, u) <==> u == v
    ensures v in Judgements(rows, repository, number)
  {
    hide SortedLast;
    forall u: nat
      ensures LastVerdict(rows, repository, number, u) <==> u == v
    {
      SortedLastIsLast(rows, repository, number, u);
    }
    assert LastVerdict(rows, repository, number, v);
  }

  lemma NoLast(rows: seq<Row>, repository: string, number: nat)
    requires SortedLast(rows, repository, number).None?
    ensures forall u: nat :: !LastVerdict(rows, repository, number, u)
    ensures Judgements(rows, repository, number) == {}
  {
    hide SortedVerdicts, JudgedBy;
    VerdictsCounted(rows, repository, number);
    forall u: nat
      ensures !LastVerdict(rows, repository, number, u)
    {
      SortedLastIsLast(rows, repository, number, u);
    }
  }

  lemma JudgedInOneOfThree(rows: seq<Row>, repository: string, number: nat, v: nat)
    requires JudgedBy(rows, repository, number, v)
    ensures v < |rows| && rows[v].review.Some?
    ensures rows[v].review.value.decision in {Some(Pass), Some(Decision.Block), Some(UnableToReview)}
  {
    OneOfThree(rows[v].review.value.decision.value);
  }

  /** A block of exactly this head. */
  lemma AfterBlockWarranted(rows: seq<Row>, repository: string, url: PullUrl, head: string, v: nat,
    decision: GateDecision)
    requires !UnderWay(rows, repository, url.number) && v < |rows| && rows[v].review.Some?
    requires LastJudged(rows, repository, url.number, head, v, Decision.Block)
    requires forall u: nat :: LastVerdict(rows, repository, url.number, u) <==> u == v
    ensures Warranted(rows, repository, url, head, decision) <==>
              decision == AfterBlock(rows, repository, url, head, v)
  {
    hide LastVerdict, UnderWay, FixCompletedAt, FixedAt, OnlyOutstanding, AlreadyRouted, OnTree, Judgements,
      PartitionBlockers;
    AlreadyRoutedMeans(rows[v].review.value);
    FixCompletedMeans(rows, repository, url.number, head);
    assert LastVerdict(rows, repository, url.number, v);
    assert forall u: nat :: BlockToFollow(rows, repository, url.number, head, u) ==> u == v;
    assert forall u: nat, d :: LastJudged(rows, repository, url.number, head, u, d) ==> u == v && d == Decision.Block;
  }

  /** A pass of exactly this head, or one nobody could review. */
  lemma JudgedWarranted(rows: seq<Row>, repository: string, url: PullUrl, head: string, v: nat, judged: Decision,
    decision: GateDecision)
    requires !UnderWay(rows, repository, url.number) && judged != Decision.Block
    requires LastJudged(rows, repository, url.number, head, v, judged)
    requires forall u: nat :: LastVerdict(rows, repository, url.number, u) <==> u == v
    ensures Warranted(rows, repository, url, head, decision) <==>
              decision == if judged == Pass then TakePass(v, rows[v].review.value.round)
                          else LeaveToHuman(CouldNotReview, rows[v].review.value.round)
  {
    hide LastVerdict, UnderWay, FixCompletedAt, AlreadyRouted, OnTree, Judgements, PartitionBlockers;
    OneOfThree(judged);
    assert LastVerdict(rows, repository, url.number, v);
    assert forall u: nat :: !LastJudged(rows, repository, url.number, head, u, Decision.Block);
    assert forall u: nat, d :: LastJudged(rows, repository, url.number, head, u, d) ==> u == v && d == judged;
  }

  /** A head the last verdict, if there is one, did not judge. */
  lemma UnjudgedWarranted(rows: seq<Row>, repository: string, url: PullUrl, head: string, last: Option<nat>,
    decision: GateDecision)
    requires !UnderWay(rows, repository, url.number) && Unjudged(rows, repository, url.number, head)
    requires forall u: nat :: LastVerdict(rows, repository, url.number, u) <==> last == Some(u)
    requires last.Some? ==> last.value < |rows| && rows[last.value].review.Some?
    requires last.None? <==> Judgements(rows, repository, url.number) == {}
    ensures var count := |Judgements(rows, repository, url.number)|;
            Warranted(rows, repository, url, head, decision) <==>
              decision ==
                if count >= 3 then LeaveToHuman(BudgetExhausted, count + 1)
                else MintReview(Review(url, head, count + 1,
                  if last.Some? then rows[last.value].review.value.blockers else [], None, None, []))
  {
    hide LastVerdict, UnderWay, FixCompletedAt, AlreadyRouted, OnTree, Judgements, PartitionBlockers;
    assert forall u: nat, d :: !LastJudged(rows, repository, url.number, head, u, d);
    assert last.Some? ==> LastVerdict(rows, repository, url.number, last.value);
  }

  /**
   * The sweep decides exactly what the rows warrant: it waits while a review
   * or fix is under way; it takes the pass of a head the last verdict passes,
   * or blocks only by what was already left to a human; it leaves to a human a
   * head nobody could review, a fix that completed without a new head, a block
   * of the last round, and a fourth round; it leaves a block of the
   * description alone to its report; it mints a fix of the tree blockers of
   * any other block; and it mints the next review, with the last verdict's
   * blockers, of a head not judged last.
   */
  lemma DecisionIffWarranted(rows: seq<Row>, repository: string, url: PullUrl, head: string, decision: GateDecision)
    ensures Decide(rows, repository, url, head) == decision <==> Warranted(rows, repository, url, head, decision)
  {
    hide SortedLast, AfterBlock, UnderWay, LastVerdict, Judgements, JudgedBy, CompletedReviews, LatestOf, LeftToHuman,
      FixDue, ReviewDue;
    UnderWayMeans(rows, repository, url.number);
    if !UnderWay(rows, repository, url.number) {
      DecidesFromLast(rows, repository, url, head);
      var last := SortedLast(rows, repository, url.number);
      match last {
        case None =>
          NoLast(rows, repository, url.number);
          UnjudgedWarranted(rows, repository, url, head, last, decision);
        case Some(v) =>
          OnlyLast(rows, repository, url.number, v);
          JudgedInOneOfThree(rows, repository, url.number, v);
          if rows[v].review.value.headSha != head {
            UnjudgedWarranted(rows, repository, url, head, last, decision);
          } else if rows[v].review.value.decision == Some(Decision.Block) {
            AfterBlockWarranted(rows, repository, url, head, v, decision);
          } else {
            JudgedWarranted(rows, repository, url, head, v, rows[v].review.value.decision.value, decision);
          }
      }
    }
  }

  // ----- what a decision leaves in the queue -------------------------------------------------

  /** The text of the root is stated, its priority is a number the store keeps, and its record is in order. */
  predicate PlanStated(brief: Brief, priority: int, review: Review) {
    && !Blank(brief.objective) && !Blank(brief.instructions) && brief.criteria != []
    && (forall i :: 0 <= i < |brief.criteria| ==> !Blank(brief.criteria[i]))
    && -0x1F_FFFF_FFFF_FFFF <= priority <= 0x1F_FFFF_FFFF_FFFF
    && review.round >= 1 && BlockersListed(review.priorBlockers) && BlockersListed(review.blockers)
  }

  /** The row is a review of the head that may read and run tests, of the origin's priority. */
  predicate ReviewRow(row: Row, repository: string, review: Review, priority: int) {
    && row.def.kind == "pr-review" && row.def.sourceRef == Some(BoundHead("pr-review", review.url, review.headSha))
    && row.def.allowed == [Read, RunTests] && row.def.required == NoArtifact && row.def.target == Some(ReadOnly)
    && GateRowOf(row, repository, review, priority)
  }

  /** The row is a fix of the head that owes its change to the pull request itself, of the origin's priority. */
  predicate FixRow(row: Row, repository: string, review: Review, priority: int) {
    && row.def.kind == "pr-review-fix"
    && row.def.sourceRef == Some(BoundHead("pr-review-fix", review.url, review.headSha))
    && row.def.allowed == [Read, Write, RunTests, OpenPr] && row.def.required == RequiredPullRequest
    && row.def.target == Some(ExistingPullRequest)
    && GateRowOf(row, repository, review, priority)
  }

  predicate GateRowOf(row: Row, repository: string, review: Review, priority: int) {
    && row.repository == repository && row.review == Some(review) && row.priority == priority
    && row.def.delegable == [] && row.def.parent.None? && row.def.createdBy == Policy("review-gate")
    && row.stored == Queued && row.admitted && row.predecessors.None?
  }

  /** A policy in force for the repository grants these actions. */
  predicate GateGranted(s: State, repository: string, actions: seq<Action>) {
    s.authorities.Some? ==>
      && repository in s.authorities.value
      && forall a :: a in actions ==> PolicyGrants(s.authorities.value[repository], a)
  }

  /** What the store asks of a planned root. */
  ghost predicate PlanFits(s: State, plan: Plan) {
    && GateShaped(plan.root, plan.review) && plan.root.predecessors.None?
    && Described(plan.root, true)
    && OptedIn(s, plan.repository)
  }

  lemma ReviewPlanFits(s: State, repository: string, review: Review, brief: Brief, priority: int)
    ensures var plan := PlanFor(repository, MintReview(review), brief, priority).value;
            && (PlanFits(s, plan) <==> PlanStated(brief, priority, review) && OptedIn(s, repository))
            && (Vouched(s, repository, plan.root, true) <==> GateGranted(s, repository, [Read, RunTests]))
  {
    hide Blank, BlockersListed, PolicyGrants;
    var kind, suffix := "pr-review", "-discovery";
    assert |kind| < |suffix|;
  }

  lemma FixPlanFits(s: State, repository: string, fix: Review, brief: Brief, priority: int)
    ensures var plan := PlanFor(repository, MintFix(fix), brief, priority).value;
            && (PlanFits(s, plan) <==>
                  PlanStated(brief, priority, fix) && fix.reviewItem.Some? && OptedIn(s, repository))
            && (Vouched(s, repository, plan.root, true) <==>
                  GateGranted(s, repository, [Read, Write, RunTests, OpenPr]))
  {
    hide Blank, BlockersListed, PolicyGrants;
    var kind, suffix := "pr-review-fix", "-discovery";
    assert kind[|kind| - 1] != suffix[|suffix| - 1];
    assert multiset([Read, Write, RunTests, OpenPr]) == multiset{Read, Write, RunTests, OpenPr};
  }

  lemma PlanTakenIff(s: State, plan: Plan)
    ensures var r := EnqueueReview(s, plan.repository, plan.root, plan.ref, plan.review);
            && (r.Accepted? <==>
                  && PlanFits(s, plan)
                  && (AlreadyThere(s, plan.repository, plan.ref) || Vouched(s, plan.repository, plan.root, true)))
            && (r.Accepted? ==>
                  if AlreadyThere(s, plan.repository, plan.ref) then r.value == s
                  else
                    RootCreated(s, plan.repository, plan.root, true, Some(plan.ref), None, Some(plan.review), r.value))
  {
    hide EnqueueReview, GateShaped, Described, OptedIn, Vouched, AlreadyThere, RootCreated;
    ReviewCreatesIff(s, plan.repository, plan.root, plan.ref, plan.review);
  }

  /**
   * The root of a decided review is taken exactly when it is stated, the
   * repository is opted in, and the head already has a review or the policy
   * grants reading and running tests; then a head without one gets it.
   */
  lemma DecidedReviewIsTakenIff(s: State, repository: string, review: Review, brief: Brief, priority: int)
    ensures var plan := PlanFor(repository, MintReview(review), brief, priority).value;
            var r := EnqueueReview(s, plan.repository, plan.root, plan.ref, plan.review);
            var known := AlreadyThere(s, repository, BoundHead("pr-review", review.url, review.headSha));
            && (r.Accepted? <==>
                  && PlanStated(brief, priority, review) && OptedIn(s, repository)
                  && (known || GateGranted(s, repository, [Read, RunTests])))
            && (r.Accepted? ==>
                  if known then r.value == s
                  else
                    && |r.value.rows| == |s.rows| + 1 && r.value.rows[..|s.rows|] == s.rows
                    && ReviewRow(r.value.rows[|s.rows|], repository, review, priority))
  {
    hide EnqueueReview, PlanFits, PlanStated, OptedIn, Vouched, AlreadyThere, GateGranted;
    var plan := PlanFor(repository, MintReview(review), brief, priority).value;
    ReviewPlanFits(s, repository, review, brief, priority);
    PlanTakenIff(s, plan);
  }

  /**
   * The root of a decided fix is taken exactly when it is stated and names its
   * review, the repository is opted in, and the head already has a fix under
   * this spelling or the policy grants a change; then a head without one gets it.
   */
  lemma DecidedFixIsTakenIff(s: State, repository: string, fix: Review, brief: Brief, priority: int)
    ensures var plan := PlanFor(repository, MintFix(fix), brief, priority).value;
            var r := EnqueueReview(s, plan.repository, plan.root, plan.ref, plan.review);
            var known := AlreadyThere(s, repository, BoundHead("pr-review-fix", fix.url, fix.headSha));
            && (r.Accepted? <==>
                  && PlanStated(brief, priority, fix) && fix.reviewItem.Some? && OptedIn(s, repository)
                  && (known || GateGranted(s, repository, [Read, Write, RunTests, OpenPr])))
            && (r.Accepted? ==>
                  if known then r.value == s
                  else
                    && |r.value.rows| == |s.rows| + 1 && r.value.rows[..|s.rows|] == s.rows
                    && FixRow(r.value.rows[|s.rows|], repository, fix, priority))
  {
    hide EnqueueReview, PlanFits, PlanStated, OptedIn, Vouched, AlreadyThere, GateGranted;
    var plan := PlanFor(repository, MintFix(fix), brief, priority).value;
    FixPlanFits(s, repository, fix, brief, priority);
    PlanTakenIff(s, plan);
  }
}
