/** One pull request's turn in the review sweep, against the store and GitHub in place. */
module ReviewSweep {
  import opened WorkTypes
  import opened QueueModel
  import opened ReviewGate
  import opened ReadyMarking
  import opened GateOutcomes
  import QueueInvariant
  import QueueStore

  // ----- the report ------------------------------------------------------------------

  datatype Enqueued = Enqueued(kind: string, url: PullUrl, head: string, round: int)

  /** A head the gate passed, and the review that judged it. */
  datatype PassedHead = PassedHead(url: PullUrl, head: string, reviewItem: nat)

  datatype HumanNote =
    | Undecided(why: HumanReason)
    | DescriptionBlocked(blockers: seq<Blocker>)
    | Guarded(cause: HumanCause)

  datatype Human = Human(url: PullUrl, head: string, round: int, note: HumanNote)

  datatype Unread = HeadUnread | Consequence(why: UnavailableCause)

  datatype SkipReason = NotOnGitHub | NotOpen | NotDraft | InFlightAlready | ItemExists

  datatype Report = Report(
    enqueued: seq<Enqueued>,
    markedReady: seq<PassedHead>,
    readyToMark: seq<PassedHead>,
    needsHuman: seq<Human>,
    skipped: seq<(PullUrl, SkipReason)>,
    unavailable: seq<(PullUrl, Unread)>)

  /** The completed item that reported the pull request. */
  datatype Origin = Origin(repository: string, priority: int, item: nat)

  /** The report with the one line an outcome adds. */
  function WithOutcome(r: Report, outcome: Outcome, url: PullUrl, head: string, round: int, reviewItem: nat): Report {
    match outcome
    case ReadyToMark => r.(readyToMark := r.readyToMark + [PassedHead(url, head, reviewItem)])
    case MarkedReady => r.(markedReady := r.markedReady + [PassedHead(url, head, reviewItem)])
    case ToHuman(cause, at) => r.(needsHuman := r.needsHuman + [Human(url, at, round, Guarded(cause))])
    case Unavailable(why) => r.(unavailable := r.unavailable + [(url, Consequence(why))])
  }

  function EnqueuedRoot(plan: Plan): Enqueued {
    Enqueued(plan.root.kind, plan.review.url, plan.review.headSha, plan.review.round)
  }

  /** A verdict's description blockers, with its round. */
  function DescriptionOf(verdict: Review): Option<(int, seq<Blocker>)> {
    var description := PartitionBlockers(verdict.blockers).description;
    if description == [] then None else Some((verdict.round, description))
  }

  /** Those of the block at this head, if that is what the pull request stands on. */
  function DescriptionFound(rows: seq<Row>, repository: string, number: nat, head: string)
    : Option<(int, seq<Blocker>)>
  {
    match BlockingVerdict(rows, repository, number, head)
    case None => None
    case Some(latest) => DescriptionOf(rows[latest].review.value)
  }

  /**
   * Description blockers are reported exactly when nothing is under way and
   * the last verdict blocks this head with some, and then all of its own are,
   * under its round; whatever else the block leads to.
   */
  lemma DescriptionReportedIff(rows: seq<Row>, repository: string, number: nat, head: string, round: int,
    blockers: seq<Blocker>)
    ensures DescriptionFound(rows, repository, number, head) == Some((round, blockers)) <==>
              && !UnderWay(rows, repository, number) && blockers != []
              && exists v: nat :: LastJudged(rows, repository, number, head, v, Decision.Block)
                   && rows[v].review.value.round == round
                   && blockers == PartitionBlockers(rows[v].review.value.blockers).description
  {
    hide SortedLast, UnderWay, LastVerdict, CompletedReviews, LatestOf, PartitionBlockers, JudgedBy;
    UnderWayMeans(rows, repository, number);
    if !UnderWay(rows, repository, number) {
      LatestIsSortedLast(rows, repository, number);
      match SortedLast(rows, repository, number) {
        case None => NoLast(rows, repository, number);
        case Some(v) =>
          OnlyLast(rows, repository, number, v);
          JudgedInOneOfThree(rows, repository, number, v);
      }
    }
  }

  /** The report with the description blockers a human has to adjudicate. */
  function WithDescription(r: Report, found: Option<(int, seq<Blocker>)>, url: PullUrl, head: string): Report {
    match found
    case None => r
    case Some(f) => r.(needsHuman := r.needsHuman + [Human(url, head, f.0, DescriptionBlocked(f.1))])
  }

  /** What one turn does to the queue and the report, given the head it read and, on a pass, the answers it got. */
  ghost predicate Acted(before: State, after: State, r: Report, next: Report, origin: Origin, url: PullUrl,
    head: string, brief: Brief, a: Answers, refused: Option<Refusal>)
  {
    var decision := Decide(before.rows, origin.repository, url, head);
    var said := WithDescription(r, DescriptionFound(before.rows, origin.repository, url.number, head), url, head);
    if decision.TakePass? then
      PassTaken(before, after, said, next, origin, url, head, decision.round, decision.reviewItem, a, refused)
    else
      Followed(before, after, said, next, origin, url, head, brief, decision, refused)
  }

  /** A decision other than a pass: reported, or its root enqueued. */
  ghost predicate Followed(before: State, after: State, r: Report, next: Report, origin: Origin, url: PullUrl,
    head: string, brief: Brief, decision: GateDecision, refused: Option<Refusal>)
    requires !decision.TakePass?
  {
    match decision
    case AlreadyInFlight =>
      Rested(before, after, refused) && next == r.(skipped := r.skipped + [(url, InFlightAlready)])
    case LeaveToHuman(why, round) =>
      && Rested(before, after, refused)
      && next == r.(needsHuman := r.needsHuman + [Human(url, head, round, Undecided(why))])
    case LeaveDescription(_) => Rested(before, after, refused) && next == r
    case MintFix(_) =>
      Minted(before, after, r, next, PlanFor(origin.repository, decision, brief, origin.priority).value, refused)
    case MintReview(_) =>
      Minted(before, after, r, next, PlanFor(origin.repository, decision, brief, origin.priority).value, refused)
  }

  predicate Rested(before: State, after: State, refused: Option<Refusal>) {
    after == before && refused.None?
  }

  /** The root was enqueued and reported, skipped because its reference is taken, or refused. */
  ghost predicate Minted(before: State, after: State, r: Report, next: Report, plan: Plan, refused: Option<Refusal>) {
    && QueueStore.Answered(before, EnqueueReview(before, plan.repository, plan.root, plan.ref, plan.review), after,
       refused)
    && next == if refused.Some? then r
               else if |after.rows| == |before.rows| then r.(skipped := r.skipped + [(plan.review.url, ItemExists)])
               else r.(enqueued := r.enqueued + [EnqueuedRoot(plan)])
  }

  /** A pass taken as its answers say; a mark the store will not record is not reported. */
  ghost predicate PassTaken(before: State, after: State, r: Report, next: Report, origin: Origin, url: PullUrl,
    head: string, round: int, reviewItem: nat, a: Answers, refused: Option<Refusal>)
  {
    var outcome := OutcomeOf(a, head);
    && (if outcome.MarkedReady? then
          QueueStore.Answered(before, RecordReady(before, origin.item, url, REVIEW_ACTOR, head, reviewItem), after,
            refused)
        else
          Rested(before, after, refused))
    && next == if refused.Some? then r else WithOutcome(r, outcome, url, head, round, reviewItem)
  }

  /** What a turn that reads no open draft reports, and where it otherwise acts on the head it read. */
  ghost predicate Turned(before: State, after: State, r: Report, next: Report, origin: Origin, url: PullUrl,
    check: HeadCheck, brief: Brief, a: Answers, refused: Option<Refusal>)
  {
    match check
    case CannotRead => Rested(before, after, refused) && next == r.(unavailable := r.unavailable + [(url, HeadUnread)])
    case Rejected => Rested(before, after, refused) && next == r.(skipped := r.skipped + [(url, NotOnGitHub)])
    case HeadIs(state, head, draft) =>
      if state != OpenPull then
        Rested(before, after, refused) && next == r.(skipped := r.skipped + [(url, NotOpen)])
      else if !draft then
        Rested(before, after, refused) && next == r.(skipped := r.skipped + [(url, NotDraft)])
      else
        Acted(before, after, r, next, origin, url, head, brief, a, refused)
  }

  /** The read found an open draft. */
  predicate FoundDraft(check: HeadCheck) {
    check.HeadIs? && check.state == OpenPull && check.draft
  }

  predicate TakesPass(before: State, origin: Origin, url: PullUrl, head: string) {
    Decide(before.rows, origin.repository, url, head).TakePass?
  }

  /** What the sweep knew before it called, as it was given. */
  predicate Asked(a: Answers, boundaries: BoundaryCheck, writes: bool, hasNode: bool) {
    a.boundaries == boundaries && a.writes == writes && a.hasNode == hasNode
  }

  /** Exactly the calls of one turn: the first read, and on a pass that is taken those of its consequence. */
  function TurnCalls(before: State, origin: Origin, url: PullUrl, check: HeadCheck, atRead: World, a: Answers,
    w: Instants): seq<Call>
  {
    [HeadRead(atRead, check)]
      + if FoundDraft(check) && TakesPass(before, origin, url, check.head) then CallsOf(a, check.head, w) else []
  }

  /** The head was found open and draft, and the verdict sorted last passes exactly it. */
  ghost predicate Passed(before: State, origin: Origin, url: PullUrl, check: HeadCheck, reviewItem: nat) {
    && FoundDraft(check)
    && !SomethingInFlight(before.rows, origin.repository, url.number)
    && var ids := SortedVerdicts(before.rows, origin.repository, url.number);
       && ids != [] && ids[|ids| - 1] == reviewItem
       && PassesHead(before.rows[reviewItem].review.value, check.head)
  }

  lemma PassedItem(before: State, origin: Origin, url: PullUrl, check: HeadCheck)
    requires FoundDraft(check) && TakesPass(before, origin, url, check.head)
    ensures Passed(before, origin, url, check, Decide(before.rows, origin.repository, url, check.head).reviewItem)
  {
    PassTakenIff(before.rows, origin.repository, url, check.head);
  }

  /** Only a pass that was taken and held lengthens the list of marked heads, by that one head. */
  lemma MarkedOnlyPassed(before: State, after: State, r: Report, next: Report, origin: Origin, url: PullUrl,
    head: string, brief: Brief, a: Answers, refused: Option<Refusal>)
    requires Acted(before, after, r, next, origin, url, head, brief, a, refused) && next.markedReady != r.markedReady
    ensures Decide(before.rows, origin.repository, url, head).TakePass? && OutcomeOf(a, head).MarkedReady?
      && refused.None?
    ensures next.markedReady ==
              r.markedReady + [PassedHead(url, head, Decide(before.rows, origin.repository, url, head).reviewItem)]
  {
    hide EnqueueReview, RecordReady, DescriptionFound, PlanFor, Decide;
  }

  /** A re-read that told the truth and let the mark stand found no open pull request elsewhere. */
  lemma MarkHeld(a: Answers, judged: string, atReread: World)
    requires OutcomeOf(a, judged).MarkedReady? && Truthful(a.after, atReread)
    ensures !atReread.OpenBeyond(judged)
  {
    match a.after
    case HeadIs(state, head, draft) =>
    case CannotRead =>
    case Rejected =>
  }

  // ----- reading the items of a pull request --------------------------------------------

  /** Splits a verdict's blockers into those on the description and those on the tree. */
  method Split(blockers: seq<Blocker>) returns (description: seq<Blocker>, tree: seq<Blocker>)
    ensures Partition(description, tree) == PartitionBlockers(blockers)
  {
    description, tree := [], [];
    for i := 0 to |blockers|
      invariant var rest := PartitionBlockers(blockers[i..]);
                PartitionBlockers(blockers) == Partition(description + rest.description, tree + rest.tree)
    {
      assert blockers[i..][0] == blockers[i] && blockers[i..][1..] == blockers[i + 1..];
      if DescriptionBlocker(blockers[i]) {
        description := description + [blockers[i]];
      } else {
        tree := tree + [blockers[i]];
      }
    }
  }

  method FindInFlight(rows: seq<Row>, repository: string, number: nat) returns (found: bool)
    ensures found <==> SomethingInFlight(rows, repository, number)
  {
    found := false;
    for i := 0 to |rows|
      invariant found <==> exists k :: 0 <= k < i && GateItem(rows[k], repository, number) && InFlight(rows[k])
    {
      found := found || (GateItem(rows[i], repository, number) && InFlight(rows[i]));
    }
  }

  method FindFixAt(rows: seq<Row>, repository: string, number: nat, head: string) returns (found: bool)
    ensures found <==> FixedAt(rows, repository, number, head)
  {
    found := false;
    for i := 0 to |rows|
      invariant found <==> exists k :: 0 <= k < i && FixItem(rows[k], repository, number) && rows[k].stored == Completed
                                       && rows[k].review.value.headSha == head
    {
      found := found || (FixItem(rows[i], repository, number) && rows[i].stored == Completed
        && rows[i].review.value.headSha == head);
    }
  }

  /** Looking at one more completed review: the later of a tie wins. */
  lemma LatestOfNext(rows: seq<Row>, ids: seq<nat>, i: nat)
    requires forall k :: 0 <= k < |ids| ==> ids[k] < |rows| && rows[ids[k]].review.Some?
    requires i < |rows| && rows[i].review.Some?
    ensures var latest := LatestOf(rows, ids);
            LatestOf(rows, ids + [i]) ==
              if latest.None? || rows[i].review.value.round >= rows[latest.value].review.value.round then Some(i)
                else latest
  {
    assert (ids + [i])[..|ids|] == ids;
  }

  /** How many verdicts there are, and the one of the latest round. */
  method CountVerdicts(rows: seq<Row>, repository: string, number: nat) returns (count: nat, latest: Option<nat>)
    ensures var completed := CompletedReviews(rows, repository, number, |rows|);
            count == |completed| && latest == LatestOf(rows, completed)
  {
    var completed := [];
    for i := 0 to |rows|
      invariant completed == CompletedReviews(rows, repository, number, i)
    {
      if Judges(rows[i], repository, number) { completed := completed + [i]; }
    }
    count := |completed|;
    latest := SelectLatest(rows, completed);
  }

  method SelectLatest(rows: seq<Row>, ids: seq<nat>) returns (latest: Option<nat>)
    requires forall k :: 0 <= k < |ids| ==> ids[k] < |rows| && rows[ids[k]].review.Some?
    ensures latest == LatestOf(rows, ids)
  {
    hide LatestOf;
    latest := None;
    for k := 0 to |ids|
      invariant latest == LatestOf(rows, ids[..k])
    {
      LatestOfNext(rows, ids[..k], ids[k]);
      assert ids[..k + 1] == ids[..k] + [ids[k]];
      if latest.None? || rows[ids[k]].review.value.round >= rows[latest.value].review.value.round {
        latest := Some(ids[k]);
      }
    }
    assert ids[..|ids|] == ids;
  }

  /** Every blocker's fingerprint is among those a previous round already routed. */
  method AllRouted(description: seq<Blocker>, prior: seq<Blocker>) returns (all: bool)
    ensures all <==> forall k :: 0 <= k < |description| ==> Routed(description[k], prior)
  {
    all := true;
    for k := 0 to |description|
      invariant all <==> forall m :: 0 <= m < k ==> Routed(description[m], prior)
    {
      all := all && Routed(description[k], prior);
    }
  }

  /** What a block at this head leads to. */
  method DecideBlock(rows: seq<Row>, repository: string, url: PullUrl, head: string, latest: nat)
    returns (decision: GateDecision, description: seq<Blocker>)
    requires latest < |rows| && rows[latest].review.Some?
    ensures decision == AfterBlock(rows, repository, url, head, latest)
    ensures description == PartitionBlockers(rows[latest].review.value.blockers).description
  {
    var verdict := rows[latest].review.value;
    var tree;
    description, tree := Split(verdict.blockers);
    var prior, priorTree := Split(verdict.priorBlockers);
    var outstanding := AllRouted(description, prior);
    var fixed := FindFixAt(rows, repository, url.number, head);
    decision :=
      if tree == [] && description != [] && outstanding then TakePass(latest, verdict.round)
      else if fixed then LeaveToHuman(FixWithoutNewHead, verdict.round)
      else if verdict.round >= MAX_REVIEW_ROUNDS then LeaveToHuman(BlockedAtLastRound, verdict.round)
      else if tree == [] then LeaveDescription(verdict.round)
      else MintFix(Review(url, head, verdict.round, [], Some(latest), None, tree));
  }

  /** The decision for one head, and the description blockers of a block there. */
  method DecideHead(rows: seq<Row>, repository: string, url: PullUrl, head: string)
    returns (decision: GateDecision, found: Option<(int, seq<Blocker>)>)
    ensures Warranted(rows, repository, url, head, decision) && decision == Decide(rows, repository, url, head)
    ensures found == DescriptionFound(rows, repository, url.number, head)
  {
    hide Warranted, Decide, DescriptionFound;
    decision, found := DecideByItems(rows, repository, url, head);
    DecisionIffWarranted(rows, repository, url, head, decision);
  }

  method DecideByItems(rows: seq<Row>, repository: string, url: PullUrl, head: string)
    returns (decision: GateDecision, found: Option<(int, seq<Blocker>)>)
    ensures decision == Decide(rows, repository, url, head)
    ensures found == DescriptionFound(rows, repository, url.number, head)
  {
    var inFlight := FindInFlight(rows, repository, url.number);
    if inFlight { return AlreadyInFlight, None; }
    var count, latest := CountVerdicts(rows, repository, url.number);
    decision, found := DecideQuiet(rows, repository, url, head, latest, count);
  }

  method DecideQuiet(rows: seq<Row>, repository: string, url: PullUrl, head: string, latest: Option<nat>, count: nat)
    returns (decision: GateDecision, found: Option<(int, seq<Blocker>)>)
    requires latest.Some? ==> latest.value < |rows| && rows[latest.value].review.Some?
    ensures decision == DecideFrom(rows, repository, url, head, latest, count)
    ensures found ==
            if latest.Some? && BlocksHead(rows[latest.value].review.value, head) then
              DescriptionOf(rows[latest.value].review.value)
            else None
  {
    found := None;
    if latest.Some? && rows[latest.value].review.value.headSha == head {
      var verdict := rows[latest.value].review.value;
      if verdict.decision == Some(Pass) { return TakePass(latest.value, verdict.round), None; }
      if verdict.decision == Some(UnableToReview) { return LeaveToHuman(CouldNotReview, verdict.round), None; }
      var description;
      decision, description := DecideBlock(rows, repository, url, head, latest.value);
      if description != [] { found := Some((verdict.round, description)); }
      return;
    }
    var round := count + 1;
    if round > MAX_REVIEW_ROUNDS { return LeaveToHuman(BudgetExhausted, round), None; }
    var carried := if latest.Some? then rows[latest.value].review.value.blockers else [];
    decision := MintReview(Review(url, head, round, carried, None, None, []));
  }

  // ----- completing a review or a fix ------------------------------------------------------

  /** What a completion of gate work must bring, given what GitHub says of the head; other work brings no verdict. */
  predicate MayComplete(row: Row, artifacts: seq<Artifact>, verdict: Option<Verdict>, check: HeadCheck) {
    if row.def.kind == REVIEW_KIND then
      && AsksForHead(row, verdict)
      && check.HeadIs? && (check.state == OpenPull ==> check.head == row.review.value.headSha)
    else
      && verdict.None?
      && (row.def.kind == REVIEW_FIX_KIND ==> row.review.Some? && ReportsPull(artifacts, row.review.value.url))
  }

  /** The completion is a review's, with a record and a consistent verdict: only then GitHub is asked. */
  predicate AsksForHead(row: Row, verdict: Option<Verdict>) {
    && row.def.kind == REVIEW_KIND && row.review.Some? && verdict.Some?
    && (verdict.value.decision == Decision.Block ==> verdict.value.blockers != [])
    && (verdict.value.decision == Pass ==> verdict.value.blockers == [])
  }

  predicate ReportsPull(artifacts: seq<Artifact>, url: PullUrl) {
    exists i :: 0 <= i < |artifacts| && artifacts[i].kind == PullRequest && Lower(artifacts[i].url) == Lower(url.text)
  }

  /**
   * The check before a completion reaches the queue. A verdict that passes it
   * judged the head an open pull request has at that instant; only a review
   * reads GitHub.
   */
  method AssertReviewCompletion(row: Row, artifacts: seq<Artifact>, verdict: Option<Verdict>, pull: GitHubPull)
    returns (refused: Option<Refusal>, ghost check: HeadCheck)
    modifies pull
    ensures refused.None? <==> MayComplete(row, artifacts, verdict, check)
    ensures pull.calls == old(pull.calls) + if AsksForHead(row, verdict) then [HeadRead(pull.world, check)] else []
    ensures AsksForHead(row, verdict) ==> Truthful(check, pull.world)
    ensures row.def.kind == REVIEW_KIND && refused.None? ==>
              pull.world.present && (pull.world.state == OpenPull ==> pull.world.head == row.review.value.headSha)
    ensures row.def.kind != REVIEW_KIND ==> pull.world == old(pull.world)
  {
    check := CannotRead;
    if row.def.kind == REVIEW_FIX_KIND {
      if row.review.None? { return Some(ReviewMissing), check; }
      var reported := ReportsPull(artifacts, row.review.value.url);
      if !reported { return Some(RequiredArtifactMissing), check; }
      return if verdict.Some? then Some(ReviewUnexpected) else None, check;
    }
    if row.def.kind != REVIEW_KIND {
      return if verdict.Some? then Some(ReviewUnexpected) else None, check;
    }
    if row.review.None? || verdict.None? { return Some(ReviewMissing), check; }
    if verdict.value.decision == Decision.Block && verdict.value.blockers == [] { return Some(ReviewInvalid), check; }
    if verdict.value.decision == Pass && verdict.value.blockers != [] { return Some(ReviewInvalid), check; }
    var answer := pull.ReadHead();
    check := answer;
    if !answer.HeadIs? { return Some(ReviewInvalid), check; }
    if answer.state == OpenPull && answer.head != row.review.value.headSha { return Some(Stale), check; }
    refused := None;
  }

  // ----- one turn --------------------------------------------------------------------------

  class Sweep {
    var enqueued: seq<Enqueued>
    var markedReady: seq<PassedHead>
    var readyToMark: seq<PassedHead>
    var needsHuman: seq<Human>
    var skipped: seq<(PullUrl, SkipReason)>
    var unavailable: seq<(PullUrl, Unread)>

    ghost function Lines(): Report
      reads this
    {
      Report.Report(enqueued, markedReady, readyToMark, needsHuman, skipped, unavailable)
    }

    constructor ()
      ensures Lines() == Report.Report([], [], [], [], [], [])
    {
      enqueued, markedReady, readyToMark, needsHuman, skipped, unavailable := [], [], [], [], [], [];
    }

    /**
     * Acts on a passed head: marks it ready, re-reads, and converts back if it
     * moved. A head that was open elsewhere by the re-read, and is ready after
     * the last call, is reported unavailable.
     */
    method ApplyPassConsequence(store: QueueStore.QueueStore, pull: GitHubPull, origin: Origin, url: PullUrl,
      head: string, round: int, reviewItem: nat, boundaries: BoundaryCheck, writes: bool, hasNode: bool)
      returns (refused: Option<Refusal>, ghost a: Answers, ghost w: Instants)
      requires store.Valid()
      modifies this, store, pull
      ensures store.Valid()
      ensures Asked(a, boundaries, writes, hasNode)
      ensures PassTaken(old(store.Current()), store.Current(), old(Lines()), Lines(), origin, url, head, round,
        reviewItem, a, refused)
      ensures pull.calls == old(pull.calls) + CallsOf(a, head, w) && Honest(a, head, w)
      ensures Marks(a) ==> pull.world == AfterCalls(a, head, w)
      ensures Reread(a) && w.atReread.OpenBeyond(head) && pull.world.OpenAndReady() ==>
                unavailable == old(unavailable) + [(url, Consequence(LeftReady))]
      ensures OutcomeOf(a, head).MarkedReady? ==> !w.atReread.OpenBeyond(head)
    {
      hide RecordReady, QueueInvariant.Reached;
      a := Answers(boundaries, writes, hasNode, false, CannotRead, false);
      w := Instants(pull.world, pull.world, pull.world);
      refused := None;
      if boundaries == FilesUnreadable {
        unavailable := unavailable + [(url, Consequence(BoundariesUnchecked))];
        return;
      }
      if boundaries == Touched {
        needsHuman := needsHuman + [Human(url, head, round, Guarded(TouchesBoundary))];
        return;
      }
      if !writes {
        readyToMark := readyToMark + [PassedHead(url, head, reviewItem)];
        return;
      }
      if !hasNode {
        unavailable := unavailable + [(url, Consequence(NoNode))];
        return;
      }
      var marked := pull.MarkReady();
      w := w.(atMark := pull.world);
      if !marked {
        unavailable := unavailable + [(url, Consequence(MarkFailed))];
        return;
      }
      var after := pull.ReadHead();
      a := a.(marked := true, after := after);
      w := w.(atReread := pull.world);
      if after.CannotRead? || Moved(after, head) {
        var reverted := pull.ConvertToDraft();
        a := a.(reverted := reverted);
        w := w.(atRevert := pull.world);
        if reverted {
          needsHuman := needsHuman
            + [Human(url, if Moved(after, head) then after.head else head, round, Guarded(ConvertedBack))];
        } else {
          unavailable := unavailable + [(url, Consequence(LeftReady))];
        }
        return;
      }
      refused := store.RecordPullRequestReady(origin.item, url, REVIEW_ACTOR, head, reviewItem);
      if refused.None? {
        markedReady := markedReady + [PassedHead(url, head, reviewItem)];
      }
    }

    /** Enqueues a decided root; a reference already taken is only skipped. */
    method Enqueue(store: QueueStore.QueueStore, plan: Plan) returns (refused: Option<Refusal>)
      requires store.Valid()
      modifies store, `enqueued, `skipped
      ensures store.Valid()
      ensures Minted(old(store.Current()), store.Current(), old(Lines()), Lines(), plan, refused)
    {
      hide QueueInvariant.Reached;
      var before := |store.rows|;
      refused := store.EnqueueReviewRoot(plan.repository, plan.root, plan.ref, plan.review);
      if refused.Some? { return; }
      if |store.rows| == before {
        skipped := skipped + [(plan.review.url, ItemExists)];
      } else {
        enqueued := enqueued + [EnqueuedRoot(plan)];
      }
    }

    /** Follows a decision that is not a pass. */
    method Follow(store: QueueStore.QueueStore, origin: Origin, url: PullUrl, head: string, brief: Brief,
      decision: GateDecision) returns (refused: Option<Refusal>)
      requires store.Valid() && !decision.TakePass?
      modifies store, `enqueued, `skipped, `needsHuman
      ensures store.Valid()
      ensures Followed(old(store.Current()), store.Current(), old(Lines()), Lines(), origin, url, head, brief,
        decision, refused)
    {
      hide QueueInvariant.Reached, EnqueueReview;
      refused := None;
      match decision
      case AlreadyInFlight => skipped := skipped + [(url, InFlightAlready)];
      case LeaveToHuman(why, round) => needsHuman := needsHuman + [Human(url, head, round, Undecided(why))];
      case LeaveDescription(_) =>
      case MintFix(_) => refused := Enqueue(store, PlanFor(origin.repository, decision, brief, origin.priority).value);
      case MintReview(_) =>
        refused := Enqueue(store, PlanFor(origin.repository, decision, brief, origin.priority).value);
    }

    /** Decides about the head, says what a human has to adjudicate, and acts on the decision. */
    method ActOn(store: QueueStore.QueueStore, pull: GitHubPull, origin: Origin, url: PullUrl, head: string,
      brief: Brief, boundaries: BoundaryCheck, writes: bool, hasNode: bool)
      returns (refused: Option<Refusal>, ghost a: Answers, ghost w: Instants)
      requires store.Valid()
      modifies this, store, pull
      ensures store.Valid()
      ensures Acted(old(store.Current()), store.Current(), old(Lines()), Lines(), origin, url, head, brief, a, refused)
      ensures Asked(a, boundaries, writes, hasNode) && Honest(a, head, w)
      ensures pull.calls == old(pull.calls)
                + if TakesPass(old(store.Current()), origin, url, head) then CallsOf(a, head, w) else []
      ensures !TakesPass(old(store.Current()), origin, url, head) ==> !a.marked
      ensures Reread(a) ==> pull.world == AfterCalls(a, head, w)
      ensures Reread(a) && w.atReread.OpenBeyond(head) && pull.world.OpenAndReady() ==>
                (url, Consequence(LeftReady)) in unavailable
    {
      hide Decide, DescriptionFound, PassTaken, Followed, CallsOf, AfterCalls, QueueInvariant.Reached;
      a := Answers(boundaries, writes, hasNode, false, CannotRead, false);
      w := Instants(pull.world, pull.world, pull.world);
      refused := None;
      var decision, found := DecideHead(store.rows, origin.repository, url, head);
      if found.Some? {
        needsHuman := needsHuman + [Human(url, head, found.value.0, DescriptionBlocked(found.value.1))];
      }
      if decision.TakePass? {
        refused, a, w := ApplyPassConsequence(store, pull, origin, url, head, decision.round, decision.reviewItem,
          boundaries, writes, hasNode);
      } else {
        refused := Follow(store, origin, url, head, brief, decision);
      }
    }

    /**
     * Reads the head, decides, and acts: one pull request's turn, whatever is
     * pushed between the calls. It makes exactly the calls its answers come
     * from: the first read, and on a pass it takes the mark, the re-read once
     * the mark is confirmed, and the conversion back of a head that moved or
     * could not be re-read. `atRead` and `w` are the pull request as it stood
     * at the first read and at the later calls. A head is reported marked only
     * if it was read open and draft, the verdict sorted last passes exactly
     * it, and the re-read did not find the pull request open elsewhere; a pull
     * request then open elsewhere and left ready is reported unavailable.
     */
    method ReviewPullRequest(store: QueueStore.QueueStore, pull: GitHubPull, origin: Origin, url: PullUrl, brief: Brief,
      boundaries: BoundaryCheck, writes: bool, hasNode: bool)
      returns (refused: Option<Refusal>, ghost check: HeadCheck, ghost atRead: World, ghost a: Answers,
        ghost w: Instants)
      requires store.Valid()
      modifies this, store, pull
      ensures store.Valid()
      ensures pull.calls == old(pull.calls) + TurnCalls(old(store.Current()), origin, url, check, atRead, a, w)
      ensures Truthful(check, atRead) && Asked(a, boundaries, writes, hasNode)
      ensures check.HeadIs? ==> Honest(a, check.head, w)
      ensures Turned(old(store.Current()), store.Current(), old(Lines()), Lines(), origin, url, check, brief, a,
        refused)
      ensures Reread(a) ==> FoundDraft(check) && pull.world == AfterCalls(a, check.head, w)
      ensures markedReady != old(markedReady) ==>
                && FoundDraft(check) && Reread(a) && !w.atReread.OpenBeyond(check.head)
                && exists item: nat :: markedReady == old(markedReady) + [PassedHead(url, check.head, item)]
                                       && Passed(old(store.Current()), origin, url, check, item)
      ensures Reread(a) && w.atReread.OpenBeyond(check.head) && pull.world.OpenAndReady() ==>
                (url, Consequence(LeftReady)) in unavailable
    {
      hide Acted, Decide, CallsOf, AfterCalls, QueueInvariant.Reached, EnqueueReview, RecordReady;
      a := Answers(boundaries, writes, hasNode, false, CannotRead, false);
      refused := None;
      ghost var before := store.Current();
      ghost var lines := Lines();
      var answer := pull.ReadHead();
      check, atRead, w := answer, pull.world, Instants(pull.world, pull.world, pull.world);
      if answer.CannotRead? {
        unavailable := unavailable + [(url, HeadUnread)];
        return;
      }
      if answer.Rejected? {
        skipped := skipped + [(url, NotOnGitHub)];
        return;
      }
      if answer.state != OpenPull {
        skipped := skipped + [(url, NotOpen)];
        return;
      }
      if !answer.draft {
        skipped := skipped + [(url, NotDraft)];
        return;
      }
      refused, a, w := ActOn(store, pull, origin, url, answer.head, brief, boundaries, writes, hasNode);
      if Lines().markedReady != lines.markedReady {
        MarkedOnlyPassed(before, store.Current(), lines, Lines(), origin, url, answer.head, brief, a, refused);
        PassedItem(before, origin, url, check);
        MarkHeld(a, answer.head, w.atReread);
      }
    }
  }
}
