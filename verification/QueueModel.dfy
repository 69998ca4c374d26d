/**
 * The work queue as a value: its state and, for every operation of the store,
 * the state a committed transaction leaves or the reason it is refused
 * (src/queue/store.ts). `QueueStore` performs these transactions in place.
 */
module QueueModel {
  import opened WorkTypes
  import opened Contracts
  import opened FollowUpIntent

  const DEFAULT_LEASE_SECONDS := 15 * 60
  const MIN_LEASE_SECONDS := 30
  const MAX_LEASE_SECONDS := 60 * 60
  const MAX_FOLLOW_UPS := 10
  const MAX_LINEAGE_DEPTH := 4
  const MAX_PREDECESSORS := 20
  const MAX_NOTE_LENGTH := 4000
  const MAX_REVIEW_BLOCKERS := 5
  const MAX_REVIEW_ADVISORIES := 3
  const CLAIM_BACKOFF_RELEASES := 3
  /** Instants are milliseconds. */
  const CLAIM_BACKOFF_WINDOW := 30 * 60 * 1000
  const MAX_NO_FINDING_COOLDOWN_SECONDS := 14 * 24 * 60 * 60

  /**
   * `rows` is the work_items table in insertion order; an item's id is its
   * position, which stands for the random UUID the store draws. `tokens` is
   * the supply of lease tokens: the next fresh one. `authorities` and
   * `eligible` are what the two control-plane hooks answer now; `None` means
   * the hook is not configured.
   */
  datatype State = State(
    repos: map<string, bool>,
    rows: seq<Row>,
    ledger: seq<Event>,
    clock: int,
    tokens: nat,
    authorities: Option<map<string, PolicyAuthority>>,
    eligible: Option<set<string>>)

  const EMPTY: State := State(map[], [], [], 0, 0, None, None)

  // ----- the two writes every transaction is made of --------------------------

  function Append(s: State, id: nat, body: EventBody, actor: Principal): seq<Event> {
    s.ledger + [Event(|s.ledger| + 1, id, actor, s.clock, body)]
  }

  /** The event a row is created with: admitted at once, or proposed with the edges it waits for. */
  function CreationEvent(row: Row): EventBody {
    if row.admitted then WorkQueued else WorkProposed(row.predecessors)
  }

  function Insert(s: State, row: Row, body: EventBody): State {
    s.(rows := s.rows + [row], ledger := Append(s, |s.rows|, body, row.def.createdBy))
  }

  function Touch(s: State, id: nat, row: Row, body: EventBody, actor: Principal): State
    requires id < |s.rows|
  {
    s.(rows := s.rows[id := row], ledger := Append(s, id, body, actor))
  }

  // ----- reading ---------------------------------------------------------------

  /** One item's ledger, oldest first. */
  function EventsOf(ledger: seq<Event>, id: nat): seq<Event> {
    if ledger == [] then []
    else
      var last := ledger[|ledger| - 1];
      EventsOf(ledger[..|ledger| - 1], id) + if last.item == id then [last] else []
  }

  function History(s: State, id: nat): seq<Event> {
    EventsOf(s.ledger, id)
  }

  predicate Enabled(s: State, repository: string) {
    repository in s.repos && s.repos[repository]
  }

  predicate SourceRefExists(s: State, repository: string, ref: SourceRef) {
    exists i :: 0 <= i < |s.rows| && s.rows[i].repository == repository && s.rows[i].def.sourceRef == Some(ref)
  }

  predicate HasChild(rows: seq<Row>, id: nat) {
    exists i :: 0 <= i < |rows| && rows[i].def.parent == Some(id)
  }

  /** Edges between the item and its root, as the store walks them. */
  function Depth(rows: seq<Row>, id: nat): nat
    requires id < |rows|
    decreases id
  {
    match rows[id].def.parent
    case None => 0
    case Some(p) => if p < id then 1 + Depth(rows, p) else 0
  }

  // ----- definitions and governance -----------------------------------------------

  predicate KindOk(kind: string) {
    && 2 <= |kind| <= 64
    && 'a' <= kind[0] <= 'z'
    && forall i :: 0 <= i < |kind| ==> 'a' <= kind[i] <= 'z' || '0' <= kind[i] <= '9' || kind[i] == '-'
  }

  predicate SafeInteger(n: int) {
    -9007199254740991 <= n <= 9007199254740991
  }

  /** A review record, a cure record, or a source reference names the pull request and its head. */
  predicate Bound(sourceRef: Option<SourceRef>, cure: Option<Cure>, review: Option<Review>) {
    cure.Some? || review.Some? || (sourceRef.Some? && sourceRef.value.BoundHead?)
  }

  function TermsOf(row: Row, parentDelegable: Option<seq<Action>>): Terms {
    Terms(row.def.kind, row.def.allowed, Some(row.def.delegable), row.def.required, row.def.target,
      Bound(row.def.sourceRef, row.def.cure, row.review), row.def.parent.Some?, parentDelegable)
  }

  /** What a caller supplies to create a root. */
  datatype Root = Root(
    kind: string,
    brief: Brief,
    allowed: seq<Action>,
    delegable: seq<Action>,
    required: Option<RequiredArtifact>,
    target: ExecutionTarget,
    priority: Option<int>,
    createdBy: Principal,
    predecessors: Option<seq<SourceRef>>)

  function Required(root: Root): RequiredArtifact {
    if root.required.Some? then root.required.value else NoArtifact
  }

  /** The definition rules, with the contract judged as a root's: no parent, no own ceiling in hand. */
  function DefinitionProblem(
    kind: string, brief: Brief, priority: Option<int>, allowed: seq<Action>,
    required: RequiredArtifact, target: ExecutionTarget, bound: bool): Option<Refusal>
  {
    if !KindOk(kind) || (priority.Some? && !SafeInteger(priority.value)) || !brief.Stated() then
      Some(InvalidDefinition)
    else
      match ContractProblem(Terms(kind, allowed, None, required, Some(target), bound, false, None))
      case Some(code) => Some(Refusal.Contract(code))
      case None => None
  }

  function RootProblem(root: Root, bound: bool): Option<Refusal> {
    DefinitionProblem(root.kind, root.brief, root.priority, root.allowed, Required(root), root.target, bound)
  }

  /** The first action the authority does not let the repository's agents hold. */
  function PolicyOffence(authority: PolicyAuthority, actions: seq<Action>): Option<Refusal> {
    if actions == [] then None
    else if actions[0] !in authority.ceiling then Some(OutsideActionCeiling(actions[0]))
    else if authority.Decide(actions[0]) == Deny then Some(DeniedByPolicy(actions[0]))
    else PolicyOffence(authority, actions[1..])
  }

  function ReviewRequiredOf(authority: PolicyAuthority, allowed: seq<Action>): seq<Action> {
    Keep(NAME_ORDER, set a | a in allowed && authority.Decide(a) == ReviewRequired)
  }

  /** Why work may be admitted on creation: its human creator, or a standing authorization. */
  function CreationAuthorization(
    kind: string, allowed: seq<Action>, createdBy: Principal, reviewRequired: seq<Action>, now: int)
    : Checked<Authorization>
  {
    if createdBy.Operator? || createdBy.Member? then
      Accepted(ByDecision(createdBy, reviewRequired, now))
    else
      match StandingFor(kind)
      case None => Refused(NoStandingAuthorization)
      case Some(entry) =>
        if Subset(allowed, entry.actions) then Accepted(ByStanding(entry.id, entry.adr, reviewRequired, now))
        else Refused(OutsideStandingAuthorization)
  }

  function BindPolicy(
    s: State, repository: string, kind: string, allowed: seq<Action>, delegable: seq<Action>,
    createdBy: Principal, admitted: bool): Checked<Option<PolicyRecord>>
  {
    if s.authorities.None? then
      Accepted(None)
    else if repository !in s.authorities.value then
      Refused(NoPolicyAuthority)
    else
      var authority := s.authorities.value[repository];
      match PolicyOffence(authority, allowed + delegable)
      case Some(why) => Refused(why)
      case None =>
        var reviewRequired := ReviewRequiredOf(authority, allowed);
        if !admitted then
          Accepted(Some(PolicyRecord(authority.snapshot, authority.commit, reviewRequired, None)))
        else
          match CreationAuthorization(kind, allowed, createdBy, reviewRequired, s.clock)
          case Refused(why) => Refused(why)
          case Accepted(authorization) =>
            Accepted(Some(PolicyRecord(authority.snapshot, authority.commit, reviewRequired, Some(authorization))))
  }

  // ----- creating roots ----------------------------------------------------------------

  function RootRow(
    s: State, repository: string, root: Root, admitted: bool, sourceRef: Option<SourceRef>,
    predecessors: Option<set<SourceRef>>, cure: Option<Cure>, review: Option<Review>,
    policy: Option<PolicyRecord>): Row
  {
    Row(
      Definition(|s.rows|, None, root.kind, root.brief, root.allowed, root.delegable, Required(root),
        Some(root.target), root.createdBy, s.clock, sourceRef, cure),
      repository, policy, if root.priority.Some? then root.priority.value else 0,
      Queued, admitted, s.clock, predecessors, review, None, None, [], [])
  }

  function InsertRoot(
    s: State, repository: string, root: Root, admitted: bool, sourceRef: Option<SourceRef>,
    predecessors: Option<set<SourceRef>>, cure: Option<Cure>, review: Option<Review>): Checked<State>
  {
    match BindPolicy(s, repository, root.kind, root.allowed, root.delegable, root.createdBy, admitted)
    case Refused(why) => Refused(why)
    case Accepted(policy) =>
      Accepted(Insert(s,
        RootRow(s, repository, root, admitted, sourceRef, predecessors, cure, review, policy),
        if admitted then WorkQueued else WorkProposed(predecessors)))
  }

  function EnqueueSeed(s: State, repository: string, root: Root): Checked<State> {
    match RootProblem(root, false)
    case Some(why) => Refused(why)
    case None =>
      if root.predecessors.Some? then Refused(PredecessorsRefused)
      else if !Enabled(s, repository) then Refused(RepositoryNotEnabled)
      else InsertRoot(s, repository, root, true, None, None, None, None)
  }

  // ----- the repeating feeder -------------------------------------------------------------

  function Min(a: int, b: int): int { if a <= b then a else b }

  function Max(a: int, b: int): int { if a <= b then b else a }

  function Pow2(n: nat): nat { if n == 0 then 1 else 2 * Pow2(n - 1) }

  function BackedOffCooldown(base: int, streak: nat): int {
    if base <= 0 || streak <= 1 then base
    else Max(base, Min(base * Pow2(Min(streak - 1, 60)), MAX_NO_FINDING_COOLDOWN_SECONDS))
  }

  predicate RootOf(row: Row, repository: string, kind: string) {
    row.repository == repository && row.def.kind == kind && row.def.parent.None?
  }

  predicate NoFinding(rows: seq<Row>, id: nat)
    requires id < |rows|
  {
    rows[id].stored == Completed && !HasChild(rows, id)
  }

  /** Among the first `n` rows: how many of the kind's newest roots completed without a child. */
  function Streak(rows: seq<Row>, repository: string, kind: string, n: nat): nat
    requires n <= |rows|
  {
    if n == 0 then 0
    else if !RootOf(rows[n - 1], repository, kind) then Streak(rows, repository, kind, n - 1)
    else if NoFinding(rows, n - 1) then 1 + Streak(rows, repository, kind, n - 1)
    else 0
  }

  /** The newest root of the kind among the first `n` rows. */
  function NewestRoot(rows: seq<Row>, repository: string, kind: string, n: nat): Option<nat>
    requires n <= |rows|
  {
    if n == 0 then None
    else if RootOf(rows[n - 1], repository, kind) then Some(n - 1)
    else NewestRoot(rows, repository, kind, n - 1)
  }

  /** The last instant a completion of the item was recorded, if any was. */
  function LastCompletion(history: seq<Event>): Option<int> {
    if history == [] then None
    else
      var before := LastCompletion(history[..|history| - 1]);
      var e := history[|history| - 1];
      if !e.body.WorkCompleted? then before
      else if before.Some? then Some(Max(before.value, e.at))
      else Some(e.at)
  }

  function CompletedAt(s: State, id: nat): int
    requires id < |s.rows|
  {
    match LastCompletion(History(s, id))
    case Some(at) => at
    case None => s.rows[id].updatedAt
  }

  /** The kind answered "nothing to do" and its backed-off window has not passed. */
  predicate Cooled(s: State, repository: string, kind: string, base: int) {
    var streak := Streak(s.rows, repository, kind, |s.rows|);
    var newest := NewestRoot(s.rows, repository, kind, |s.rows|);
    && streak > 0
    && newest.Some?
    && newest.value < |s.rows|
    && BackedOffCooldown(base, streak) > 0
    && CompletedAt(s, newest.value) >= s.clock - BackedOffCooldown(base, streak) * 1000
  }

  /** Kinds of the roots whose lineage still has non-terminal work in the repository. */
  function ActiveRootKinds(rows: seq<Row>, repository: string): set<string> {
    set i | 0 <= i < |rows| && rows[i].repository == repository && !rows[i].Terminal()
            && rows[i].def.rootId < |rows|
      :: rows[rows[i].def.rootId].def.kind
  }

  datatype Candidate = Candidate(root: Root, cooldown: Option<int>)

  function CooldownOf(c: Candidate, override: Option<int>): int {
    if override.Some? then override.value else if c.cooldown.Some? then c.cooldown.value else 0
  }

  /** What became of each candidate of a batch, in order. */
  datatype Fate = Created(id: nat) | Skipped | CooledDown

  /** A batch under way: the kinds active by now, and what became of the candidates so far. */
  datatype Batch = Batch(state: State, active: set<string>, fates: seq<Fate>)

  /** One candidate; the cooldown is judged on the state the batch started from. */
  function BatchOne(start: State, b: Batch, repository: string, c: Candidate, override: Option<int>): Checked<Batch> {
    match RootProblem(c.root, false)
    case Some(why) => Refused(why)
    case None =>
      if c.root.predecessors.Some? then
        Refused(PredecessorsRefused)
      else if c.root.kind in b.active then
        Accepted(b.(fates := b.fates + [Skipped]))
      else if Cooled(start, repository, c.root.kind, CooldownOf(c, override)) then
        Accepted(b.(fates := b.fates + [CooledDown]))
      else
        match InsertRoot(b.state, repository, c.root, true, None, None, None, None)
        case Refused(why) => Refused(why)
        case Accepted(next) =>
          Accepted(Batch(next, b.active + {c.root.kind}, b.fates + [Created(|b.state.rows|)]))
  }

  function BatchFrom(start: State, b: Batch, repository: string, candidates: seq<Candidate>,
    override: Option<int>): Checked<Batch>
    decreases |candidates|
  {
    if candidates == [] then
      Accepted(b)
    else
      match BatchOne(start, b, repository, candidates[0], override)
      case Refused(why) => Refused(why)
      case Accepted(next) => BatchFrom(start, next, repository, candidates[1..], override)
  }

  function EnqueueBatch(
    s: State, repository: string, candidates: seq<Candidate>, override: Option<int>): Checked<Batch>
  {
    if exists i :: 0 <= i < |candidates| &&
         (CooldownOf(candidates[i], override) < 0 || !SafeInteger(CooldownOf(candidates[i], override))) then
      Refused(InvalidDefinition)
    else if !Enabled(s, repository) then
      Refused(RepositoryNotEnabled)
    else
      BatchFrom(s, Batch(s, ActiveRootKinds(s.rows, repository), []), repository, candidates, override)
  }

  // ----- imported, cure and review roots ---------------------------------------------------

  /** The edges as stored: a set, absent when empty. */
  function NormalizePredecessors(declared: Option<seq<SourceRef>>): Checked<Option<set<SourceRef>>> {
    if declared.None? then Accepted(None)
    else if |declared.value| > MAX_PREDECESSORS then Refused(TooManyPredecessors)
    else if exists r :: r in declared.value && !r.IssueUrl? then Refused(PredecessorsRefused)
    else if declared.value == [] then Accepted(None)
    else Accepted(Some(set r | r in declared.value))
  }

  datatype Import = Import(root: Root, sourceRef: SourceRef)

  /** One imported root; a reference the repository already has is skipped. */
  function EnqueueImport(s: State, repository: string, candidate: Import): Checked<State> {
    match RootProblem(candidate.root, false)
    case Some(why) => Refused(why)
    case None =>
      match NormalizePredecessors(candidate.root.predecessors)
      case Refused(why) => Refused(why)
      case Accepted(predecessors) =>
        if SourceRefExists(s, repository, candidate.sourceRef) then Accepted(s)
        else InsertRoot(s, repository, candidate.root, false, Some(candidate.sourceRef), predecessors, None, None)
  }

  function EnqueueImports(s: State, repository: string, imports: seq<Import>): Checked<State>
    decreases |imports|
  {
    if imports == [] then
      Accepted(s)
    else
      match EnqueueImport(s, repository, imports[0])
      case Refused(why) => Refused(why)
      case Accepted(next) => EnqueueImports(next, repository, imports[1..])
  }

  function EnqueueProposed(s: State, repository: string, imports: seq<Import>): Checked<State> {
    if !Enabled(s, repository) then Refused(RepositoryNotEnabled)
    else EnqueueImports(s, repository, imports)
  }

  function EnqueueCure(s: State, repository: string, root: Root, ref: SourceRef, cure: Cure): Checked<State> {
    if cure.decay == {} || root.kind != CURE_KIND then Refused(InvalidDefinition)
    else if root.predecessors.Some? then Refused(PredecessorsRefused)
    else
      match RootProblem(root, true)
      case Some(why) => Refused(why)
      case None =>
        if !Enabled(s, repository) then Refused(RepositoryNotEnabled)
        else if SourceRefExists(s, repository, ref) then Accepted(s)
        else InsertRoot(s, repository, root, true, Some(ref), None, Some(cure), None)
  }

  predicate BlockersOk(blockers: seq<Blocker>) {
    && |blockers| <= MAX_REVIEW_BLOCKERS
    && (forall i :: 0 <= i < |blockers| ==> !Blank(blockers[i].fingerprint) && !Blank(blockers[i].text))
    && (forall i, j :: 0 <= i < j < |blockers| ==> blockers[i].fingerprint != blockers[j].fingerprint)
  }

  predicate ReviewOk(review: Review) {
    review.round >= 1 && BlockersOk(review.priorBlockers) && BlockersOk(review.blockers)
  }

  predicate VerdictOk(verdict: Verdict) {
    && BlockersOk(verdict.blockers)
    && |verdict.advisories| <= MAX_REVIEW_ADVISORIES
    && (forall i :: 0 <= i < |verdict.advisories| ==> !Blank(verdict.advisories[i]))
    && (verdict.decision == Block ==> verdict.blockers != [])
    && (verdict.decision == Pass ==> verdict.blockers == [])
  }

  /** The shape rules of a gate root: a review only reads; a fix carries exactly its four actions. */
  predicate GateRootOk(root: Root, review: Review) {
    && (root.kind == REVIEW_KIND || root.kind == REVIEW_FIX_KIND)
    && root.delegable == []
    && (root.kind == REVIEW_KIND ==> Subset(root.allowed, [Read, RunTests]))
    && (root.kind == REVIEW_FIX_KIND ==>
          multiset(root.allowed) == multiset([Read, Write, RunTests, OpenPr]) && review.reviewItem.Some?)
  }

  function EnqueueReview(s: State, repository: string, root: Root, ref: SourceRef, review: Review): Checked<State> {
    if !ReviewOk(review) || !GateRootOk(root, review) then Refused(ReviewInvalid)
    else if root.predecessors.Some? then Refused(PredecessorsRefused)
    else
      match RootProblem(root, true)
      case Some(why) => Refused(why)
      case None =>
        if !Enabled(s, repository) then Refused(RepositoryNotEnabled)
        else if SourceRefExists(s, repository, ref) then Accepted(s)
        else InsertRoot(s, repository, root, true, Some(ref), None, None, Some(review))
  }

  // ----- claiming -------------------------------------------------------------------------

  datatype ClaimQuery = ClaimQuery(
    worker: Principal,
    repository: Option<string>,
    kinds: Option<set<string>>,
    allowedKinds: Option<set<string>>,
    leaseSeconds: Option<int>)

  /** The request's kinds, narrowed by the credential's; `None` is unrestricted. */
  function EffectiveKinds(q: ClaimQuery): Option<set<string>> {
    var requested := if q.kinds == Some({}) then None else q.kinds;
    if q.allowedKinds.None? then requested
    else if requested.None? then q.allowedKinds
    else Some(requested.value * q.allowedKinds.value)
  }

  function LeaseSeconds(seconds: Option<int>): Checked<int> {
    var n := if seconds.Some? then seconds.value else DEFAULT_LEASE_SECONDS;
    if MIN_LEASE_SECONDS <= n <= MAX_LEASE_SECONDS then Accepted(n) else Refused(BadLeaseSeconds)
  }

  function ClaimRefusal(q: ClaimQuery): Option<Refusal> {
    if !q.worker.Works() then Some(WrongPrincipal)
    else if LeaseSeconds(q.leaseSeconds).Refused? then Some(BadLeaseSeconds)
    else if q.allowedKinds.Some?
      && (q.allowedKinds.value == {} || exists k :: k in q.allowedKinds.value && !KindOk(k)) then
      Some(InvalidDefinition)
    else None
  }

  predicate CountedRelease(e: Event) {
    e.body.WorkReleased? && e.actor.CountsTowardBackoff()
  }

  /** Counted releases recorded strictly after an instant. */
  function ReleasesAfter(history: seq<Event>, after: int): nat {
    if history == [] then 0
    else
      var e := history[|history| - 1];
      ReleasesAfter(history[..|history| - 1], after) + if CountedRelease(e) && e.at > after then 1 else 0
  }

  predicate BackedOff(s: State, id: nat) {
    ReleasesAfter(History(s, id), s.clock - CLAIM_BACKOFF_WINDOW) >= CLAIM_BACKOFF_RELEASES
  }

  predicate Lapsed(row: Row, now: int) {
    row.stored == Claimed && row.lease.Some? && row.lease.value.expiresAt <= now
  }

  /** The row is queued and admitted, or its lease has lapsed. */
  predicate Available(row: Row, now: int) {
    (row.stored == Queued && row.admitted) || Lapsed(row, now)
  }

  /** Passes every clause of the claim except its predecessors. */
  predicate Runs(s: State, q: ClaimQuery, id: nat) {
    && id < |s.rows|
    && var row := s.rows[id];
       && Enabled(s, row.repository)
       && Available(row, s.clock)
       && !BackedOff(s, id)
       && (q.repository.Some? ==> row.repository == q.repository.value)
       && (EffectiveKinds(q).Some? ==> row.def.kind in EffectiveKinds(q).value)
       && (s.eligible.Some? ==> row.repository in s.eligible.value)
  }

  /** The artifact is neither an unmerged pull request nor an unpublished release. */
  predicate ArtifactDelivered(a: Artifact) {
    && (a.kind == PullRequest ==>
       a.verification.Some? && a.verification.value.Verified? && a.verification.value.state == Merged)
    && (a.kind == Release ==>
       a.verification.Some? && a.verification.value.Verified? && a.verification.value.state == Published)
  }

  predicate Delivered(row: Row) {
    && row.stored == Completed
    && (row.result.Some? ==>
          forall i :: 0 <= i < |row.result.value.artifacts| ==> ArtifactDelivered(row.result.value.artifacts[i]))
  }

  predicate Satisfied(rows: seq<Row>, ref: SourceRef) {
    exists i :: 0 <= i < |rows| && rows[i].def.sourceRef == Some(ref) && Delivered(rows[i])
  }

  predicate PredecessorsMet(rows: seq<Row>, row: Row) {
    row.predecessors.Some? ==> forall ref :: ref in row.predecessors.value ==> Satisfied(rows, ref)
  }

  predicate Claimable(s: State, q: ClaimQuery, id: nat) {
    Runs(s, q, id) && PredecessorsMet(s.rows, s.rows[id])
  }

  /** The claim order: higher priority, then older. */
  predicate Precedes(a: Row, b: Row) {
    a.priority > b.priority || (a.priority == b.priority && a.def.createdAt < b.def.createdAt)
  }

  /** What a claim may answer: nothing only when nothing is claimable, else something none precedes. */
  ghost predicate ClaimAnswer(s: State, q: ClaimQuery, choice: Option<nat>) {
    match choice
    case None => forall id: nat :: !Claimable(s, q, id)
    case Some(best) =>
      && Claimable(s, q, best)
      && forall id: nat :: Claimable(s, q, id) ==> !Precedes(s.rows[id], s.rows[best])
  }

  /** The row once the lapsed lease is struck; a queued row is left alone. */
  function Struck(row: Row, now: int): Row {
    if row.stored == Claimed then row.(stored := Queued, lease := None, updatedAt := now) else row
  }

  function Strike(s: State, id: nat): State
    requires id < |s.rows|
  {
    var row := s.rows[id];
    if row.stored == Claimed && row.lease.Some? then
      Touch(s, id, Struck(row, s.clock), LeaseExpired(row.lease.value.owner, row.lease.value.expiresAt), System)
    else
      s
  }

  function Take(s: State, id: nat, worker: Principal, seconds: int): State
    requires id < |s.rows|
  {
    var expiresAt := s.clock + seconds * 1000;
    Touch(s.(tokens := s.tokens + 1), id,
      s.rows[id].(stored := Claimed, lease := Some(Lease(worker, s.tokens, expiresAt)), updatedAt := s.clock),
      WorkClaimed(expiresAt), worker)
  }

  function Claim(s: State, q: ClaimQuery, choice: Option<nat>): Checked<State> {
    if ClaimRefusal(q).Some? then Refused(ClaimRefusal(q).value)
    else if choice.None? || choice.value >= |s.rows| then Accepted(s)
    else Accepted(Take(Strike(s, choice.value), choice.value, q.worker, LeaseSeconds(q.leaseSeconds).value))
  }

  // ----- working under a lease ----------------------------------------------------------

  /** The item is claimed under exactly this token and owner, and the lease is live. */
  predicate Active(s: State, id: nat, token: nat) {
    && id < |s.rows|
    && s.rows[id].stored == Claimed
    && s.rows[id].lease.Some?
    && s.rows[id].lease.value.token == token
    && s.rows[id].lease.value.expiresAt > s.clock
  }

  function LeaseRefusal(s: State, id: nat, token: nat, worker: Principal): Option<Refusal> {
    if !worker.Works() then Some(WrongPrincipal)
    else if id >= |s.rows| then Some(NotFound)
    else if s.rows[id].stored != Claimed then Some(WrongStatus)
    else if s.rows[id].lease.None? then Some(LeaseMismatch)
    else if s.rows[id].lease.value.token != token || s.rows[id].lease.value.owner != worker then Some(LeaseMismatch)
    else if s.rows[id].lease.value.expiresAt <= s.clock then Some(LeaseLapsed)
    else None
  }

  function Heartbeat(s: State, id: nat, token: nat, worker: Principal, seconds: Option<int>): Checked<State> {
    match LeaseRefusal(s, id, token, worker)
    case Some(why) => Refused(why)
    case None =>
      match LeaseSeconds(seconds)
      case Refused(why) => Refused(why)
      case Accepted(n) =>
        var row := s.rows[id];
        var expiresAt := s.clock + n * 1000;
        Accepted(Touch(s, id,
          row.(lease := Some(row.lease.value.(expiresAt := expiresAt)), updatedAt := s.clock),
          LeaseRenewed(expiresAt), worker))
  }

  function BlockWork(s: State, id: nat, token: nat, worker: Principal, reason: string): Checked<State> {
    if !worker.Works() then Refused(WrongPrincipal)
    else if Blank(reason) then Refused(BlankText)
    else
      match LeaseRefusal(s, id, token, worker)
      case Some(why) => Refused(why)
      case None =>
        Accepted(Touch(s, id,
          s.rows[id].(stored := Blocked, result := Some(ReasonResult(reason)), lease := None, updatedAt := s.clock),
          WorkBlocked(reason), worker))
  }

  function ReleaseWork(s: State, id: nat, token: nat, worker: Principal, reason: string): Checked<State> {
    match LeaseRefusal(s, id, token, worker)
    case Some(why) => Refused(why)
    case None =>
      Accepted(Touch(s, id,
        s.rows[id].(stored := Queued, lease := None, updatedAt := s.clock),
        WorkReleased(reason, None), worker))
  }

  // ----- completing -----------------------------------------------------------------------

  predicate Verifiable(kind: ArtifactKind) {
    kind == Issue || kind == PullRequest || kind == Release
  }

  predicate ResultOk(result: WorkResult) {
    && !Blank(result.summary)
    && (forall i :: 0 <= i < |result.evidence| ==> !Blank(result.evidence[i]))
    && (forall i :: 0 <= i < |result.artifacts| ==>
          result.artifacts[i].verification.Some? ==> Verifiable(result.artifacts[i].kind))
  }

  function ActionFor(kind: ArtifactKind): Option<Action> {
    match kind
    case Issue => Some(OpenIssue)
    case PullRequest => Some(OpenPr)
    case Commit => Some(Write)
    case _ => None
  }

  function ArtifactProblem(row: Row, a: Artifact): Option<Refusal> {
    var action := ActionFor(a.kind);
    if action.Some? && action.value !in row.def.allowed then Some(ArtifactNotAllowed)
    else if (action.Some? || a.kind == Release) && a.within != Some(row.repository) then Some(ArtifactOutOfScope)
    else None
  }

  function ArtifactsProblem(row: Row, artifacts: seq<Artifact>): Option<Refusal> {
    if artifacts == [] then None
    else if ArtifactProblem(row, artifacts[0]).Some? then ArtifactProblem(row, artifacts[0])
    else ArtifactsProblem(row, artifacts[1..])
  }

  predicate RequiredArtifactReported(row: Row, artifacts: seq<Artifact>) {
    row.def.required == RequiredPullRequest ==>
      exists i :: 0 <= i < |artifacts| && artifacts[i].kind == PullRequest
  }

  function ReviewProblem(row: Row, verdict: Option<Verdict>): Option<Refusal> {
    if row.def.kind == REVIEW_KIND then
      if verdict.None? || row.review.None? then Some(ReviewMissing)
      else if !VerdictOk(verdict.value) then Some(ReviewInvalid)
      else None
    else if verdict.Some? then Some(ReviewUnexpected)
    else None
  }

  /** The cure record a pr-cure-change child inherits; every other child binds nothing. */
  function InheritedCure(parent: Row, f: FollowUp): Option<Cure> {
    if f.kind == CURE_CHANGE_KIND && f.target == ExistingPullRequest then parent.def.cure else None
  }

  function CheckFollowUp(parent: Row, proposal: Proposal): Checked<FollowUp> {
    if proposal.stray != {} then
      Refused(StrayFollowUpField)
    else
      match Normalize(Parent(parent.def.delegable, parent.def.cure), proposal)
      case Refused(why) => Refused(why)
      case Accepted(f) =>
        var bound := InheritedCure(parent, f).Some?;
        var problem := ContractProblem(
          Terms(f.kind, f.allowed, Some(f.delegable), f.required, Some(f.target), bound, true,
            Some(parent.def.delegable)));
        if problem.Some? then
          Refused(Refusal.Contract(problem.value))
        else
          match DefinitionProblem(f.kind, f.brief, None, f.allowed, f.required, f.target, bound)
          case Some(why) => Refused(why)
          case None =>
            if !Subset(f.allowed, parent.def.delegable) || !Subset(f.delegable, parent.def.delegable) then
              Refused(ExceedsCeiling)
            else
              Accepted(f)
  }

  function ChildRow(s: State, parentId: nat, parent: Row, f: FollowUp, worker: Principal,
    policy: Option<PolicyRecord>): Row {
    Row(
      Definition(parent.def.rootId, Some(parentId), f.kind, f.brief, f.allowed, f.delegable, f.required,
        Some(f.target), worker, s.clock, None, InheritedCure(parent, f)),
      parent.repository, policy, parent.priority, Queued, false, s.clock, None, None, None, None, [], [])
  }

  function AddFollowUp(s: State, parentId: nat, parent: Row, proposal: Proposal, worker: Principal): Checked<State> {
    match CheckFollowUp(parent, proposal)
    case Refused(why) => Refused(why)
    case Accepted(f) =>
      match BindPolicy(s, parent.repository, f.kind, f.allowed, f.delegable, worker, false)
      case Refused(why) => Refused(why)
      case Accepted(policy) => Accepted(Insert(s, ChildRow(s, parentId, parent, f, worker, policy), WorkProposed(None)))
  }

  function AddFollowUps(s: State, parentId: nat, parent: Row, proposals: seq<Proposal>,
    worker: Principal): Checked<State>
    decreases |proposals|
  {
    if proposals == [] then
      Accepted(s)
    else
      match AddFollowUp(s, parentId, parent, proposals[0], worker)
      case Refused(why) => Refused(why)
      case Accepted(next) => AddFollowUps(next, parentId, parent, proposals[1..], worker)
  }

  function Judged(review: Review, verdict: Verdict): Review {
    review.(decision := Some(verdict.decision), blockers := verdict.blockers)
  }

  function CompletedRow(s: State, row: Row, result: WorkResult, verdict: Option<Verdict>): Row {
    row.(
      stored := Completed,
      result := Some(result),
      review := if verdict.Some? && row.review.Some? then Some(Judged(row.review.value, verdict.value)) else row.review,
      lease := None,
      updatedAt := s.clock)
  }

  /** The completion itself, once every follow-up is in the table. */
  function Finish(s: State, id: nat, row: Row, worker: Principal, result: WorkResult,
    verdict: Option<Verdict>, children: seq<nat>): State
    requires id < |s.rows|
  {
    var done := CompletedRow(s, row, result, verdict);
    var s1 := Touch(s, id, done, WorkCompleted(children), worker);
    if verdict.Some? && row.review.Some? then
      Touch(s1, id, done, WorkReviewed(verdict.value.decision, row.review.value.round, row.review.value.headSha),
        worker)
    else
      s1
  }

  /** A completion by the worker who holds the lease. */
  function CompleteUnderLease(
    s: State, id: nat, worker: Principal, result: WorkResult,
    followUps: seq<Proposal>, verdict: Option<Verdict>): Checked<State>
    requires id < |s.rows|
  {
    var row := s.rows[id];
    if followUps != [] && CreateFollowup !in row.def.allowed then Refused(FollowUpNotAllowed)
    else if followUps != [] && Depth(s.rows, id) >= MAX_LINEAGE_DEPTH then Refused(LineageTooDeep)
    else if ArtifactsProblem(row, result.artifacts).Some? then Refused(ArtifactsProblem(row, result.artifacts).value)
    else if !RequiredArtifactReported(row, result.artifacts) then Refused(RequiredArtifactMissing)
    else if ReviewProblem(row, verdict).Some? then Refused(ReviewProblem(row, verdict).value)
    else
      match AddFollowUps(s, id, row, followUps, worker)
      case Refused(why) => Refused(why)
      case Accepted(next) =>
        if id < |next.rows| then
          Accepted(Finish(next, id, row, worker, result, verdict,
            seq(|followUps|, i requires 0 <= i < |followUps| => |s.rows| + i)))
        else
          Refused(NotFound)
  }

  function Complete(
    s: State, id: nat, token: nat, worker: Principal, result: WorkResult,
    followUps: seq<Proposal>, verdict: Option<Verdict>): Checked<State>
  {
    if !worker.Works() then Refused(WrongPrincipal)
    else if !ResultOk(result) then Refused(BlankText)
    else if |followUps| > MAX_FOLLOW_UPS then Refused(TooManyFollowUps)
    else
      match LeaseRefusal(s, id, token, worker)
      case Some(why) => Refused(why)
      case None => CompleteUnderLease(s, id, worker, result, followUps, verdict)
  }

  // ----- operator decisions -----------------------------------------------------------------

  /** The status and update instant an operator saw before deciding. */
  datatype Precondition = Precondition(status: WorkStatus, updatedAt: int)

  predicate NoteOk(reason: string) {
    !Blank(reason) && |reason| <= MAX_NOTE_LENGTH
  }

  /** Why an operator may not act on the item, before its status is looked at. */
  function DecisionRefusal(s: State, id: nat, actor: Principal, seen: Option<Precondition>): Option<Refusal> {
    if !actor.Decides() then Some(WrongPrincipal)
    else if id >= |s.rows| then Some(NotFound)
    else if seen.Some? && seen.value != Precondition(s.rows[id].Status(), s.rows[id].updatedAt) then Some(Stale)
    else None
  }

  function Noted(row: Row, now: int, actor: Principal, action: NoteAction, reason: string): Row {
    row.(notes := row.notes + [Note(now, actor, action, reason)], updatedAt := now)
  }

  function DelegableOf(rows: seq<Row>, parent: Option<nat>): Option<seq<Action>> {
    if parent.Some? && parent.value < |rows| then Some(rows[parent.value].def.delegable) else None
  }

  function Approve(s: State, id: nat, actor: Principal, seen: Option<Precondition>): Checked<State> {
    match DecisionRefusal(s, id, actor, seen)
    case Some(why) => Refused(why)
    case None =>
      var row := s.rows[id];
      if row.Status() != Proposed then Refused(WrongStatus)
      else
        match ContractProblem(TermsOf(row, DelegableOf(s.rows, row.def.parent)))
        case Some(code) => Refused(Refusal.Contract(code))
        case None =>
          match BindPolicy(s, row.repository, row.def.kind, row.def.allowed, row.def.delegable, row.def.createdBy,
            false)
          case Refused(why) => Refused(why)
          case Accepted(bound) =>
            var policy :=
              if bound.Some? then
                Some(bound.value.(authorization := Some(ByDecision(actor, bound.value.reviewRequired, s.clock))))
              else
                row.policy;
            Accepted(Touch(s, id, row.(admitted := true, policy := policy, updatedAt := s.clock), WorkApproved, actor))
  }

  function Defer(s: State, id: nat, actor: Principal, reason: string, seen: Option<Precondition>): Checked<State> {
    if actor.Decides() && !NoteOk(reason) then Refused(BlankText)
    else
      match DecisionRefusal(s, id, actor, seen)
      case Some(why) => Refused(why)
      case None =>
        if s.rows[id].Status() != Stands(Queued) then Refused(WrongStatus)
        else
          Accepted(Touch(s, id,
            Noted(s.rows[id], s.clock, actor, DeferNote, reason).(admitted := false), WorkDeferred(reason), actor))
  }

  function AddNote(s: State, id: nat, actor: Principal, reason: string, seen: Option<Precondition>): Checked<State> {
    if actor.Decides() && !NoteOk(reason) then Refused(BlankText)
    else
      match DecisionRefusal(s, id, actor, seen)
      case Some(why) => Refused(why)
      case None =>
        Accepted(Touch(s, id, Noted(s.rows[id], s.clock, actor, PlainNote, reason), WorkNoted(reason), actor))
  }

  function Prioritize(s: State, id: nat, actor: Principal, priority: int, reason: string,
    seen: Option<Precondition>): Checked<State> {
    if actor.Decides() && !SafeInteger(priority) then Refused(InvalidDefinition)
    else if actor.Decides() && !NoteOk(reason) then Refused(BlankText)
    else
      match DecisionRefusal(s, id, actor, seen)
      case Some(why) => Refused(why)
      case None =>
        var row := s.rows[id];
        if row.stored != Queued && row.stored != Blocked then Refused(WrongStatus)
        else
          Accepted(Touch(s, id,
            Noted(row, s.clock, actor, PrioritizeNote, reason).(priority := priority),
            WorkPrioritized(row.priority, priority, reason), actor))
  }

  function Reject(s: State, id: nat, actor: Principal, reason: string, seen: Option<Precondition>): Checked<State> {
    if actor.Decides() && Blank(reason) then Refused(BlankText)
    else
      match DecisionRefusal(s, id, actor, seen)
      case Some(why) => Refused(why)
      case None =>
        if s.rows[id].Status() != Proposed then Refused(WrongStatus)
        else
          Accepted(Touch(s, id,
            s.rows[id].(stored := Cancelled, result := Some(ReasonResult(reason)), updatedAt := s.clock),
            WorkRejected(reason), actor))
  }

  function Requeue(s: State, id: nat, actor: Principal, reason: string, seen: Option<Precondition>): Checked<State> {
    if actor.Decides() && !NoteOk(reason) then Refused(BlankText)
    else
      match DecisionRefusal(s, id, actor, seen)
      case Some(why) => Refused(why)
      case None =>
        var row := s.rows[id];
        if row.stored != Blocked then Refused(WrongStatus)
        else
          Accepted(Touch(s, id,
            Noted(row, s.clock, actor, RequeueNote, reason).(
              stored := Queued,
              result := None,
              previous := if row.result.Some? then row.previous + [row.result.value] else row.previous,
              lease := None),
            WorkRequeued(reason), actor))
  }

  function ReleaseLease(s: State, id: nat, actor: Principal, reason: string,
    seen: Option<Precondition>): Checked<State> {
    if actor.Decides() && !NoteOk(reason) then Refused(BlankText)
    else
      match DecisionRefusal(s, id, actor, seen)
      case Some(why) => Refused(why)
      case None =>
        var row := s.rows[id];
        if row.stored != Claimed || row.lease.None? then Refused(WrongStatus)
        else
          Accepted(Touch(s, id,
            Noted(row, s.clock, actor, ReleaseLeaseNote, reason).(stored := Queued, lease := None),
            WorkReleased(reason, Some((row.lease.value.owner, row.lease.value.expiresAt))), actor))
  }

  /** The row and event of a cancellation, by an operator or because its pull request is gone. */
  function Cancelling(s: State, id: nat, actor: Principal, reason: string): State
    requires id < |s.rows|
  {
    Touch(s, id,
      s.rows[id].(stored := Cancelled, result := Some(ReasonResult(reason)), lease := None, updatedAt := s.clock),
      WorkCancelled(reason), actor)
  }

  function Cancel(s: State, id: nat, actor: Principal, reason: string, seen: Option<Precondition>): Checked<State> {
    if actor.Decides() && Blank(reason) then Refused(BlankText)
    else
      match DecisionRefusal(s, id, actor, seen)
      case Some(why) => Refused(why)
      case None =>
        if s.rows[id].stored != Blocked then Refused(WrongStatus)
        else Accepted(Cancelling(s, id, actor, reason))
  }

  function Retire(s: State, id: nat, actor: Principal, reason: string): Checked<State> {
    if actor.Decides() && Blank(reason) then Refused(BlankText)
    else
      match DecisionRefusal(s, id, actor, None)
      case Some(why) => Refused(why)
      case None =>
        if s.rows[id].Status() != Stands(Queued) && s.rows[id].stored != Blocked then Refused(WrongStatus)
        else Accepted(Cancelling(s, id, actor, reason))
  }

  function ReplacePredecessors(s: State, id: nat, refs: seq<SourceRef>, actor: Principal): Checked<State> {
    if !actor.Decides() then Refused(WrongPrincipal)
    else
      match NormalizePredecessors(Some(refs))
      case Refused(why) => Refused(why)
      case Accepted(replacement) =>
        if id >= |s.rows| then Refused(NotFound)
        else if s.rows[id].Status() != Proposed then Refused(WrongStatus)
        else
          var row := s.rows[id];
          Accepted(Touch(s, id, row.(predecessors := replacement, updatedAt := s.clock),
            PredecessorsUpdated(
              if replacement.Some? then replacement.value else {},
              if row.predecessors.Some? then row.predecessors.value else {}),
            actor))
  }

  // ----- artifacts of completed work ----------------------------------------------------------

  /** Position of the first artifact with the URL. */
  function FindArtifact(artifacts: seq<Artifact>, url: string): Option<nat> {
    if artifacts == [] then None
    else if artifacts[0].url == url then Some(0)
    else
      match FindArtifact(artifacts[1..], url)
      case None => None
      case Some(i) => Some(i + 1)
  }

  function CompletedRefusal(s: State, id: nat): Option<Refusal> {
    if id >= |s.rows| then Some(NotFound)
    else if s.rows[id].stored != Completed || s.rows[id].result.None? then Some(WrongStatus)
    else None
  }

  function WithArtifacts(row: Row, artifacts: seq<Artifact>, now: int): Row
    requires row.result.Some?
  {
    row.(result := Some(row.result.value.(artifacts := artifacts)), updatedAt := now)
  }

  function RecordVerification(s: State, id: nat, url: string, verification: Verification,
    actor: Principal): Checked<State> {
    match CompletedRefusal(s, id)
    case Some(why) => Refused(why)
    case None =>
      var artifacts := s.rows[id].result.value.artifacts;
      match FindArtifact(artifacts, url)
      case None => Refused(ArtifactUnknown)
      case Some(i) =>
        if i >= |artifacts| then Refused(ArtifactUnknown)
        else if !Verifiable(artifacts[i].kind) then Refused(ArtifactNotVerifiable)
        else
          Accepted(Touch(s, id,
            WithArtifacts(s.rows[id], artifacts[i := artifacts[i].(verification := Some(verification))], s.clock),
            ArtifactVerified(url), actor))
  }

  function Attach(s: State, id: nat, actor: Principal, artifact: Artifact, seen: Option<Precondition>): Checked<State> {
    if actor.Decides() && (!Verifiable(artifact.kind) || artifact.verification.None?) then
      Refused(ArtifactNotVerifiable)
    else
      match DecisionRefusal(s, id, actor, seen)
      case Some(why) => Refused(why)
      case None =>
        match CompletedRefusal(s, id)
        case Some(why) => Refused(why)
        case None =>
          var artifacts := s.rows[id].result.value.artifacts;
          if artifact.within != Some(s.rows[id].repository) then Refused(ArtifactOutOfScope)
          else if FindArtifact(artifacts, artifact.url).Some? then Refused(ArtifactDuplicate)
          else
            Accepted(Touch(s, id, WithArtifacts(s.rows[id], artifacts + [artifact], s.clock),
              ArtifactAttached(artifact.url), actor))
  }

  /** What a pull-request artifact is known by inside its item's repository. */
  datatype PullIdentity = ByNumber(number: nat) | ByUrl(lower: string)

  /** The number GitHub verified wins, else the one the URL names, else the URL itself, whatever its case. */
  function IdentityOf(a: Artifact): PullIdentity {
    var verified :=
      if a.kind == PullRequest && a.verification.Some? && a.verification.value.Verified? then
        a.verification.value.number
      else None;
    if verified.Some? then ByNumber(verified.value)
    else if a.pull.Some? then ByNumber(a.pull.value)
    else ByUrl(Lower(a.url))
  }

  predicate IsPull(a: Artifact, number: nat) {
    a.kind == PullRequest && IdentityOf(a) == ByNumber(number)
  }

  /** Position of the first artifact that is the pull request of the number. */
  function FindPull(artifacts: seq<Artifact>, number: nat): Option<nat> {
    if artifacts == [] then None
    else if IsPull(artifacts[0], number) then Some(0)
    else
      match FindPull(artifacts[1..], number)
      case None => None
      case Some(i) => Some(i + 1)
  }

  /** Out of draft: a verification that was made keeps everything but its draft flag. */
  function LeftDraft(a: Artifact): Artifact {
    if a.verification.Some? && a.verification.value.Verified? then
      a.(verification := Some(a.verification.value.(asDraft := false)))
    else
      a
  }

  function RecordReady(s: State, id: nat, url: PullUrl, actor: Principal, head: string,
    reviewItem: nat): Checked<State> {
    if !actor.Decides() then Refused(WrongPrincipal)
    else
      match CompletedRefusal(s, id)
      case Some(why) => Refused(why)
      case None =>
        var artifacts := s.rows[id].result.value.artifacts;
        match FindPull(artifacts, url.number)
        case None => Refused(ArtifactUnknown)
        case Some(i) =>
          if i >= |artifacts| then Refused(ArtifactUnknown)
          else
            Accepted(Touch(s, id, WithArtifacts(s.rows[id], artifacts[i := LeftDraft(artifacts[i])], s.clock),
              ArtifactReady(url.text, head, reviewItem), actor))
  }

  // ----- repositories and the environment -----------------------------------------------------

  function Lower(text: string): string {
    seq(|text|, i requires 0 <= i < |text| =>
      if 'A' <= text[i] <= 'Z' then (text[i] as int + 32) as char else text[i])
  }

  function Renamed(rows: seq<Row>, from: string, to: string): seq<Row> {
    seq(|rows|, i requires 0 <= i < |rows| =>
      if rows[i].repository == from then rows[i].(repository := to) else rows[i])
  }

  function Rename(s: State, from: string, to: string, actor: Principal): Checked<State> {
    if !actor.Decides() then Refused(WrongPrincipal)
    else if Lower(from) == Lower(to) then Refused(SameRepository)
    else if from !in s.repos then Refused(RepositoryUnknown)
    else if to in s.repos then Refused(RepositoryExists)
    else Accepted(s.(repos := s.repos[to := s.repos[from]] - {from}, rows := Renamed(s.rows, from, to)))
  }

  // ----- operations ------------------------------------------------------------------------------

  datatype Op =
    | OpTick(elapsed: nat)
    | OpEligible(eligible: Option<set<string>>)
    | OpAuthorities(authorities: Option<map<string, PolicyAuthority>>)
    | OpEnable(repository: string, enabled: bool)
    | OpRename(from: string, to: string, actor: Principal)
    | OpSeed(repository: string, root: Root)
    | OpBatch(repository: string, candidates: seq<Candidate>, override: Option<int>)
    | OpImport(repository: string, imports: seq<Import>)
    | OpCure(repository: string, root: Root, ref: SourceRef, cure: Cure)
    | OpReview(repository: string, root: Root, ref: SourceRef, review: Review)
    | OpPredecessors(id: nat, refs: seq<SourceRef>, actor: Principal)
    | OpClaim(q: ClaimQuery, choice: Option<nat>)
    | OpHeartbeat(id: nat, token: nat, worker: Principal, seconds: Option<int>)
    | OpComplete(id: nat, token: nat, worker: Principal, result: WorkResult, followUps: seq<Proposal>,
      verdict: Option<Verdict>)
    | OpBlock(id: nat, token: nat, worker: Principal, reason: string)
    | OpRelease(id: nat, token: nat, worker: Principal, reason: string)
    | OpApprove(id: nat, actor: Principal, seen: Option<Precondition>)
    | OpDefer(id: nat, actor: Principal, reason: string, seen: Option<Precondition>)
    | OpNote(id: nat, actor: Principal, reason: string, seen: Option<Precondition>)
    | OpPrioritize(id: nat, actor: Principal, priority: int, reason: string, seen: Option<Precondition>)
    | OpReject(id: nat, actor: Principal, reason: string, seen: Option<Precondition>)
    | OpRequeue(id: nat, actor: Principal, reason: string, seen: Option<Precondition>)
    | OpReleaseLease(id: nat, actor: Principal, reason: string, seen: Option<Precondition>)
    | OpCancel(id: nat, actor: Principal, reason: string, seen: Option<Precondition>)
    | OpRetire(id: nat, actor: Principal, reason: string)
    | OpVerify(id: nat, url: string, verification: Verification, actor: Principal)
    | OpAttach(id: nat, actor: Principal, artifact: Artifact, seen: Option<Precondition>)
    | OpReady(id: nat, pull: PullUrl, actor: Principal, head: string, reviewItem: nat)

  function Perform(s: State, op: Op): Checked<State> {
    match op
    case OpTick(elapsed) => Accepted(s.(clock := s.clock + elapsed))
    case OpEligible(eligible) => Accepted(s.(eligible := eligible))
    case OpAuthorities(authorities) => Accepted(s.(authorities := authorities))
    case OpEnable(repository, enabled) => Accepted(s.(repos := s.repos[repository := enabled]))
    case OpRename(from, to, actor) => Rename(s, from, to, actor)
    case OpSeed(repository, root) => EnqueueSeed(s, repository, root)
    case OpBatch(repository, candidates, override) =>
      (match EnqueueBatch(s, repository, candidates, override)
       case Accepted(batch) => Accepted(batch.state)
       case Refused(why) => Refused(why))
    case OpImport(repository, imports) => EnqueueProposed(s, repository, imports)
    case OpCure(repository, root, ref, cure) => EnqueueCure(s, repository, root, ref, cure)
    case OpReview(repository, root, ref, review) => EnqueueReview(s, repository, root, ref, review)
    case OpPredecessors(id, refs, actor) => ReplacePredecessors(s, id, refs, actor)
    case OpClaim(q, choice) => Claim(s, q, choice)
    case OpHeartbeat(id, token, worker, seconds) => Heartbeat(s, id, token, worker, seconds)
    case OpComplete(id, token, worker, result, followUps, verdict) =>
      Complete(s, id, token, worker, result, followUps, verdict)
    case OpBlock(id, token, worker, reason) => BlockWork(s, id, token, worker, reason)
    case OpRelease(id, token, worker, reason) => ReleaseWork(s, id, token, worker, reason)
    case OpApprove(id, actor, seen) => Approve(s, id, actor, seen)
    case OpDefer(id, actor, reason, seen) => Defer(s, id, actor, reason, seen)
    case OpNote(id, actor, reason, seen) => AddNote(s, id, actor, reason, seen)
    case OpPrioritize(id, actor, priority, reason, seen) => Prioritize(s, id, actor, priority, reason, seen)
    case OpReject(id, actor, reason, seen) => Reject(s, id, actor, reason, seen)
    case OpRequeue(id, actor, reason, seen) => Requeue(s, id, actor, reason, seen)
    case OpReleaseLease(id, actor, reason, seen) => ReleaseLease(s, id, actor, reason, seen)
    case OpCancel(id, actor, reason, seen) => Cancel(s, id, actor, reason, seen)
    case OpRetire(id, actor, reason) => Retire(s, id, actor, reason)
    case OpVerify(id, url, verification, actor) => RecordVerification(s, id, url, verification, actor)
    case OpAttach(id, actor, artifact, seen) => Attach(s, id, actor, artifact, seen)
    case OpReady(id, url, actor, head, reviewItem) => RecordReady(s, id, url, actor, head, reviewItem)
  }

  /** One transaction or environment move: a refused one leaves the state alone. */
  ghost predicate Step(s: State, op: Op, next: State) {
    && (op.OpClaim? && ClaimRefusal(op.q).None? ==> ClaimAnswer(s, op.q, op.choice))
    && match Perform(s, op)
       case Accepted(t) => next == t
       case Refused(_) => next == s
  }

  ghost predicate StepAt(trace: seq<State>, ops: seq<Op>, i: nat)
    requires i < |ops| && |trace| == |ops| + 1
  {
    Step(trace[i], ops[i], trace[i + 1])
  }

  /** A run of the queue from an empty database: `trace[i]` is the state before `ops[i]`. */
  ghost predicate Run(trace: seq<State>, ops: seq<Op>) {
    && |trace| == |ops| + 1
    && trace[0] == EMPTY
    && forall i: nat :: i < |ops| ==> StepAt(trace, ops, i)
  }
}
