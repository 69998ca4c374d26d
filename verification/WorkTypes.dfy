/**
 * The values the work queue stores: actions, principals, artifacts, work-item
 * rows, and ledger events. Identifiers the program checks with a regular
 * expression (URLs, SHAs, repository slugs) are opaque here; a value carries
 * the one fact about its text that a rule reads.
 */
module WorkTypes {
  datatype Option<+T> = None | Some(value: T)

  // ----- actions ------------------------------------------------------------

  datatype Action = Read | Write | RunTests | OpenIssue | OpenPr | CreateFollowup

  /** The closed list, in declaration order: the order every derived action list uses. */
  const ALL_ACTIONS: seq<Action> := [Read, Write, RunTests, OpenIssue, OpenPr, CreateFollowup]

  /** The same actions in the order of their names, which `.sort()` produces. */
  const NAME_ORDER: seq<Action> := [CreateFollowup, OpenIssue, OpenPr, Read, RunTests, Write]

  /** The members of `wanted`, in the order of `order`. */
  function Keep(order: seq<Action>, wanted: set<Action>): seq<Action> {
    if order == [] then []
    else if order[0] in wanted then [order[0]] + Keep(order[1..], wanted)
    else Keep(order[1..], wanted)
  }

  function ToSet(actions: seq<Action>): set<Action> {
    set a | a in actions
  }

  predicate Subset(values: seq<Action>, ceiling: seq<Action>) {
    forall a :: a in values ==> a in ceiling
  }

  // ----- people and programs ------------------------------------------------

  /** A principal, by the namespace its lower-cased name starts with. */
  datatype Principal =
    | Operator(name: string)
    | Policy(name: string)
    | Member(name: string)
    | Worker(name: string)
    | System
  {
    /** May decide about work: approve, defer, requeue, release a lease, cancel. */
    predicate Decides() {
      Operator? || Policy? || Member?
    }

    /** May hold a lease. */
    predicate Works() {
      Member? || Worker?
    }

    /** Its releases count toward the claim backoff. */
    predicate CountsTowardBackoff() {
      !Operator? && !Policy?
    }
  }

  /** Text that trims to nothing. */
  predicate Blank(text: string) {
    forall i :: 0 <= i < |text| ==> text[i] in {' ', '\t', '\n', '\r'}
  }

  predicate EndsWith(text: string, suffix: string) {
    |suffix| <= |text| && text[|text| - |suffix|..] == suffix
  }

  // ----- artifacts and results ----------------------------------------------

  datatype ArtifactKind = Issue | PullRequest | Release | Commit | Report | OtherArtifact

  datatype Observed = Open | Closed | Merged | Published | Draft

  /** `number` is the pull-request number GitHub answered with, for a verified pull request. */
  datatype Verification =
    | Verified(state: Observed, asDraft: bool, number: Option<nat>)
    | Unverified

  /**
   * `within` is the repository the URL names, when it has the GitHub shape of
   * its kind, and `pull` the pull-request number it names, when it names one.
   */
  datatype Artifact = Artifact(
    kind: ArtifactKind,
    url: string,
    within: Option<string>,
    pull: Option<nat>,
    verification: Option<Verification>)

  datatype WorkResult = WorkResult(summary: string, evidence: seq<string>, artifacts: seq<Artifact>)

  /** The result a block, a rejection or a cancellation stores. */
  function ReasonResult(reason: string): WorkResult {
    WorkResult(reason, [], [])
  }

  // ----- contracts ----------------------------------------------------------

  datatype RequiredArtifact = NoArtifact | RequiredPullRequest

  datatype ExecutionTarget = ReadOnly | NewPullRequest | ExistingPullRequest

  const CURE_KIND: string := "pr-cure"
  const CURE_CHANGE_KIND: string := "pr-cure-change"
  const REVIEW_KIND: string := "pr-review"
  const REVIEW_FIX_KIND: string := "pr-review-fix"

  /** A GitHub pull-request URL: its spelling, and the number it names. */
  datatype PullUrl = PullUrl(text: string, number: nat)

  /** A source reference: an issue URL, `<prefix>:<pull URL>@<head>`, or any other text. */
  datatype SourceRef =
    | IssueUrl(text: string)
    | BoundHead(prefix: string, url: PullUrl, head: string)
    | OtherRef(text: string)

  datatype Cure = Cure(url: PullUrl, headSha: string, decay: set<string>)

  datatype Decision = Pass | Block | UnableToReview

  datatype Blocker = Blocker(fingerprint: string, text: string)

  /** The verdict a reviewer supplies on completion. */
  datatype Verdict = Verdict(decision: Decision, blockers: seq<Blocker>, advisories: seq<string>)

  /** The record a review or fix item is bound to; `decision` is merged in on completion. */
  datatype Review = Review(
    url: PullUrl,
    headSha: string,
    round: int,
    priorBlockers: seq<Blocker>,
    reviewItem: Option<nat>,
    decision: Option<Decision>,
    blockers: seq<Blocker>)

  // ----- governance ---------------------------------------------------------

  datatype PolicyDecision = Allow | ReviewRequired | Deny

  datatype PolicyAuthority = PolicyAuthority(
    snapshot: string,
    commit: Option<string>,
    ceiling: set<Action>,
    decisions: map<Action, PolicyDecision>,
    defaultDecision: PolicyDecision)
  {
    function Decide(action: Action): PolicyDecision {
      if action in decisions then decisions[action] else defaultDecision
    }
  }

  datatype Authorization =
    | ByDecision(actor: Principal, covered: seq<Action>, at: int)
    | ByStanding(id: string, adr: string, covered: seq<Action>, at: int)

  datatype PolicyRecord = PolicyRecord(
    snapshot: string,
    commit: Option<string>,
    reviewRequired: seq<Action>,
    authorization: Option<Authorization>)

  datatype Standing = Standing(id: string, adr: string, actions: seq<Action>)

  /** The closed registry of mechanical admission paths. */
  function StandingFor(kind: string): Option<Standing> {
    if kind == CURE_KIND then
      Some(Standing("pr-cure:v1", "ADR-0061", [Read, Write, RunTests, OpenPr, CreateFollowup]))
    else if kind == REVIEW_KIND then
      Some(Standing("pr-review:v1", "ADR-0065", [Read, RunTests]))
    else if kind == REVIEW_FIX_KIND then
      Some(Standing("pr-review-fix:v1", "ADR-0065", [Read, Write, RunTests, OpenPr]))
    else
      None
  }

  // ----- rows ---------------------------------------------------------------

  datatype Brief = Brief(objective: string, instructions: string, criteria: seq<string>)
  {
    predicate Stated() {
      && !Blank(objective)
      && !Blank(instructions)
      && criteria != []
      && forall i :: 0 <= i < |criteria| ==> !Blank(criteria[i])
    }
  }

  /** What an item is; nothing changes it after the row is inserted. */
  datatype Definition = Definition(
    rootId: nat,
    parent: Option<nat>,
    kind: string,
    brief: Brief,
    allowed: seq<Action>,
    delegable: seq<Action>,
    required: RequiredArtifact,
    target: Option<ExecutionTarget>,
    createdBy: Principal,
    createdAt: int,
    sourceRef: Option<SourceRef>,
    cure: Option<Cure>)

  datatype Stored = Queued | Claimed | Completed | Blocked | Cancelled

  /** The status readers see: an unadmitted queued row is `Proposed`. */
  datatype WorkStatus = Proposed | Stands(stored: Stored)

  /** The owner, token and expiry columns, which are always written together. */
  datatype Lease = Lease(owner: Principal, token: nat, expiresAt: int)

  datatype NoteAction = RequeueNote | DeferNote | PrioritizeNote | PlainNote | ReleaseLeaseNote

  datatype Note = Note(at: int, actor: Principal, action: NoteAction, reason: string)

  datatype Row = Row(
    def: Definition,
    repository: string,
    policy: Option<PolicyRecord>,
    priority: int,
    stored: Stored,
    admitted: bool,
    updatedAt: int,
    predecessors: Option<set<SourceRef>>,
    review: Option<Review>,
    lease: Option<Lease>,
    result: Option<WorkResult>,
    notes: seq<Note>,
    previous: seq<WorkResult>)
  {
    function Status(): WorkStatus {
      if stored == Queued && !admitted then Proposed else Stands(stored)
    }

    predicate Terminal() {
      stored == Completed || stored == Cancelled
    }
  }

  // ----- ledger -------------------------------------------------------------

  datatype EventBody =
    | WorkQueued
    | WorkProposed(predecessors: Option<set<SourceRef>>)
    | WorkApproved
    | WorkDeferred(reason: string)
    | WorkNoted(reason: string)
    | WorkPrioritized(was: int, priority: int, reason: string)
    | WorkRejected(reason: string)
    | WorkRequeued(reason: string)
    | WorkClaimed(expiresAt: int)
    | LeaseRenewed(expiresAt: int)
    | LeaseExpired(previousOwner: Principal, expiredAt: int)
    | WorkCompleted(followUps: seq<nat>)
    | WorkReviewed(decision: Decision, round: int, head: string)
    | WorkBlocked(reason: string)
    | WorkReleased(reason: string, taken: Option<(Principal, int)>)
    | WorkCancelled(reason: string)
    | PredecessorsUpdated(now: set<SourceRef>, previous: set<SourceRef>)
    | ArtifactVerified(url: string)
    | ArtifactAttached(url: string)
    | ArtifactReady(url: string, head: string, reviewItem: nat)
  {
    /** Ends the lease the item's last claim took. */
    predicate EndsLease() {
      WorkCompleted? || WorkBlocked? || WorkReleased? || LeaseExpired?
    }

    /** One of the events an attempt is read from. */
    predicate Lifecycle() {
      WorkClaimed? || EndsLease()
    }
  }

  datatype Event = Event(sequence: nat, item: nat, actor: Principal, at: int, body: EventBody)

  // ----- refusals -----------------------------------------------------------

  datatype ProblemCode =
    | DiscoveryKindWithChange
    | RequiredPullRequestWithoutOpenPr
    | WriteWithoutOpenPr
    | ChildWriteWithoutPullRequest
    | ChangeChildCannotPropose
    | ReadOnlyWithMutation
    | ReadOnlyRequiredPullRequest
    | MutatingTargetWithoutWrite
    | MutatingTargetWithoutPullRequest
    | CureChangeWithoutExistingTarget
    | ExistingPullRequestWithoutBinding
    | UndeclaredTarget
    | UnboundPolicy

  datatype Refusal =
    | WrongPrincipal
    | NotFound
    | Stale
    | WrongStatus
    | LeaseMismatch
    | LeaseLapsed
    | BadLeaseSeconds
    | BlankText
    | RepositoryNotEnabled
    | RepositoryUnknown
    | RepositoryExists
    | SameRepository
    | InvalidDefinition
    | Contract(code: ProblemCode)
    | PredecessorsRefused
    | TooManyPredecessors
    | TooManyFollowUps
    | FollowUpNotAllowed
    | LineageTooDeep
    | StrayFollowUpField
    | IntentIncomplete
    | IntentMismatch
    | IntentExceedsCeiling
    | IntentWithoutCure
    | ExceedsCeiling
    | ArtifactNotAllowed
    | ArtifactOutOfScope
    | ArtifactUnknown
    | ArtifactNotVerifiable
    | ArtifactDuplicate
    | RequiredArtifactMissing
    | ReviewMissing
    | ReviewUnexpected
    | ReviewInvalid
    | NoPolicyAuthority
    | OutsideActionCeiling(action: Action)
    | DeniedByPolicy(action: Action)
    | NoStandingAuthorization
    | OutsideStandingAuthorization

  datatype Checked<+T> = Accepted(value: T) | Refused(why: Refusal)
}
