/**
 * The delivery contract of a work item: which combinations of kind, actions,
 * required artifact, and execution target somebody can actually deliver.
 */
module Contracts {
  import opened WorkTypes

  /**
   * What the contract rule looks at. `delegable` and `parentDelegable` are
   * supplied only by the callers that have them.
   */
  datatype Terms = Terms(
    kind: string,
    allowed: seq<Action>,
    delegable: Option<seq<Action>>,
    required: RequiredArtifact,
    target: Option<ExecutionTarget>,
    bound: bool,
    child: bool,
    parentDelegable: Option<seq<Action>>)

  predicate DiscoveryKind(kind: string) {
    EndsWith(kind, "-discovery")
  }

  predicate MutatingTarget(target: Option<ExecutionTarget>) {
    target == Some(NewPullRequest) || target == Some(ExistingPullRequest)
  }

  /** The parent could delegate proposing, so a change child must be able to propose. */
  predicate CannotPropose(t: Terms) {
    && Write in t.allowed
    && t.parentDelegable.Some?
    && CreateFollowup in t.parentDelegable.value
    && (CreateFollowup !in t.allowed || t.delegable == Some([]))
  }

  function ContractProblem(t: Terms): Option<ProblemCode> {
    if DiscoveryKind(t.kind) && (t.required == RequiredPullRequest || Write in t.allowed || OpenPr in t.allowed) then
      Some(DiscoveryKindWithChange)
    else if t.required == RequiredPullRequest && OpenPr !in t.allowed then
      Some(RequiredPullRequestWithoutOpenPr)
    else if Write in t.allowed && OpenPr !in t.allowed then
      Some(WriteWithoutOpenPr)
    else if t.child && Write in t.allowed && t.required != RequiredPullRequest then
      Some(ChildWriteWithoutPullRequest)
    else if CannotPropose(t) then
      Some(ChangeChildCannotPropose)
    else if t.target == Some(ReadOnly) && (Write in t.allowed || OpenPr in t.allowed) then
      Some(ReadOnlyWithMutation)
    else if t.target == Some(ReadOnly) && t.required != NoArtifact then
      Some(ReadOnlyRequiredPullRequest)
    else if MutatingTarget(t.target) && (Write !in t.allowed || OpenPr !in t.allowed) then
      Some(MutatingTargetWithoutWrite)
    else if MutatingTarget(t.target) && t.required != RequiredPullRequest then
      Some(MutatingTargetWithoutPullRequest)
    else if t.kind == CURE_CHANGE_KIND && t.target.Some? && t.target != Some(ExistingPullRequest) then
      Some(CureChangeWithoutExistingTarget)
    else if t.target == Some(ExistingPullRequest) && !t.bound then
      Some(ExistingPullRequestWithoutBinding)
    else
      None
  }

  /** A read-only item: it mutates nothing and owes nothing. */
  predicate DeliverableReading(t: Terms) {
    && Write !in t.allowed
    && OpenPr !in t.allowed
    && t.required == NoArtifact
    && t.kind != CURE_CHANGE_KIND
  }

  /** A change: it may write and publish, owes its pull request, and can report what else it finds. */
  predicate DeliverableChange(t: Terms) {
    && Write in t.allowed
    && OpenPr in t.allowed
    && t.required == RequiredPullRequest
    && !DiscoveryKind(t.kind)
    && !CannotPropose(t)
    && (t.kind == CURE_CHANGE_KIND ==> t.target == Some(ExistingPullRequest))
    && (t.target == Some(ExistingPullRequest) ==> t.bound)
  }

  /**
   * The eleven ordered rules accept a contract with a declared target exactly
   * when it is deliverable, whether or not the item is a child.
   */
  lemma AcceptedIffDeliverable(t: Terms)
    requires t.target.Some?
    ensures ContractProblem(t).None? <==>
            if t.target.value == ReadOnly then DeliverableReading(t) else DeliverableChange(t)
  {
    match t.target.value
    case ReadOnly =>
    case NewPullRequest =>
    case ExistingPullRequest =>
      assert MutatingTarget(t.target);
  }

  /** Knowing less about the parent or the item's own ceiling never adds a problem. */
  lemma LessContextNoNewProblem(t: Terms, less: Terms)
    requires ContractProblem(t).None? && t.target.Some?
    requires less == t.(delegable := less.delegable, parentDelegable := less.parentDelegable, child := less.child)
    requires less.parentDelegable.None? ||
             (less.parentDelegable == t.parentDelegable && less.delegable == t.delegable)
    ensures ContractProblem(less).None?
  {
    AcceptedIffDeliverable(t);
    AcceptedIffDeliverable(less);
  }
}
