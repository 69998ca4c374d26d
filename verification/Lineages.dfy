/** Lineages of work: delegation ceilings, depth, delivery contracts, and the feeder's one lineage per kind. */
module Lineages {
  import opened WorkTypes
  import opened Contracts
  import opened FollowUpIntent
  import opened QueueModel
  import opened QueueWrites
  import opened QueueInvariant

  // ----- ceilings and depth -------------------------------------------------------------

  predicate ProperAncestor(rows: seq<Row>, ancestor: nat, id: nat)
    requires id < |rows|
    decreases id
  {
    match rows[id].def.parent
    case None => false
    case Some(p) => p < id && (ancestor == p || ProperAncestor(rows, ancestor, p))
  }

  lemma {:induction false} CeilingReachesDown(s: State, ancestor: nat, id: nat)
    requires LineagesOk(s) && id < |s.rows| && ProperAncestor(s.rows, ancestor, id)
    ensures ancestor < id
    ensures Subset(s.rows[id].def.allowed, s.rows[ancestor].def.delegable)
    ensures Subset(s.rows[id].def.delegable, s.rows[ancestor].def.delegable)
    ensures s.rows[id].def.rootId == s.rows[ancestor].def.rootId
    ensures s.rows[id].repository == s.rows[ancestor].repository
    decreases id
  {
    assert LineageOk(s.rows, id);
    var p := s.rows[id].def.parent.value;
    if ancestor != p {
      CeilingReachesDown(s, ancestor, p);
    }
  }

  /**
   * In every run, renames included: a descendant holds and delegates only what
   * every proper ancestor could delegate, shares its root and repository, and
   * sits at most four edges deep.
   */
  lemma DelegationStaysUnderEveryAncestor(trace: seq<State>, ops: seq<Op>, i: nat, ancestor: nat, id: nat)
    requires Run(trace, ops) && i < |trace| && id < |trace[i].rows|
    requires ProperAncestor(trace[i].rows, ancestor, id)
    ensures ancestor < id
    ensures var above, item := trace[i].rows[ancestor], trace[i].rows[id];
            && Subset(item.def.allowed, above.def.delegable)
            && Subset(item.def.delegable, above.def.delegable)
            && item.def.rootId == above.def.rootId
            && item.repository == above.repository
    ensures Depth(trace[i].rows, id) <= MAX_LINEAGE_DEPTH
  {
    RunHolds(trace, ops, i);
    CeilingReachesDown(trace[i], ancestor, id);
  }

  // ----- a completion is all or nothing ----------------------------------------------------

  /** The store takes the proposal under the parent: its rules accept it, and the authority lets it be bound. */
  predicate TakesFollowUp(s: State, parent: Row, proposal: Proposal, worker: Principal) {
    match CheckFollowUp(parent, proposal)
    case Refused(_) => false
    case Accepted(f) => BindPolicy(s, parent.repository, f.kind, f.allowed, f.delegable, worker, false).Accepted?
  }

  lemma BindingLooksAtHooks(s: State, t: State, parent: Row, proposal: Proposal, worker: Principal)
    requires t.authorities == s.authorities && t.clock == s.clock
    ensures TakesFollowUp(t, parent, proposal, worker) <==> TakesFollowUp(s, parent, proposal, worker)
  {
    hide CheckFollowUp;
  }

  /** The follow-ups of a completion are added exactly when the store takes every one of them. */
  lemma {:induction false} FollowUpsAcceptedIff(s: State, id: nat, row: Row, proposals: seq<Proposal>,
    worker: Principal)
    ensures AddFollowUps(s, id, row, proposals, worker).Accepted? <==>
              forall k :: 0 <= k < |proposals| ==> TakesFollowUp(s, row, proposals[k], worker)
    decreases |proposals|
  {
    hide CheckFollowUp, BindPolicy;
    if proposals != [] && AddFollowUp(s, id, row, proposals[0], worker).Accepted? {
      var next, rest := AddFollowUp(s, id, row, proposals[0], worker).value, proposals[1..];
      FollowUpsAcceptedIff(next, id, row, rest, worker);
      forall k | 0 <= k < |rest|
        ensures TakesFollowUp(next, row, rest[k], worker) <==> TakesFollowUp(s, row, proposals[k + 1], worker)
      {
        BindingLooksAtHooks(s, next, row, rest[k], worker);
      }
      assert forall k :: 0 < k < |proposals| ==> proposals[k] == rest[k - 1];
    }
  }

  /**
   * A completion with one follow-up refused - for its shape, its contract, its
   * parent's ceiling, or by the policy authority - is refused whole, whatever
   * else it proposes.
   */
  lemma RefusedFollowUpChangesNothing(s: State, op: Op, t: State, k: nat)
    requires op.OpComplete? && op.id < |s.rows| && k < |op.followUps|
    requires !TakesFollowUp(s, s.rows[op.id], op.followUps[k], op.worker)
    requires Step(s, op, t)
    ensures t == s
  {
    hide CheckFollowUp, BindPolicy, Finish, ArtifactsProblem, ReviewProblem, LeaseRefusal;
    FollowUpsAcceptedIff(s, op.id, s.rows[op.id], op.followUps, op.worker);
  }

  /**
   * What a follow-up becomes in the table, apart from its policy binding: its
   * compiled contract under the parent, unadmitted, at the parent's priority,
   * bound to the parent's cure if it changes that very pull request.
   */
  predicate IsChildOf(child: Row, s: State, parentId: nat, parent: Row, proposal: Proposal, worker: Principal) {
    && CheckFollowUp(parent, proposal).Accepted?
    && CheckFollowUp(parent, proposal) == Normalize(Parent(parent.def.delegable, parent.def.cure), proposal)
    && var f := CheckFollowUp(parent, proposal).value;
       && child.def ==
            Definition(parent.def.rootId, Some(parentId), f.kind, f.brief, f.allowed, f.delegable, f.required,
              Some(f.target), worker, s.clock, None,
              if f.kind == CURE_CHANGE_KIND && f.target == ExistingPullRequest then parent.def.cure else None)
       && child.repository == parent.repository && child.priority == parent.priority
       && child.stored == Queued && !child.admitted && child.updatedAt == s.clock
       && child.predecessors.None? && child.review.None? && child.lease.None? && child.result.None?
       && child.notes == [] && child.previous == []
  }

  /** The event that records the child's creation. */
  predicate ChildRecorded(e: Event, child: nat, worker: Principal, now: int) {
    e.item == child && e.actor == worker && e.at == now && e.body == WorkProposed(None)
  }

  /** Proposal `k` is the `k`th of the new rows, and the `k`th of the new events records it. */
  predicate ChildAdded(s: State, t: State, id: nat, row: Row, proposals: seq<Proposal>, k: nat, worker: Principal) {
    && k < |proposals| && |s.rows| + k < |t.rows| && |s.ledger| + k < |t.ledger|
    && IsChildOf(t.rows[|s.rows| + k], s, id, row, proposals[k], worker)
    && ChildRecorded(t.ledger[|s.ledger| + k], |s.rows| + k, worker, s.clock)
  }

  lemma OneChild(s: State, id: nat, row: Row, proposal: Proposal, worker: Principal)
    requires AddFollowUp(s, id, row, proposal, worker).Accepted?
    ensures var t := AddFollowUp(s, id, row, proposal, worker).value;
            && t.rows == s.rows + [t.rows[|s.rows|]] && t.ledger == s.ledger + [t.ledger[|s.ledger|]]
            && t.clock == s.clock
            && IsChildOf(t.rows[|s.rows|], s, id, row, proposal, worker)
            && ChildRecorded(t.ledger[|s.ledger|], |s.rows|, worker, s.clock)
  {
    hide Normalize, ContractProblem, DefinitionProblem, BindPolicy;
  }

  lemma {:induction false} FollowUpsAreChildren(s: State, id: nat, row: Row, proposals: seq<Proposal>,
    worker: Principal)
    requires AddFollowUps(s, id, row, proposals, worker).Accepted?
    ensures var t := AddFollowUps(s, id, row, proposals, worker).value;
            && |t.rows| == |s.rows| + |proposals| && t.rows[..|s.rows|] == s.rows && t.clock == s.clock
            && |t.ledger| == |s.ledger| + |proposals| && t.ledger[..|s.ledger|] == s.ledger
            && forall k: nat :: k < |proposals| ==> ChildAdded(s, t, id, row, proposals, k, worker)
    decreases |proposals|
  {
    hide CheckFollowUp, AddFollowUp, IsChildOf;
    if proposals != [] {
      OneChild(s, id, row, proposals[0], worker);
      var next := AddFollowUp(s, id, row, proposals[0], worker).value;
      FollowUpsAreChildren(next, id, row, proposals[1..], worker);
      var t := AddFollowUps(s, id, row, proposals, worker).value;
      assert t.rows[|s.rows|] == t.rows[..|next.rows|][|s.rows|];
      assert t.ledger[|s.ledger|] == t.ledger[..|next.ledger|][|s.ledger|];
      assert t.ledger[..|s.ledger|] == t.ledger[..|next.ledger|][..|s.ledger|];
      forall k: nat | k < |proposals|
        ensures ChildAdded(s, t, id, row, proposals, k, worker)
      {
        if k > 0 {
          assert ChildAdded(next, t, id, row, proposals[1..], k - 1, worker);
          SameChild(t.rows[|s.rows| + k], next, s, id, row, proposals[k], worker);
        }
      }
    }
  }

  lemma SameChild(child: Row, s: State, t: State, parentId: nat, parent: Row, proposal: Proposal, worker: Principal)
    requires IsChildOf(child, s, parentId, parent, proposal, worker) && t.clock == s.clock
    ensures IsChildOf(child, t, parentId, parent, proposal, worker)
  {
    hide CheckFollowUp, Normalize;
  }

  /** The review record with the verdict that was given, if one was. */
  function WithVerdict(review: Option<Review>, verdict: Option<Verdict>): Option<Review> {
    if review.Some? && verdict.Some? then
      Some(review.value.(decision := Some(verdict.value.decision), blockers := verdict.value.blockers))
    else review
  }

  /** The completion's own events: the completion with its children and, for a verdict, the review. */
  function CompletionBodies(row: Row, children: seq<nat>, verdict: Option<Verdict>): seq<EventBody> {
    [WorkCompleted(children)]
      + if verdict.Some? && row.review.Some? then
          [WorkReviewed(verdict.value.decision, row.review.value.round, row.review.value.headSha)]
        else []
  }

  /** From the position on, the ledger holds one event of the item for each body, and nothing after. */
  predicate RecordedInOrder(ledger: seq<Event>, from: nat, id: nat, actor: Principal, now: int,
    bodies: seq<EventBody>) {
    && |ledger| == from + |bodies|
    && forall k :: 0 <= k < |bodies| ==> ledger[from..][k] == Event(from + k + 1, id, actor, now, bodies[k])
  }

  /**
   * A committed completion adds exactly its proposals, compiled, in order, and
   * completes the parent: it stores the result and the verdict, ends the
   * lease, and records the children before the completion.
   */
  lemma CompletionAddsExactlyItsFollowUps(s: State, op: Op)
    requires op.OpComplete? && Perform(s, op).Accepted?
    ensures op.id < |s.rows|
    ensures var t, n := Perform(s, op).value, |op.followUps|;
            var bodies := CompletionBodies(s.rows[op.id],
                            seq(n, k requires 0 <= k < n => |s.rows| + k), op.verdict);
            && |t.rows| == |s.rows| + n
            && (forall i :: 0 <= i < |s.rows| && i != op.id ==> t.rows[i] == s.rows[i])
            && t.rows[op.id] == s.rows[op.id].(stored := Completed, result := Some(op.result),
                 review := WithVerdict(s.rows[op.id].review, op.verdict), lease := None, updatedAt := s.clock)
            && (forall k: nat :: k < n ==>
                  ChildAdded(s, t, op.id, s.rows[op.id], op.followUps, k, op.worker))
            && s.ledger <= t.ledger
            && RecordedInOrder(t.ledger, |s.ledger| + n, op.id, op.worker, s.clock, bodies)
  {
    hide EnqueueBatch, AddFollowUps, IsChildOf;
    FollowUpsAreChildren(s, op.id, s.rows[op.id], op.followUps, op.worker);
    var next := AddFollowUps(s, op.id, s.rows[op.id], op.followUps, op.worker).value;
    forall i | 0 <= i < |s.rows| ensures next.rows[i] == s.rows[i] {
      assert next.rows[..|s.rows|][i] == s.rows[i];
    }
    var children := seq(|op.followUps|, k requires 0 <= k < |op.followUps| => |s.rows| + k);
    FinishLeaves(next, op.id, s.rows[op.id], op.worker, op.result, op.verdict, children);
    var t := Finish(next, op.id, s.rows[op.id], op.worker, op.result, op.verdict, children);
    assert Perform(s, op).value == t;
    forall k: nat | k < |op.followUps|
      ensures ChildAdded(s, t, op.id, s.rows[op.id], op.followUps, k, op.worker)
    {
      assert ChildAdded(s, next, op.id, s.rows[op.id], op.followUps, k, op.worker);
      assert t.ledger[|s.ledger| + k] == next.ledger[|s.ledger| + k];
    }
  }

  lemma FinishLeaves(s: State, id: nat, row: Row, worker: Principal, result: WorkResult, verdict: Option<Verdict>,
    children: seq<nat>)
    requires id < |s.rows|
    ensures var t, bodies := Finish(s, id, row, worker, result, verdict, children),
                             CompletionBodies(row, children, verdict);
            && t.rows == s.rows[id := row.(stored := Completed, result := Some(result),
                 review := WithVerdict(row.review, verdict), lease := None, updatedAt := s.clock)]
            && s.ledger <= t.ledger
            && RecordedInOrder(t.ledger, |s.ledger|, id, worker, s.clock, bodies)
  {
  }

  /**
   * A shorthand proposal becomes a child exactly when its intent compiles, its
   * kind is neither a discovery kind on a change nor the cure-change kind on
   * anything else, and its kind and brief are well formed: the compiled
   * actions and delivery contract are never the reason to refuse it.
   */
  lemma IntentFollowUpAcceptedIff(parent: Row, p: Proposal)
    requires p.intent.Some?
    ensures CheckFollowUp(parent, p).Accepted? <==>
            && p.stray == {}
            && var n := Normalize(Parent(parent.def.delegable, parent.def.cure), p);
               && n.Accepted?
               && KindOk(n.value.kind) && n.value.brief.Stated()
               && !(FollowUpIntent.Change(p.intent.value) && DiscoveryKind(n.value.kind))
               && !(p.intent.value != ExistingPrChange && n.value.kind == CURE_CHANGE_KIND)
  {
    var compiler := Parent(parent.def.delegable, parent.def.cure);
    if Normalize(compiler, p).Accepted? {
      var f := Normalize(compiler, p).value;
      IntentContractProblemIff(compiler, p);
      IntentStaysInsideCeiling(compiler, p);
      var judged := ChildTerms(compiler, f);
      if ContractProblem(judged).None? {
        LessContextNoNewProblem(judged, judged.(delegable := None, parentDelegable := None, child := false));
      }
    }
  }

  /**
   * A proposal in the long form becomes a child exactly when it declares the
   * whole contract, the contract is one its holder can deliver under the
   * parent, its actions lie inside the parent's ceiling, and its kind and
   * brief are well formed; the child is then what it declares.
   */
  lemma LongFormFollowUpAcceptedIff(parent: Row, p: Proposal)
    requires p.intent.None?
    ensures CheckFollowUp(parent, p).Accepted? <==>
            && p.stray == {}
            && p.kind.Some? && p.allowed.Some? && p.delegable.Some? && p.required.Some? && p.target.Some?
            && KindOk(p.kind.value) && p.brief.Stated()
            && (forall a :: a in p.allowed.value || a in p.delegable.value ==> a in parent.def.delegable)
            && var bound := p.kind.value == CURE_CHANGE_KIND && p.target.value == ExistingPullRequest
                              && parent.def.cure.Some?;
               var t := Terms(p.kind.value, p.allowed.value, p.delegable, p.required.value, p.target, bound, true,
                          Some(parent.def.delegable));
               if p.target.value == ReadOnly then DeliverableReading(t) else DeliverableChange(t)
    ensures CheckFollowUp(parent, p).Accepted? ==>
            Explicit(None, CheckFollowUp(parent, p).value) == p
  {
    if p.kind.Some? && p.allowed.Some? && p.delegable.Some? && p.required.Some? && p.target.Some? {
      var f := NormalizeLegacy(p).value;
      var judged := ChildTerms(Parent(parent.def.delegable, parent.def.cure), f);
      AcceptedIffDeliverable(judged);
      if ContractProblem(judged).None? {
        LessContextNoNewProblem(judged, judged.(delegable := None, parentDelegable := None, child := false));
      }
    }
  }

  // ----- contracts over runs -----------------------------------------------------------------

  /** What the contract audit reports of one row. */
  function AuditProblem(s: State, row: Row): Option<ProblemCode> {
    var problem := ContractProblem(TermsOf(row, None));
    if problem.Some? then problem
    else if row.def.target.None? then Some(UndeclaredTarget)
    else if s.authorities.Some? && row.policy.None? then Some(UnboundPolicy)
    else None
  }

  /** An item as stored satisfies the contract rule with its parent's ceiling, and so without it. */
  lemma StoredContractsStayDeliverable(trace: seq<State>, ops: seq<Op>, i: nat, id: nat)
    requires Run(trace, ops) && i < |trace| && id < |trace[i].rows|
    ensures var row := trace[i].rows[id];
            && ContractProblem(TermsOf(row, DelegableOf(trace[i].rows, row.def.parent))).None?
            && ContractProblem(TermsOf(row, None)).None?
  {
    RunHolds(trace, ops, i);
    assert ContractOk(trace[i].rows, id);
    var full := TermsOf(trace[i].rows[id], DelegableOf(trace[i].rows, trace[i].rows[id].def.parent));
    LessContextNoNewProblem(full, full.(parentDelegable := None));
  }

  /** The audit finds an item exactly when the hook is configured now and the item carries no policy binding. */
  lemma AuditFindsOnlyUnbound(trace: seq<State>, ops: seq<Op>, i: nat, id: nat)
    requires Run(trace, ops) && i < |trace| && id < |trace[i].rows|
    ensures AuditProblem(trace[i], trace[i].rows[id]) ==
            if trace[i].authorities.Some? && trace[i].rows[id].policy.None? then Some(UnboundPolicy) else None
  {
    hide StepAt;
    RunHolds(trace, ops, i);
    assert ContractOk(trace[i].rows, id);
    StoredContractsStayDeliverable(trace, ops, i, id);
  }

  /** Approval is never refused for the contract. */
  lemma ApprovalNeverFailsOnContract(trace: seq<State>, ops: seq<Op>, i: nat, id: nat, actor: Principal,
    seen: Option<Precondition>)
    requires Run(trace, ops) && i < |trace| && id < |trace[i].rows|
    ensures forall code :: Approve(trace[i], id, actor, seen) != Refused(Refusal.Contract(code))
  {
    StoredContractsStayDeliverable(trace, ops, i, id);
    BindingNamesNoContract(trace[i], trace[i].rows[id]);
  }

  lemma {:induction false} OffenceIsNoContract(authority: PolicyAuthority, actions: seq<Action>)
    ensures PolicyOffence(authority, actions).Some? ==> !PolicyOffence(authority, actions).value.Contract?
  {
    if actions != [] { OffenceIsNoContract(authority, actions[1..]); }
  }

  lemma BindingNamesNoContract(s: State, row: Row)
    ensures var bound :=
      BindPolicy(s, row.repository, row.def.kind, row.def.allowed, row.def.delegable, row.def.createdBy, false);
            bound.Refused? ==> !bound.why.Contract?
  {
    if s.authorities.Some? && row.repository in s.authorities.value {
      OffenceIsNoContract(s.authorities.value[row.repository], row.def.allowed + row.def.delegable);
    }
  }

  // ----- one active lineage per kind -----------------------------------------------------------

  /** A lineage whose work is all completed or cancelled stays that way. */
  lemma FinishedLineageStaysFinished(trace: seq<State>, ops: seq<Op>, i: nat, j: nat, root: nat)
    requires Run(trace, ops) && i <= j < |trace| && root < |trace[i].rows|
    requires !LineageActive(trace[i], root)
    ensures !LineageActive(trace[j], root)
  {
    hide Run;
    RunKeeps(trace, ops, i, j);
  }

  /** Non-terminal work of a lineage whose root has the kind. */
  predicate ActiveOf(rows: seq<Row>, id: nat, kind: string)
    requires id < |rows|
  {
    !rows[id].Terminal() && rows[id].def.rootId < |rows| && rows[rows[id].def.rootId].def.kind == kind
  }

  /** Non-terminal work of the kind in one repository all belongs to one lineage. */
  ghost predicate OneLineage(s: State, kind: string) {
    forall i, j ::
      (0 <= i < |s.rows| && 0 <= j < |s.rows| && s.rows[i].repository == s.rows[j].repository
       && ActiveOf(s.rows, i, kind) && ActiveOf(s.rows, j, kind)) ==>
      s.rows[i].def.rootId == s.rows[j].def.rootId
  }

  /** Rows past `from` that a step added are not roots of the kind. */
  ghost predicate NoNewRoots(rows: seq<Row>, from: nat, kind: string) {
    forall i :: from <= i < |rows| ==> rows[i].def.parent.Some? || rows[i].def.kind != kind
  }

  ghost predicate RootsInRange(s: State) {
    forall i :: 0 <= i < |s.rows| ==> s.rows[i].def.rootId <= i
  }

  lemma {:induction false} RootBelow(s: State, id: nat)
    requires LineagesOk(s) && id < |s.rows|
    ensures s.rows[id].def.rootId <= id
    decreases id
  {
    assert LineageOk(s.rows, id);
    if s.rows[id].def.parent.Some? { RootBelow(s, s.rows[id].def.parent.value); }
  }

  lemma RootsBelow(s: State)
    requires LineagesOk(s)
    ensures RootsInRange(s)
  {
    forall i | 0 <= i < |s.rows| ensures s.rows[i].def.rootId <= i { RootBelow(s, i); }
  }

  lemma WriteKeepsOneLineage(s: State, w: Write, t: State, kind: string)
    requires Shaped(s) && RootsInRange(s) && OneLineage(s, kind) && Outline(s, w, t)
    requires w.Add? ==> w.row.def.parent.Some? || w.row.def.kind != kind
    ensures OneLineage(t, kind)
  {
    OutlineKeepsItems(s, w, t);
    forall i, j | 0 <= i < |t.rows| && 0 <= j < |t.rows|
      && ActiveOf(t.rows, i, kind) && ActiveOf(t.rows, j, kind) && t.rows[i].repository == t.rows[j].repository
      ensures t.rows[i].def.rootId == t.rows[j].def.rootId
    {
      var a, b := Before(s, w, t, i, kind), Before(s, w, t, j, kind);
      if w.Renaming? {
        assert s.rows[a].repository != w.to && s.rows[b].repository != w.to;
      }
      assert s.rows[a].repository == s.rows[b].repository;
    }
  }

  /** The work in the earlier state that an active item of the kind goes back to. */
  ghost function Before(s: State, w: Write, t: State, i: nat, kind: string): (a: nat)
    requires Shaped(s) && RootsInRange(s) && Outline(s, w, t) && i < |t.rows| && ActiveOf(t.rows, i, kind)
    requires w.Add? ==> w.row.def.parent.Some? || w.row.def.kind != kind
    ensures a < |s.rows| && ActiveOf(s.rows, a, kind)
    ensures s.rows[a].def.rootId == t.rows[i].def.rootId
    ensures if w.Renaming? then
      t.rows[i].repository == (if s.rows[a].repository == w.from then w.to else s.rows[a].repository)
            else s.rows[a].repository == t.rows[i].repository
  {
    if i < |s.rows| then i else w.row.def.parent.value
  }

  lemma {:induction false} ChainKeepsOneLineage(states: seq<State>, writes: seq<Write>, kind: string)
    requires Chain(states, writes) && Inv(states[0]) && OneLineage(states[0], kind)
    requires NoNewRoots(states[|writes|].rows, |states[0].rows|, kind)
    ensures OneLineage(states[|writes|], kind)
    decreases |writes|
  {
    if writes != [] {
      var n := |writes| - 1;
      assert Chain(states[..n + 1], writes[..n]);
      ChainKeeps(states[..n + 1], writes[..n]);
      WriteKeepsInv(states[n], writes[n], states[n + 1]);
      LawfulOutline(states[n], writes[n], states[n + 1]);
      OutlineKeepsItems(states[n], writes[n], states[n + 1]);
      forall i | |states[0].rows| <= i < |states[n].rows|
        ensures states[n].rows[i].def.parent.Some? || states[n].rows[i].def.kind != kind
      {
        assert states[n + 1].rows[i].def == states[n].rows[i].def;
      }
      ChainKeepsOneLineage(states[..n + 1], writes[..n], kind);
      if writes[n].Add? {
        assert states[n + 1].rows[|states[n].rows|] == writes[n].row;
      }
      RootsBelow(states[n]);
      WriteKeepsOneLineage(states[n], writes[n], states[n + 1], kind);
    }
  }

  /** Inserting a root of a kind that has no active lineage in the repository. */
  lemma NewRootKeepsOneLineage(s: State, t: State, row: Row, kind: string)
    requires RootsInRange(s) && OneLineage(s, kind)
    requires t.rows == s.rows + [row] && row.def.parent.None? && row.def.rootId == |s.rows|
    requires row.def.kind !in ActiveRootKinds(s.rows, row.repository)
    ensures OneLineage(t, kind) && RootsInRange(t)
    ensures forall repository ::
              ActiveRootKinds(t.rows, repository) <= ActiveRootKinds(s.rows, repository) + {row.def.kind}
  {
    forall i | 0 <= i < |s.rows| && s.rows[i].repository == row.repository && !s.rows[i].Terminal()
      ensures s.rows[s.rows[i].def.rootId].def.kind != row.def.kind
    {
      assert s.rows[s.rows[i].def.rootId].def.kind in ActiveRootKinds(s.rows, row.repository);
    }
    forall i, j | 0 <= i < |t.rows| && 0 <= j < |t.rows|
      && ActiveOf(t.rows, i, kind) && ActiveOf(t.rows, j, kind) && t.rows[i].repository == t.rows[j].repository
      ensures t.rows[i].def.rootId == t.rows[j].def.rootId
    {
      if i < |s.rows| && j < |s.rows| {
        assert ActiveOf(s.rows, i, kind) && ActiveOf(s.rows, j, kind);
      }
    }
    forall repository
      ensures ActiveRootKinds(t.rows, repository) <= ActiveRootKinds(s.rows, repository) + {row.def.kind}
    {
      forall k | k in ActiveRootKinds(t.rows, repository)
        ensures k in ActiveRootKinds(s.rows, repository) + {row.def.kind}
      {
        var i :| 0 <= i < |t.rows| && t.rows[i].repository == repository && !t.rows[i].Terminal()
                 && t.rows[i].def.rootId < |t.rows| && t.rows[t.rows[i].def.rootId].def.kind == k;
        if i < |s.rows| {
          assert t.rows[i] == s.rows[i] && t.rows[s.rows[i].def.rootId] == s.rows[s.rows[i].def.rootId];
        }
      }
    }
  }

  ghost predicate BatchOk(b: Batch, repository: string, kind: string) {
    RootsInRange(b.state) && OneLineage(b.state, kind) && ActiveRootKinds(b.state.rows, repository) <= b.active
  }

  lemma BatchOneKeepsOneLineage(start: State, b: Batch, repository: string, c: Candidate, override: Option<int>,
    kind: string)
    requires BatchOk(b, repository, kind) && BatchOne(start, b, repository, c, override).Accepted?
    ensures BatchOk(BatchOne(start, b, repository, c, override).value, repository, kind)
  {
    var next := BatchOne(start, b, repository, c, override).value;
    if next.state != b.state {
      NewRootKeepsOneLineage(b.state, next.state, next.state.rows[|b.state.rows|], kind);
    }
  }

  lemma {:induction false} BatchKeepsOneLineage(start: State, b: Batch, repository: string, candidates: seq<Candidate>,
    override: Option<int>, kind: string)
    requires BatchOk(b, repository, kind) && BatchFrom(start, b, repository, candidates, override).Accepted?
    ensures OneLineage(BatchFrom(start, b, repository, candidates, override).value.state, kind)
    decreases |candidates|
  {
    if candidates != [] {
      BatchOneKeepsOneLineage(start, b, repository, candidates[0], override, kind);
      BatchKeepsOneLineage(start, BatchOne(start, b, repository, candidates[0], override).value,
        repository, candidates[1..], override, kind);
    }
  }

  lemma BatchStepKeepsOneLineage(s: State, op: Op, kind: string)
    requires Inv(s) && OneLineage(s, kind) && op.OpBatch? && Perform(s, op).Accepted?
    ensures OneLineage(Perform(s, op).value, kind)
  {
    hide Complete;
    RootsBelow(s);
    BatchKeepsOneLineage(s, Batch(s, ActiveRootKinds(s.rows, op.repository), []), op.repository, op.candidates,
      op.override, kind);
  }

  lemma LeadsKeepsOneLineage(s: State, t: State, kind: string)
    requires Inv(s) && OneLineage(s, kind) && Leads(s, t) && NoNewRoots(t.rows, |s.rows|, kind)
    ensures OneLineage(t, kind)
  {
    var states, writes :| ChainBetween(s, states, writes, t);
    ChainKeepsOneLineage(states, writes, kind);
  }

  lemma StepKeepsOneLineage(s: State, op: Op, t: State, kind: string)
    requires Inv(s) && OneLineage(s, kind) && Step(s, op, t)
    requires op.OpBatch? || NoNewRoots(t.rows, |s.rows|, kind)
    ensures OneLineage(t, kind)
  {
    hide Perform;
    if op.OpBatch? {
      if Perform(s, op).Accepted? { BatchStepKeepsOneLineage(s, op, kind); }
    } else {
      StepLeads(s, op, t);
      LeadsKeepsOneLineage(s, t, kind);
    }
  }

  /**
   * If a kind's roots come only from the feeder's batches, every reachable
   * state has at most one non-terminal lineage of the kind per repository.
   */
  lemma {:induction false} FeederKeepsOneLineage(trace: seq<State>, ops: seq<Op>, i: nat, kind: string)
    requires Run(trace, ops) && i < |trace|
    requires forall k :: 0 <= k < i ==> ops[k].OpBatch? || NoNewRoots(trace[k + 1].rows, |trace[k].rows|, kind)
    ensures OneLineage(trace[i], kind)
  {
    hide Step;
    if i > 0 {
      FeederKeepsOneLineage(trace, ops, i - 1, kind);
      RunHolds(trace, ops, i - 1);
      assert StepAt(trace, ops, i - 1);
      StepKeepsOneLineage(trace[i - 1], ops[i - 1], trace[i], kind);
    }
  }
}
