/**
 * Every transaction is a chain of lawful writes: a row changed together with
 * one ledger event, a row added together with its creation event, a renamed
 * repository, or a move of the environment. What holds across one lawful write
 * therefore holds across every run.
 */
module QueueWrites {
  import opened WorkTypes
  import opened Contracts
  import opened FollowUpIntent
  import opened QueueModel

  // ----- lawful changes of one row -----------------------------------------------

  /** What every stored row satisfies on its own. */
  predicate RowShape(row: Row) {
    && (row.stored == Claimed <==> row.lease.Some?)
    && (row.stored == Claimed ==> row.admitted && row.lease.value.owner.Works())
    && (row.stored == Queued || row.stored == Claimed ==> row.result.None?)
    && (row.stored == Completed || row.stored == Cancelled ==> row.result.Some?)
    && (row.stored == Blocked ==> row.result.Some? && row.result.value == ReasonResult(row.result.value.summary))
  }

  /** The item's lease is live and held by the actor. */
  predicate Holds(row: Row, actor: Principal, now: int) {
    row.stored == Claimed && row.lease.Some? && row.lease.value.owner == actor && row.lease.value.expiresAt > now
  }

  /** A merged verdict changes nothing about what the record is bound to. */
  predicate SameBinding(before: Option<Review>, after: Option<Review>) {
    && before.Some? == after.Some?
    && (before.Some? ==>
          after.value == before.value.(decision := after.value.decision, blockers := after.value.blockers))
  }

  /** Every action the item holds or delegates lies inside the authority's ceiling and is not denied. */
  predicate InsideAuthority(a: PolicyAuthority, def: Definition) {
    forall x :: x in def.allowed || x in def.delegable ==> x in a.ceiling && a.Decide(x) != Deny
  }

  /** The row is bound to what the authority answers now for its repository, with this evidence. */
  predicate BoundNow(s: State, row: Row, authorization: Option<Authorization>) {
    && s.authorities.Some?
    && row.repository in s.authorities.value
    && var a := s.authorities.value[row.repository];
       && InsideAuthority(a, row.def)
       && row.policy == Some(PolicyRecord(a.snapshot, a.commit, ReviewRequiredOf(a, row.def.allowed), authorization))
  }

  /** A creator whose creating admitted work is its own decision. */
  predicate HumanCreator(def: Definition) {
    def.createdBy.Operator? || def.createdBy.Member?
  }

  /** Created by a program, the item lies inside the standing entry of its kind. */
  predicate InsideStanding(def: Definition) {
    StandingFor(def.kind).Some? && Subset(def.allowed, StandingFor(def.kind).value.actions)
  }

  /** The evidence recorded for work admitted on creation. */
  function CreationEvidence(def: Definition, reviewRequired: seq<Action>): Option<Authorization> {
    if HumanCreator(def) then Some(ByDecision(def.createdBy, reviewRequired, def.createdAt))
    else
      match StandingFor(def.kind)
      case None => None
      case Some(entry) => Some(ByStanding(entry.id, entry.adr, reviewRequired, def.createdAt))
  }

  function RequiredReviews(row: Row): seq<Action> {
    if row.policy.Some? then row.policy.value.reviewRequired else []
  }

  /** The row a ledger event leaves behind, from the row it finds. */
  predicate Follows(s: State, row: Row, next: Row, body: EventBody, actor: Principal) {
    match body
    case WorkQueued => false
    case WorkProposed(_) => false
    case WorkApproved =>
      && row.stored == Queued && !row.admitted && actor.Decides()
      && next == row.(admitted := true, policy := next.policy, updatedAt := s.clock)
      && (s.authorities.Some? ==> BoundNow(s, next, Some(ByDecision(actor, RequiredReviews(next), s.clock))))
      && (s.authorities.None? ==> next.policy == row.policy)
    case WorkDeferred(reason) =>
      && row.stored == Queued && row.admitted && actor.Decides()
      && next == Noted(row, s.clock, actor, DeferNote, reason).(admitted := false)
    case WorkNoted(reason) => actor.Decides() && next == Noted(row, s.clock, actor, PlainNote, reason)
    case WorkPrioritized(was, priority, reason) =>
      && was == row.priority && (row.stored == Queued || row.stored == Blocked) && actor.Decides()
      && next == Noted(row, s.clock, actor, PrioritizeNote, reason).(priority := priority)
    case WorkRejected(reason) =>
      && row.stored == Queued && !row.admitted && actor.Decides()
      && next == row.(stored := Cancelled, result := Some(ReasonResult(reason)), updatedAt := s.clock)
    case WorkRequeued(reason) =>
      && row.stored == Blocked && row.result.Some? && actor.Decides()
      && next == Noted(row, s.clock, actor, RequeueNote, reason).(
           stored := Queued, result := None, previous := row.previous + [row.result.value], lease := None)
    case WorkClaimed(expiresAt) =>
      && row.stored == Queued && row.admitted && actor.Works() && s.clock < expiresAt
      && next == row.(stored := Claimed, lease := Some(Lease(actor, s.tokens, expiresAt)), updatedAt := s.clock)
    case LeaseRenewed(expiresAt) =>
      && Holds(row, actor, s.clock)
      && next == row.(lease := Some(row.lease.value.(expiresAt := expiresAt)), updatedAt := s.clock)
    case LeaseExpired(owner, expiredAt) =>
      && Lapsed(row, s.clock) && actor == System
      && row.lease.value.owner == owner && row.lease.value.expiresAt == expiredAt
      && next == Struck(row, s.clock)
    case WorkCompleted(_) =>
      && Holds(row, actor, s.clock) && next.result.Some? && SameBinding(row.review, next.review)
      && next == row.(stored := Completed, result := next.result, review := next.review, lease := None,
         updatedAt := s.clock)
      && (row.def.kind == REVIEW_KIND && row.review.Some? ==> next.review.value.decision.Some?)
    case WorkReviewed(_, _, _) => row.stored == Completed && next == row
    case WorkBlocked(reason) =>
      && Holds(row, actor, s.clock)
      && next == row.(stored := Blocked, result := Some(ReasonResult(reason)), lease := None, updatedAt := s.clock)
    case WorkReleased(reason, taken) =>
      && row.stored == Claimed && row.lease.Some?
      && if taken.None? then
           Holds(row, actor, s.clock) && next == row.(stored := Queued, lease := None, updatedAt := s.clock)
         else
           && actor.Decides() && taken.value == (row.lease.value.owner, row.lease.value.expiresAt)
           && next == Noted(row, s.clock, actor, ReleaseLeaseNote, reason).(stored := Queued, lease := None)
    case WorkCancelled(reason) =>
      && ((row.stored == Queued && row.admitted) || row.stored == Blocked) && actor.Decides()
      && next == row.(stored := Cancelled, result := Some(ReasonResult(reason)), lease := None, updatedAt := s.clock)
    case PredecessorsUpdated(now, previous) =>
      && row.stored == Queued && !row.admitted && actor.Decides()
      && previous == (if row.predecessors.Some? then row.predecessors.value else {})
      && next == row.(predecessors := EdgesFrom(now), updatedAt := s.clock)
    case ArtifactVerified(_) =>
      row.stored == Completed && next.result.Some? && next == row.(result := next.result, updatedAt := s.clock)
    case ArtifactAttached(_) =>
      row.stored == Completed && next.result.Some? && next == row.(result := next.result, updatedAt := s.clock)
    case ArtifactReady(_, _, _) =>
      && row.stored == Completed && row.result.Some? && next.result.Some?
      && next == row.(result := next.result, updatedAt := s.clock)
      && Undrafted(row.result.value.artifacts, next.result.value.artifacts)
  }

  /** Edges as a row keeps them: none is absent. */
  function EdgesFrom(refs: set<SourceRef>): Option<set<SourceRef>> {
    if refs == {} then None else Some(refs)
  }

  /** The same artifacts, some of them out of draft. */
  predicate Undrafted(before: seq<Artifact>, after: seq<Artifact>) {
    |after| == |before| && forall k :: 0 <= k < |before| ==> after[k] == before[k] || after[k] == LeftDraft(before[k])
  }

  // ----- lawful new rows --------------------------------------------------------------

  predicate NewRow(s: State, row: Row) {
    && row.stored == Queued
    && row.updatedAt == s.clock && row.def.createdAt == s.clock
    && row.lease.None? && row.result.None? && row.notes == [] && row.previous == []
    && row.def.target.Some?
    && (row.admitted ==> row.predecessors.None?)
    && row.repository in s.repos
    && (row.def.sourceRef.Some? ==> !SourceRefExists(s, row.repository, row.def.sourceRef.value))
    && CreatedBound(s, row)
  }

  /** The binding a row is created with: none without an authority, else evidence exactly when it is admitted. */
  predicate CreatedBound(s: State, row: Row) {
    if s.authorities.None? then row.policy.None?
    else
      && BoundNow(s, row, if row.admitted then CreationEvidence(row.def, RequiredReviews(row)) else None)
      && (row.admitted && !HumanCreator(row.def) ==> InsideStanding(row.def))
  }

  predicate NewRoot(s: State, row: Row) {
    && row.def.parent.None?
    && row.def.rootId == |s.rows|
    && ContractProblem(TermsOf(row, None)).None?
  }

  predicate NewChild(s: State, row: Row) {
    && row.def.parent.Some?
    && row.def.parent.value < |s.rows|
    && var parent := s.rows[row.def.parent.value];
       && parent.stored == Claimed
       && Depth(s.rows, row.def.parent.value) < MAX_LINEAGE_DEPTH
       && row.def.rootId == parent.def.rootId
       && row.repository == parent.repository
       && row.priority == parent.priority
       && !row.admitted && row.review.None? && row.predecessors.None? && row.def.sourceRef.None?
       && Subset(row.def.allowed, parent.def.delegable)
       && Subset(row.def.delegable, parent.def.delegable)
       && ContractProblem(TermsOf(row, Some(parent.def.delegable))).None?
  }

  // ----- writes and chains ---------------------------------------------------------------

  datatype Write =
    | Change(id: nat, row: Row, body: EventBody, actor: Principal)
    | Add(row: Row)
    | Renaming(from: string, to: string)
    | Environment

  function AfterClaim(s: State, body: EventBody): State {
    if body.WorkClaimed? then s.(tokens := s.tokens + 1) else s
  }

  ghost predicate Lawful(s: State, w: Write, t: State) {
    match w
    case Change(id, row, body, actor) =>
      && id < |s.rows|
      && Follows(s, s.rows[id], row, body, actor)
      && (body.WorkClaimed? ==> !BackedOff(s, id) && PredecessorsMet(s.rows, s.rows[id]))
      && t == Touch(AfterClaim(s, body), id, row, body, actor)
    case Add(row) =>
      && NewRow(s, row)
      && (NewRoot(s, row) || NewChild(s, row))
      && t == Insert(s, row, CreationEvent(row))
    case Renaming(from, to) =>
      && from in s.repos && to !in s.repos
      && t == s.(repos := s.repos[to := s.repos[from]] - {from}, rows := Renamed(s.rows, from, to))
    case Environment =>
      && s.clock <= t.clock
      && s.repos.Keys <= t.repos.Keys
      && t == s.(clock := t.clock, repos := t.repos, authorities := t.authorities, eligible := t.eligible)
  }

  ghost predicate Chain(states: seq<State>, writes: seq<Write>) {
    && |states| == |writes| + 1
    && forall i :: 0 <= i < |writes| ==> Lawful(states[i], writes[i], states[i + 1])
  }

  lemma NoRenaming(s: State, w: Write, t: State)
    requires Lawful(s, w, t) && t.repos == s.repos
    ensures !w.Renaming?
  {
  }

  /** The authority hook answers the same, and no repository changes, until the last write of the chain. */
  ghost predicate ChainBetween(s: State, states: seq<State>, writes: seq<Write>, t: State) {
    && Chain(states, writes) && states[0] == s && states[|writes|] == t
    && forall i :: 0 <= i < |writes| ==> states[i].authorities == s.authorities && states[i].repos == s.repos
  }

  /** `t` is reached from `s` by lawful writes. */
  ghost predicate Leads(s: State, t: State) {
    exists states, writes :: ChainBetween(s, states, writes, t)
  }

  lemma LeadsHere(s: State)
    ensures Leads(s, s)
  {
    assert ChainBetween(s, [s], [], s);
  }

  lemma LeadsBy(s: State, w: Write, t: State)
    requires Lawful(s, w, t)
    ensures Leads(s, t)
  {
    assert ChainBetween(s, [s, t], [w], t);
  }

  lemma LeadsOn(s: State, t: State, u: State)
    requires Leads(s, t) && Leads(t, u) && t.authorities == s.authorities && t.repos == s.repos
    ensures Leads(s, u)
  {
    var a, wa :| ChainBetween(s, a, wa, t);
    var b, wb :| ChainBetween(t, b, wb, u);
    var states, writes := a + b[1..], wa + wb;
    forall i | 0 <= i < |writes|
      ensures Lawful(states[i], writes[i], states[i + 1])
    {
      if i < |wa| {
        assert Lawful(a[i], wa[i], a[i + 1]);
      } else {
        assert Lawful(b[i - |wa|], wb[i - |wa|], b[i - |wa| + 1]);
      }
    }
    assert ChainBetween(s, states, writes, u);
  }

  // ----- every committed operation is a chain -------------------------------------------------

  /** What the operations rely on about the stored rows. */
  ghost predicate Shaped(s: State) {
    && (forall i :: 0 <= i < |s.rows| ==> RowShape(s.rows[i]))
    && (forall i :: 0 <= i < |s.rows| ==> s.rows[i].repository in s.repos)
    && (forall i :: 0 <= i < |s.rows| ==> Depth(s.rows, i) <= MAX_LINEAGE_DEPTH)
  }

  /** The binding loop finds nothing exactly when every action is inside the ceiling and not denied. */
  lemma {:induction false} NoOffence(a: PolicyAuthority, actions: seq<Action>)
    ensures PolicyOffence(a, actions).None? <==> forall x :: x in actions ==> x in a.ceiling && a.Decide(x) != Deny
  {
    if actions != [] { NoOffence(a, actions[1..]); }
  }

  lemma BoundPolicy(s: State, repository: string, row: Row)
    requires BindPolicy(s, repository, row.def.kind, row.def.allowed, row.def.delegable, row.def.createdBy,
      row.admitted)
               == Accepted(row.policy)
    requires row.repository == repository && row.def.createdAt == s.clock
    ensures CreatedBound(s, row)
  {
    if s.authorities.Some? {
      NoOffence(s.authorities.value[repository], row.def.allowed + row.def.delegable);
    }
  }

  lemma RootLeads(s: State, repository: string, root: Root, admitted: bool, sourceRef: Option<SourceRef>,
    predecessors: Option<set<SourceRef>>, cure: Option<Cure>, review: Option<Review>)
    requires InsertRoot(s, repository, root, admitted, sourceRef, predecessors, cure, review).Accepted?
    requires RootProblem(root, Bound(sourceRef, cure, review)).None? && repository in s.repos
    requires sourceRef.Some? ==> !SourceRefExists(s, repository, sourceRef.value)
    requires admitted ==> predecessors.None?
    ensures Leads(s, InsertRoot(s, repository, root, admitted, sourceRef, predecessors, cure, review).value)
  {
    var policy := BindPolicy(s, repository, root.kind, root.allowed, root.delegable, root.createdBy, admitted).value;
    var row := RootRow(s, repository, root, admitted, sourceRef, predecessors, cure, review, policy);
    BoundPolicy(s, repository, row);
    var judged := Terms(root.kind, root.allowed, None, Required(root), Some(root.target),
      Bound(sourceRef, cure, review), false, None);
    LessContextNoNewProblem(judged, judged.(delegable := Some(root.delegable)));
    LeadsBy(s, Add(row), Insert(s, row, CreationEvent(row)));
  }

  lemma SameTerms(root: Root, sourceRef: Option<SourceRef>)
    requires RootProblem(root, false).None?
    ensures RootProblem(root, Bound(sourceRef, None, None)).None?
  {
    var t := Terms(root.kind, root.allowed, None, Required(root), Some(root.target), false, false, None);
    AcceptedIffDeliverable(t);
    AcceptedIffDeliverable(t.(bound := Bound(sourceRef, None, None)));
  }

  lemma BatchOneLeads(start: State, b: Batch, repository: string, c: Candidate, override: Option<int>)
    requires repository in b.state.repos && BatchOne(start, b, repository, c, override).Accepted?
    ensures Leads(b.state, BatchOne(start, b, repository, c, override).value.state)
  {
    if c.root.kind in b.active || Cooled(start, repository, c.root.kind, CooldownOf(c, override)) {
      LeadsHere(b.state);
    } else {
      RootLeads(b.state, repository, c.root, true, None, None, None, None);
    }
  }

  lemma BatchOneMoves(start: State, b: Batch, repository: string, c: Candidate, override: Option<int>)
    requires BatchOne(start, b, repository, c, override).Accepted?
    ensures var next := BatchOne(start, b, repository, c, override).value.state;
            next.repos == b.state.repos && next.authorities == b.state.authorities
  {
  }

  lemma {:induction false} BatchLeads(start: State, b: Batch, repository: string, candidates: seq<Candidate>,
    override: Option<int>)
    requires repository in b.state.repos
    requires BatchFrom(start, b, repository, candidates, override).Accepted?
    ensures Leads(b.state, BatchFrom(start, b, repository, candidates, override).value.state)
    decreases |candidates|
  {
    if candidates == [] {
      LeadsHere(b.state);
    } else {
      var next := BatchOne(start, b, repository, candidates[0], override).value;
      BatchOneLeads(start, b, repository, candidates[0], override);
      BatchOneMoves(start, b, repository, candidates[0], override);
      BatchLeads(start, next, repository, candidates[1..], override);
      LeadsOn(b.state, next.state, BatchFrom(start, b, repository, candidates, override).value.state);
    }
  }

  lemma ImportLeads(s: State, repository: string, candidate: Import)
    requires repository in s.repos && EnqueueImport(s, repository, candidate).Accepted?
    ensures Leads(s, EnqueueImport(s, repository, candidate).value)
    ensures var next := EnqueueImport(s, repository, candidate).value;
            next.repos == s.repos && next.authorities == s.authorities
  {
    if SourceRefExists(s, repository, candidate.sourceRef) {
      LeadsHere(s);
    } else {
      SameTerms(candidate.root, Some(candidate.sourceRef));
      RootLeads(s, repository, candidate.root, false, Some(candidate.sourceRef),
        NormalizePredecessors(candidate.root.predecessors).value, None, None);
    }
  }

  lemma {:induction false} ImportsLead(s: State, repository: string, imports: seq<Import>)
    requires repository in s.repos
    requires EnqueueImports(s, repository, imports).Accepted?
    ensures Leads(s, EnqueueImports(s, repository, imports).value)
    decreases |imports|
  {
    if imports == [] {
      LeadsHere(s);
    } else {
      var next := EnqueueImport(s, repository, imports[0]).value;
      ImportLeads(s, repository, imports[0]);
      ImportsLead(next, repository, imports[1..]);
      LeadsOn(s, next, EnqueueImports(s, repository, imports).value);
    }
  }

  lemma CureLeads(s: State, repository: string, root: Root, ref: SourceRef, cure: Cure)
    requires EnqueueCure(s, repository, root, ref, cure).Accepted?
    ensures Leads(s, EnqueueCure(s, repository, root, ref, cure).value)
  {
    if SourceRefExists(s, repository, ref) {
      LeadsHere(s);
    } else {
      RootLeads(s, repository, root, true, Some(ref), None, Some(cure), None);
    }
  }

  lemma ReviewLeads(s: State, repository: string, root: Root, ref: SourceRef, review: Review)
    requires EnqueueReview(s, repository, root, ref, review).Accepted?
    ensures Leads(s, EnqueueReview(s, repository, root, ref, review).value)
  {
    if SourceRefExists(s, repository, ref) {
      LeadsHere(s);
    } else {
      RootLeads(s, repository, root, true, Some(ref), None, None, Some(review));
    }
  }

  lemma SeedLeads(s: State, repository: string, root: Root)
    requires EnqueueSeed(s, repository, root).Accepted?
    ensures Leads(s, EnqueueSeed(s, repository, root).value)
  {
    SameTerms(root, None);
    RootLeads(s, repository, root, true, None, None, None, None);
  }

  lemma CreationLeads(s: State, op: Op)
    requires op.OpSeed? || op.OpBatch? || op.OpImport? || op.OpCure? || op.OpReview?
    requires Perform(s, op).Accepted?
    ensures Leads(s, Perform(s, op).value)
  {
    hide ChainBetween, Complete;
    match op {
      case OpSeed(repository, root) => SeedLeads(s, repository, root);
      case OpBatch(repository, candidates, override) =>
        BatchLeads(s, Batch(s, ActiveRootKinds(s.rows, repository), []), repository, candidates, override);
      case OpImport(repository, imports) => ImportsLead(s, repository, imports);
      case OpCure(repository, root, ref, cure) => CureLeads(s, repository, root, ref, cure);
      case OpReview(repository, root, ref, review) => ReviewLeads(s, repository, root, ref, review);
    }
  }

  /** Striking a lapsed lease changes no completed row and counts no release. */
  lemma StrikeKeepsGates(s: State, id: nat)
    requires id < |s.rows|
    ensures var t := Strike(s, id);
            && History(t, id) == History(s, id) + t.ledger[|s.ledger|..]
            && (BackedOff(t, id) <==> BackedOff(s, id))
            && (PredecessorsMet(s.rows, s.rows[id]) ==> PredecessorsMet(t.rows, t.rows[id]))
  {
    var t := Strike(s, id);
    if t != s {
      var e := t.ledger[|s.ledger|];
      assert t.ledger[..|t.ledger| - 1] == s.ledger;
      assert t.ledger[|s.ledger|..] == [e];
      var h := History(s, id);
      assert (h + [e])[..|h + [e]| - 1] == h;
      if PredecessorsMet(s.rows, s.rows[id]) && s.rows[id].predecessors.Some? {
        forall ref | ref in s.rows[id].predecessors.value
          ensures Satisfied(t.rows, ref)
        {
          var i :| 0 <= i < |s.rows| && s.rows[i].def.sourceRef == Some(ref) && Delivered(s.rows[i]);
          assert t.rows[i] == s.rows[i];
        }
      }
    } else {
      assert t.ledger[|s.ledger|..] == [];
    }
  }

  lemma StrikeLeads(s: State, id: nat)
    requires id < |s.rows| && RowShape(s.rows[id]) && Available(s.rows[id], s.clock)
    ensures Leads(s, Strike(s, id))
    ensures Strike(s, id).rows[id].stored == Queued && Strike(s, id).rows[id].admitted
  {
    if s.rows[id].stored == Claimed {
      var lease := s.rows[id].lease.value;
      LeadsBy(s, Change(id, Struck(s.rows[id], s.clock), LeaseExpired(lease.owner, lease.expiresAt), System),
        Strike(s, id));
    } else {
      LeadsHere(s);
    }
  }

  lemma TakeLeads(s: State, id: nat, worker: Principal, seconds: int)
    requires id < |s.rows| && s.rows[id].stored == Queued && s.rows[id].admitted
    requires worker.Works() && seconds > 0
    requires !BackedOff(s, id) && PredecessorsMet(s.rows, s.rows[id])
    ensures Leads(s, Take(s, id, worker, seconds))
  {
    var t := Take(s, id, worker, seconds);
    LeadsBy(s, Change(id, t.rows[id], WorkClaimed(s.clock + seconds * 1000), worker), t);
  }

  lemma ClaimLeads(s: State, q: ClaimQuery, choice: Option<nat>)
    requires Shaped(s) && Claim(s, q, choice).Accepted? && ClaimAnswer(s, q, choice)
    ensures Leads(s, Claim(s, q, choice).value)
  {
    if choice.None? || choice.value >= |s.rows| {
      LeadsHere(s);
    } else {
      var id := choice.value;
      var seconds := LeaseSeconds(q.leaseSeconds).value;
      assert Claimable(s, q, id);
      StrikeKeepsGates(s, id);
      StrikeLeads(s, id);
      TakeLeads(Strike(s, id), id, q.worker, seconds);
      LeadsOn(s, Strike(s, id), Take(Strike(s, id), id, q.worker, seconds));
    }
  }

  /** While follow-ups are added, the claimed parent and everything else in the table stay put. */
  lemma {:induction false} FollowUpsLead(s: State, id: nat, row: Row, proposals: seq<Proposal>, worker: Principal)
    requires id < |s.rows| && s.rows[id] == row && row.stored == Claimed && row.repository in s.repos
    requires proposals != [] ==> Depth(s.rows, id) < MAX_LINEAGE_DEPTH
    requires AddFollowUps(s, id, row, proposals, worker).Accepted?
    ensures var t := AddFollowUps(s, id, row, proposals, worker).value;
            && Leads(s, t)
            && s.rows <= t.rows
            && t.clock == s.clock && t.authorities == s.authorities && t.repos == s.repos
            && |t.rows| == |s.rows| + |proposals|
    decreases |proposals|
  {
    hide ChainBetween, Normalize, DefinitionProblem;
    if proposals == [] {
      LeadsHere(s);
    } else {
      var f := CheckFollowUp(row, proposals[0]).value;
      var policy := BindPolicy(s, row.repository, f.kind, f.allowed, f.delegable, worker, false).value;
      var child := ChildRow(s, id, row, f, worker, policy);
      var next := AddFollowUp(s, id, row, proposals[0], worker).value;
      BoundPolicy(s, row.repository, child);
      LeadsBy(s, Add(child), next);
      DepthOfPrefix(s.rows, next.rows, id);
      FollowUpsLead(next, id, row, proposals[1..], worker);
      LeadsOn(s, next, AddFollowUps(s, id, row, proposals, worker).value);
    }
  }

  /** Depth looks only at rows below the item. */
  lemma {:induction false} DepthOfPrefix(rows: seq<Row>, more: seq<Row>, id: nat)
    requires id < |rows| <= |more|
    requires forall i :: 0 <= i < |rows| ==> more[i].def == rows[i].def
    ensures Depth(more, id) == Depth(rows, id)
    decreases id
  {
    match rows[id].def.parent
    case None =>
    case Some(p) => if p < id { DepthOfPrefix(rows, more, p); }
  }

  lemma FinishLeads(s: State, id: nat, row: Row, worker: Principal, result: WorkResult,
    verdict: Option<Verdict>, children: seq<nat>)
    requires id < |s.rows| && s.rows[id] == row && Holds(row, worker, s.clock)
    requires ReviewProblem(row, verdict).None?
    ensures Leads(s, Finish(s, id, row, worker, result, verdict, children))
  {
    var done := CompletedRow(s, row, result, verdict);
    var s1 := Touch(s, id, done, WorkCompleted(children), worker);
    LeadsBy(s, Change(id, done, WorkCompleted(children), worker), s1);
    if verdict.Some? && row.review.Some? {
      var body := WorkReviewed(verdict.value.decision, row.review.value.round, row.review.value.headSha);
      var s2 := Touch(s1, id, done, body, worker);
      LeadsBy(s1, Change(id, done, body, worker), s2);
      LeadsOn(s, s1, s2);
    }
  }

  lemma CompleteLeads(s: State, id: nat, token: nat, worker: Principal, result: WorkResult,
    followUps: seq<Proposal>, verdict: Option<Verdict>)
    requires Shaped(s) && Complete(s, id, token, worker, result, followUps, verdict).Accepted?
    ensures Leads(s, Complete(s, id, token, worker, result, followUps, verdict).value)
  {
    var row := s.rows[id];
    FollowUpsLead(s, id, row, followUps, worker);
    var next := AddFollowUps(s, id, row, followUps, worker).value;
    assert next.rows[id] == row;
    var children := seq(|followUps|, i requires 0 <= i < |followUps| => |s.rows| + i);
    FinishLeads(next, id, row, worker, result, verdict, children);
    LeadsOn(s, next, Finish(next, id, row, worker, result, verdict, children));
  }

  /** An operation that changes one row and appends one event is that one write. */
  lemma ChangeLeads(s: State, id: nat, row: Row, body: EventBody, actor: Principal)
    requires id < |s.rows| && Follows(s, s.rows[id], row, body, actor) && !body.WorkClaimed?
    ensures Leads(s, Touch(s, id, row, body, actor))
  {
    LeadsBy(s, Change(id, row, body, actor), Touch(s, id, row, body, actor));
  }

  lemma HeartbeatLeads(s: State, id: nat, token: nat, worker: Principal, seconds: Option<int>)
    requires Shaped(s) && Heartbeat(s, id, token, worker, seconds).Accepted?
    ensures Leads(s, Heartbeat(s, id, token, worker, seconds).value)
  {
    hide Leads;
    var t := Heartbeat(s, id, token, worker, seconds).value;
    ChangeLeads(s, id, t.rows[id], LeaseRenewed(s.clock + LeaseSeconds(seconds).value * 1000), worker);
  }

  lemma BlockLeads(s: State, id: nat, token: nat, worker: Principal, reason: string)
    requires Shaped(s) && BlockWork(s, id, token, worker, reason).Accepted?
    ensures Leads(s, BlockWork(s, id, token, worker, reason).value)
  {
    hide Leads;
    var t := BlockWork(s, id, token, worker, reason).value;
    ChangeLeads(s, id, t.rows[id], WorkBlocked(reason), worker);
  }

  lemma ReleaseLeads(s: State, id: nat, token: nat, worker: Principal, reason: string)
    requires Shaped(s) && ReleaseWork(s, id, token, worker, reason).Accepted?
    ensures Leads(s, ReleaseWork(s, id, token, worker, reason).value)
  {
    hide Leads;
    var t := ReleaseWork(s, id, token, worker, reason).value;
    ChangeLeads(s, id, t.rows[id], WorkReleased(reason, None), worker);
  }

  lemma WorkerLeads(s: State, op: Op)
    requires op.OpHeartbeat? || op.OpBlock? || op.OpRelease?
    requires Shaped(s) && Perform(s, op).Accepted?
    ensures Leads(s, Perform(s, op).value)
  {
    hide Leads, Shaped, Heartbeat, BlockWork, ReleaseWork;
    match op {
      case OpHeartbeat(id, token, worker, seconds) => HeartbeatLeads(s, id, token, worker, seconds);
      case OpBlock(id, token, worker, reason) => BlockLeads(s, id, token, worker, reason);
      case OpRelease(id, token, worker, reason) => ReleaseLeads(s, id, token, worker, reason);
    }
  }

  lemma ApproveLeads(s: State, id: nat, actor: Principal, seen: Option<Precondition>)
    requires Approve(s, id, actor, seen).Accepted?
    ensures Leads(s, Approve(s, id, actor, seen).value)
  {
    var t := Approve(s, id, actor, seen).value;
    if s.authorities.Some? {
      NoOffence(s.authorities.value[s.rows[id].repository], s.rows[id].def.allowed + s.rows[id].def.delegable);
    }
    ChangeLeads(s, id, t.rows[id], WorkApproved, actor);
  }

  lemma DeferLeads(s: State, id: nat, actor: Principal, reason: string, seen: Option<Precondition>)
    requires Defer(s, id, actor, reason, seen).Accepted?
    ensures Leads(s, Defer(s, id, actor, reason, seen).value)
  {
    hide Leads;
    var t := Defer(s, id, actor, reason, seen).value;
    ChangeLeads(s, id, t.rows[id], WorkDeferred(reason), actor);
  }

  lemma NoteLeads(s: State, id: nat, actor: Principal, reason: string, seen: Option<Precondition>)
    requires AddNote(s, id, actor, reason, seen).Accepted?
    ensures Leads(s, AddNote(s, id, actor, reason, seen).value)
  {
    hide Leads;
    var t := AddNote(s, id, actor, reason, seen).value;
    ChangeLeads(s, id, t.rows[id], WorkNoted(reason), actor);
  }

  lemma PrioritizeLeads(s: State, id: nat, actor: Principal, priority: int, reason: string, seen: Option<Precondition>)
    requires Prioritize(s, id, actor, priority, reason, seen).Accepted?
    ensures Leads(s, Prioritize(s, id, actor, priority, reason, seen).value)
  {
    hide Leads;
    var t := Prioritize(s, id, actor, priority, reason, seen).value;
    ChangeLeads(s, id, t.rows[id], WorkPrioritized(s.rows[id].priority, priority, reason), actor);
  }

  lemma PredecessorsLead(s: State, id: nat, refs: seq<SourceRef>, actor: Principal)
    requires ReplacePredecessors(s, id, refs, actor).Accepted?
    ensures Leads(s, ReplacePredecessors(s, id, refs, actor).value)
  {
    hide Leads;
    var t := ReplacePredecessors(s, id, refs, actor).value;
    var edges := NormalizePredecessors(Some(refs)).value;
    assert EdgesFrom(if edges.Some? then edges.value else {}) == edges by {
      assert edges.Some? ==> refs[0] in edges.value;
    }
    ChangeLeads(s, id, t.rows[id], t.ledger[|s.ledger|].body, actor);
  }

  /** Decisions that only annotate the row or change when it runs. */
  lemma SchedulingLeads(s: State, op: Op)
    requires op.OpDefer? || op.OpNote? || op.OpPrioritize? || op.OpPredecessors?
    requires Perform(s, op).Accepted?
    ensures Leads(s, Perform(s, op).value)
  {
    hide Leads, Shaped, Defer, AddNote, Prioritize, ReplacePredecessors, EnqueueBatch, Complete, Claim, EnqueueReview;
    match op {
      case OpDefer(id, actor, reason, seen) => DeferLeads(s, id, actor, reason, seen);
      case OpNote(id, actor, reason, seen) => NoteLeads(s, id, actor, reason, seen);
      case OpPrioritize(id, actor, priority, reason, seen) => PrioritizeLeads(s, id, actor, priority, reason, seen);
      case OpPredecessors(id, refs, actor) => PredecessorsLead(s, id, refs, actor);
    }
  }

  lemma RequeueLeads(s: State, id: nat, actor: Principal, reason: string, seen: Option<Precondition>)
    requires Shaped(s) && Requeue(s, id, actor, reason, seen).Accepted?
    ensures Leads(s, Requeue(s, id, actor, reason, seen).value)
  {
    hide Leads;
    var t := Requeue(s, id, actor, reason, seen).value;
    ChangeLeads(s, id, t.rows[id], WorkRequeued(reason), actor);
  }

  lemma ReleaseLeaseLeads(s: State, id: nat, actor: Principal, reason: string, seen: Option<Precondition>)
    requires ReleaseLease(s, id, actor, reason, seen).Accepted?
    ensures Leads(s, ReleaseLease(s, id, actor, reason, seen).value)
  {
    hide Leads;
    var t := ReleaseLease(s, id, actor, reason, seen).value;
    var lease := s.rows[id].lease.value;
    ChangeLeads(s, id, t.rows[id], WorkReleased(reason, Some((lease.owner, lease.expiresAt))), actor);
  }

  /** Decisions that return an item to the queue. */
  lemma ReturnLeads(s: State, op: Op)
    requires op.OpRequeue? || op.OpReleaseLease?
    requires Shaped(s) && Perform(s, op).Accepted?
    ensures Leads(s, Perform(s, op).value)
  {
    hide Leads, Shaped, Requeue, ReleaseLease;
    match op {
      case OpRequeue(id, actor, reason, seen) => RequeueLeads(s, id, actor, reason, seen);
      case OpReleaseLease(id, actor, reason, seen) => ReleaseLeaseLeads(s, id, actor, reason, seen);
    }
  }

  lemma RejectLeads(s: State, id: nat, actor: Principal, reason: string, seen: Option<Precondition>)
    requires Reject(s, id, actor, reason, seen).Accepted?
    ensures Leads(s, Reject(s, id, actor, reason, seen).value)
  {
    hide Leads;
    var t := Reject(s, id, actor, reason, seen).value;
    ChangeLeads(s, id, t.rows[id], WorkRejected(reason), actor);
  }

  lemma CancelLeads(s: State, id: nat, actor: Principal, reason: string, seen: Option<Precondition>)
    requires Cancel(s, id, actor, reason, seen).Accepted?
    ensures Leads(s, Cancel(s, id, actor, reason, seen).value)
  {
    hide Leads;
    var t := Cancel(s, id, actor, reason, seen).value;
    ChangeLeads(s, id, t.rows[id], WorkCancelled(reason), actor);
  }

  lemma RetireLeads(s: State, id: nat, actor: Principal, reason: string)
    requires Retire(s, id, actor, reason).Accepted?
    ensures Leads(s, Retire(s, id, actor, reason).value)
  {
    hide Leads;
    var t := Retire(s, id, actor, reason).value;
    ChangeLeads(s, id, t.rows[id], WorkCancelled(reason), actor);
  }

  /** Decisions that end an item. */
  lemma EndingLeads(s: State, op: Op)
    requires op.OpReject? || op.OpCancel? || op.OpRetire?
    requires Perform(s, op).Accepted?
    ensures Leads(s, Perform(s, op).value)
  {
    hide Leads, Shaped, Reject, Cancel, Retire;
    match op {
      case OpReject(id, actor, reason, seen) => RejectLeads(s, id, actor, reason, seen);
      case OpCancel(id, actor, reason, seen) => CancelLeads(s, id, actor, reason, seen);
      case OpRetire(id, actor, reason) => RetireLeads(s, id, actor, reason);
    }
  }

  lemma ReadyLeads(s: State, id: nat, url: PullUrl, actor: Principal, head: string, reviewItem: nat)
    requires RecordReady(s, id, url, actor, head, reviewItem).Accepted?
    ensures Leads(s, RecordReady(s, id, url, actor, head, reviewItem).value)
  {
    var t := RecordReady(s, id, url, actor, head, reviewItem).value;
    ChangeLeads(s, id, t.rows[id], ArtifactReady(url.text, head, reviewItem), actor);
  }

  lemma VerifyLeads(s: State, id: nat, url: string, verification: Verification, actor: Principal)
    requires RecordVerification(s, id, url, verification, actor).Accepted?
    ensures Leads(s, RecordVerification(s, id, url, verification, actor).value)
  {
    hide Leads;
    var t := RecordVerification(s, id, url, verification, actor).value;
    ChangeLeads(s, id, t.rows[id], ArtifactVerified(url), actor);
  }

  lemma AttachLeads(s: State, id: nat, actor: Principal, artifact: Artifact, seen: Option<Precondition>)
    requires Attach(s, id, actor, artifact, seen).Accepted?
    ensures Leads(s, Attach(s, id, actor, artifact, seen).value)
  {
    hide Leads;
    var t := Attach(s, id, actor, artifact, seen).value;
    ChangeLeads(s, id, t.rows[id], ArtifactAttached(artifact.url), actor);
  }

  lemma ArtifactLeads(s: State, op: Op)
    requires op.OpVerify? || op.OpAttach? || op.OpReady?
    requires Perform(s, op).Accepted?
    ensures Leads(s, Perform(s, op).value)
  {
    hide Leads, Shaped, RecordVerification, Attach, RecordReady, EnqueueBatch, Complete, Claim, EnqueueReview;
    match op {
      case OpVerify(id, url, verification, actor) => VerifyLeads(s, id, url, verification, actor);
      case OpAttach(id, actor, artifact, seen) => AttachLeads(s, id, actor, artifact, seen);
      case OpReady(id, url, actor, head, reviewItem) => ReadyLeads(s, id, url, actor, head, reviewItem);
    }
  }

  lemma EnvironmentLeads(s: State, op: Op)
    requires op.OpTick? || op.OpEligible? || op.OpAuthorities? || op.OpEnable? || op.OpRename?
    requires Perform(s, op).Accepted?
    ensures Leads(s, Perform(s, op).value)
  {
    hide Complete;
    var t := Perform(s, op).value;
    if op.OpRename? {
      LeadsBy(s, Renaming(op.from, op.to), t);
    } else {
      LeadsBy(s, Environment, t);
    }
  }

  lemma WorkLeads(s: State, op: Op)
    requires op.OpClaim? || op.OpComplete? || op.OpHeartbeat? || op.OpBlock? || op.OpRelease?
    requires Shaped(s) && Perform(s, op).Accepted?
    requires op.OpClaim? ==> ClaimAnswer(s, op.q, op.choice)
    ensures Leads(s, Perform(s, op).value)
  {
    hide ChainBetween;
    if op.OpClaim? {
      ClaimLeads(s, op.q, op.choice);
    } else if op.OpComplete? {
      CompleteLeads(s, op.id, op.token, op.worker, op.result, op.followUps, op.verdict);
    } else {
      WorkerLeads(s, op);
    }
  }

  lemma DecisionLeads(s: State, op: Op)
    requires op.OpDefer? || op.OpNote? || op.OpPrioritize? || op.OpPredecessors? || op.OpApprove?
             || op.OpRequeue? || op.OpReleaseLease? || op.OpReject? || op.OpCancel? || op.OpRetire?
    requires Shaped(s) && Perform(s, op).Accepted?
    ensures Leads(s, Perform(s, op).value)
  {
    if op.OpApprove? {
      ApproveLeads(s, op.id, op.actor, op.seen);
    } else if op.OpRequeue? || op.OpReleaseLease? {
      ReturnLeads(s, op);
    } else if op.OpReject? || op.OpCancel? || op.OpRetire? {
      EndingLeads(s, op);
    } else {
      SchedulingLeads(s, op);
    }
  }

  lemma StepLeads(s: State, op: Op, t: State)
    requires Shaped(s) && Step(s, op, t)
    ensures Leads(s, t)
  {
    if Perform(s, op).Refused? {
      LeadsHere(s);
    } else if op.OpTick? || op.OpEligible? || op.OpAuthorities? || op.OpEnable? || op.OpRename? {
      EnvironmentLeads(s, op);
    } else if op.OpClaim? || op.OpComplete? || op.OpHeartbeat? || op.OpBlock? || op.OpRelease? {
      WorkLeads(s, op);
    } else if op.OpSeed? || op.OpBatch? || op.OpImport? || op.OpCure? || op.OpReview? {
      CreationLeads(s, op);
    } else if op.OpVerify? || op.OpAttach? || op.OpReady? {
      ArtifactLeads(s, op);
    } else {
      DecisionLeads(s, op);
    }
  }
}
