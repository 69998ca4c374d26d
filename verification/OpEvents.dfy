/** Which events each operation may record, and about which item. */
module OpEvents {
  import opened WorkTypes
  import opened FollowUpIntent
  import opened QueueModel

  predicate ItemsExist(s: State) {
    forall k :: 0 <= k < |s.ledger| ==> s.ledger[k].item < |s.rows|
  }

  /** The operation may record this event of this item. */
  predicate Records(op: Op, item: nat, body: EventBody) {
    match body
    case WorkQueued => op.OpSeed? || op.OpBatch? || op.OpCure? || op.OpReview?
    case WorkProposed(_) => op.OpImport? || op.OpComplete?
    case WorkApproved => op.OpApprove? && op.id == item
    case WorkDeferred(_) => op.OpDefer? && op.id == item
    case WorkNoted(_) => op.OpNote? && op.id == item
    case WorkPrioritized(_, _, _) => op.OpPrioritize? && op.id == item
    case WorkRejected(_) => op.OpReject? && op.id == item
    case WorkRequeued(_) => op.OpRequeue? && op.id == item
    case WorkClaimed(_) => op.OpClaim? && op.choice == Some(item)
    case LeaseRenewed(_) => op.OpHeartbeat? && op.id == item
    case LeaseExpired(_, _) => op.OpClaim? && op.choice == Some(item)
    case WorkCompleted(_) => op.OpComplete? && op.id == item
    case WorkReviewed(_, _, _) => op.OpComplete? && op.id == item
    case WorkBlocked(_) => op.OpBlock? && op.id == item
    case WorkReleased(_, taken) => (if taken.None? then op.OpRelease? else op.OpReleaseLease?) && op.id == item
    case WorkCancelled(_) => (op.OpCancel? || op.OpRetire?) && op.id == item
    case PredecessorsUpdated(_, _) => op.OpPredecessors? && op.id == item
    case ArtifactVerified(_) => op.OpVerify? && op.id == item
    case ArtifactAttached(_) => op.OpAttach? && op.id == item
    case ArtifactReady(_, _, _) => op.OpReady? && op.id == item
  }

  /** From `s` on only events the operation may record were appended, and only a gate root brought a review record. */
  ghost predicate Recorded(s: State, op: Op, t: State) {
    && |s.rows| <= |t.rows| && s.ledger <= t.ledger
    && (forall k :: |s.ledger| <= k < |t.ledger| ==>
          t.ledger[k].item < |t.rows| && Records(op, t.ledger[k].item, t.ledger[k].body))
    && (forall i :: |s.rows| <= i < |t.rows| ==> t.rows[i].review.None? || op.OpReview?)
    && (forall i :: 0 <= i < |s.rows| ==> t.rows[i].review.Some? == s.rows[i].review.Some?)
  }

  lemma RecordedOn(s: State, t: State, u: State, op: Op)
    requires Recorded(s, op, t) && Recorded(t, op, u)
    ensures Recorded(s, op, u)
  {
    forall k | |s.ledger| <= k < |u.ledger|
      ensures u.ledger[k].item < |u.rows| && Records(op, u.ledger[k].item, u.ledger[k].body)
    {
      if k < |t.ledger| { assert u.ledger[k] == t.ledger[k]; }
    }
  }

  // ----- operations that loop --------------------------------------------------------------

  lemma CandidateRecords(start: State, b: Batch, repository: string, c: Candidate, override: Option<int>, op: Op)
    requires op.OpBatch? && BatchOne(start, b, repository, c, override).Accepted?
    ensures var t := BatchOne(start, b, repository, c, override).value.state;
            Recorded(b.state, op, t) && t.repos == b.state.repos
  {
    hide InsertRoot, RootProblem, Cooled;
    if BatchOne(start, b, repository, c, override).value.state != b.state {
      RootInserted(b.state, repository, c.root, true, None, None, None, None, op);
    }
  }

  lemma {:induction false} BatchRecords(start: State, b: Batch, repository: string, candidates: seq<Candidate>,
    override: Option<int>, op: Op)
    requires op.OpBatch? && BatchFrom(start, b, repository, candidates, override).Accepted?
    ensures var t := BatchFrom(start, b, repository, candidates, override).value.state;
            Recorded(b.state, op, t) && t.repos == b.state.repos
    decreases |candidates|
  {
    hide BatchOne;
    if candidates != [] {
      var next := BatchOne(start, b, repository, candidates[0], override).value;
      CandidateRecords(start, b, repository, candidates[0], override, op);
      BatchRecords(start, next, repository, candidates[1..], override, op);
      RecordedOn(b.state, next.state, BatchFrom(start, b, repository, candidates, override).value.state, op);
    }
  }

  lemma ImportRecords(s: State, repository: string, candidate: Import, op: Op)
    requires op.OpImport? && EnqueueImport(s, repository, candidate).Accepted?
    ensures var t := EnqueueImport(s, repository, candidate).value;
            Recorded(s, op, t) && t.repos == s.repos
  {
    hide InsertRoot, RootProblem;
    if !SourceRefExists(s, repository, candidate.sourceRef) {
      RootInserted(s, repository, candidate.root, false, Some(candidate.sourceRef),
        NormalizePredecessors(candidate.root.predecessors).value, None, None, op);
    }
  }

  lemma {:induction false} ImportsRecord(s: State, repository: string, imports: seq<Import>, op: Op)
    requires op.OpImport? && EnqueueImports(s, repository, imports).Accepted?
    ensures var t := EnqueueImports(s, repository, imports).value;
            Recorded(s, op, t) && t.repos == s.repos
    decreases |imports|
  {
    hide EnqueueImport;
    if imports != [] {
      var next := EnqueueImport(s, repository, imports[0]).value;
      ImportRecords(s, repository, imports[0], op);
      ImportsRecord(next, repository, imports[1..], op);
      RecordedOn(s, next, EnqueueImports(s, repository, imports).value, op);
    }
  }

  lemma {:induction false} FollowUpsRecord(s: State, id: nat, row: Row, proposals: seq<Proposal>, worker: Principal,
    op: Op)
    requires op.OpComplete? && AddFollowUps(s, id, row, proposals, worker).Accepted?
    ensures var t := AddFollowUps(s, id, row, proposals, worker).value;
            Recorded(s, op, t) && t.repos == s.repos && s.rows <= t.rows
    decreases |proposals|
  {
    if proposals != [] {
      var next := AddFollowUp(s, id, row, proposals[0], worker).value;
      FollowUpsRecord(next, id, row, proposals[1..], worker, op);
      RecordedOn(s, next, AddFollowUps(s, id, row, proposals, worker).value, op);
    }
  }

  lemma FinishRecords(s: State, id: nat, row: Row, worker: Principal, result: WorkResult,
    verdict: Option<Verdict>, children: seq<nat>, op: Op)
    requires op.OpComplete? && op.id == id < |s.rows| && row.review.Some? == s.rows[id].review.Some?
    ensures Recorded(s, op, Finish(s, id, row, worker, result, verdict, children))
  {
  }

  lemma CompletionRecords(s: State, op: Op)
    requires op.OpComplete? && Perform(s, op).Accepted?
    ensures Recorded(s, op, Perform(s, op).value) && Perform(s, op).value.repos == s.repos
  {
    hide EnqueueBatch, AddFollowUps;
    var row := s.rows[op.id];
    FollowUpsRecord(s, op.id, row, op.followUps, op.worker, op);
    var next := AddFollowUps(s, op.id, row, op.followUps, op.worker).value;
    var children := seq(|op.followUps|, i requires 0 <= i < |op.followUps| => |s.rows| + i);
    assert next.rows[op.id] == row;
    FinishRecords(next, op.id, row, op.worker, op.result, op.verdict, children, op);
    RecordedOn(s, next, Finish(next, op.id, row, op.worker, op.result, op.verdict, children), op);
  }

  lemma InsertRecords(s: State, row: Row, body: EventBody, op: Op)
    requires Records(op, |s.rows|, body) && (row.review.None? || op.OpReview?)
    ensures Recorded(s, op, Insert(s, row, body))
  {
  }

  lemma RootInserted(s: State, repository: string, root: Root, admitted: bool, sourceRef: Option<SourceRef>,
    predecessors: Option<set<SourceRef>>, cure: Option<Cure>, review: Option<Review>, op: Op)
    requires InsertRoot(s, repository, root, admitted, sourceRef, predecessors, cure, review).Accepted?
    requires Records(op, |s.rows|, if admitted then WorkQueued else WorkProposed(predecessors))
    requires review.None? || op.OpReview?
    ensures var t := InsertRoot(s, repository, root, admitted, sourceRef, predecessors, cure, review).value;
            Recorded(s, op, t) && t.repos == s.repos
  {
    hide Recorded, Records;
    var policy := BindPolicy(s, repository, root.kind, root.allowed, root.delegable, root.createdBy, admitted).value;
    InsertRecords(s, RootRow(s, repository, root, admitted, sourceRef, predecessors, cure, review, policy),
      if admitted then WorkQueued else WorkProposed(predecessors), op);
  }

  lemma SeedRecords(s: State, repository: string, root: Root, op: Op)
    requires op.OpSeed? && EnqueueSeed(s, repository, root).Accepted?
    ensures var t := EnqueueSeed(s, repository, root).value; Recorded(s, op, t) && t.repos == s.repos
  {
    hide InsertRoot, RootProblem, Recorded;
    RootInserted(s, repository, root, true, None, None, None, None, op);
  }

  lemma CureRecords(s: State, repository: string, root: Root, ref: SourceRef, cure: Cure, op: Op)
    requires op.OpCure? && EnqueueCure(s, repository, root, ref, cure).Accepted?
    ensures var t := EnqueueCure(s, repository, root, ref, cure).value; Recorded(s, op, t) && t.repos == s.repos
  {
    hide InsertRoot, RootProblem;
    if !SourceRefExists(s, repository, ref) {
      RootInserted(s, repository, root, true, Some(ref), None, Some(cure), None, op);
    }
  }

  lemma ReviewRecords(s: State, repository: string, root: Root, ref: SourceRef, review: Review, op: Op)
    requires op.OpReview? && EnqueueReview(s, repository, root, ref, review).Accepted?
    ensures var t := EnqueueReview(s, repository, root, ref, review).value; Recorded(s, op, t) && t.repos == s.repos
  {
    hide InsertRoot, RootProblem, ReviewOk, GateRootOk;
    if !SourceRefExists(s, repository, ref) {
      RootInserted(s, repository, root, true, Some(ref), None, None, Some(review), op);
    }
  }

  lemma RootRecords(s: State, op: Op)
    requires op.OpSeed? || op.OpCure? || op.OpReview?
    requires Perform(s, op).Accepted?
    ensures Recorded(s, op, Perform(s, op).value) && Perform(s, op).value.repos == s.repos
  {
    hide EnqueueSeed, EnqueueCure, EnqueueReview, Recorded;
    match op {
      case OpSeed(repository, root) => SeedRecords(s, repository, root, op);
      case OpCure(repository, root, ref, cure) => CureRecords(s, repository, root, ref, cure, op);
      case OpReview(repository, root, ref, review) => ReviewRecords(s, repository, root, ref, review, op);
    }
  }

  lemma CreationRecords(s: State, op: Op)
    requires op.OpBatch? || op.OpImport?
    requires Perform(s, op).Accepted?
    ensures Recorded(s, op, Perform(s, op).value) && Perform(s, op).value.repos == s.repos
  {
    hide Complete;
    if op.OpBatch? {
      BatchRecords(s, Batch(s, ActiveRootKinds(s.rows, op.repository), []), op.repository, op.candidates, op.override,
        op);
    } else {
      ImportsRecord(s, op.repository, op.imports, op);
    }
  }

  // ----- operations on one item -----------------------------------------------------------------

  lemma TouchRecords(s: State, id: nat, row: Row, body: EventBody, actor: Principal, op: Op)
    requires id < |s.rows| && Records(op, id, body) && row.review.Some? == s.rows[id].review.Some?
    ensures Recorded(s, op, Touch(s, id, row, body, actor))
  {
  }

  lemma StrikeRecords(s: State, id: nat, op: Op)
    requires op.OpClaim? && op.choice == Some(id) && id < |s.rows|
    ensures Recorded(s, op, Strike(s, id)) && Strike(s, id).repos == s.repos && |Strike(s, id).rows| == |s.rows|
  {
  }

  lemma TakeRecords(s: State, id: nat, worker: Principal, seconds: int, op: Op)
    requires op.OpClaim? && op.choice == Some(id) && id < |s.rows|
    ensures Recorded(s, op, Take(s, id, worker, seconds)) && Take(s, id, worker, seconds).repos == s.repos
  {
  }

  lemma ClaimRecords(s: State, op: Op)
    requires op.OpClaim? && Perform(s, op).Accepted?
    ensures Recorded(s, op, Perform(s, op).value) && Perform(s, op).value.repos == s.repos
  {
    hide Complete, EnqueueBatch, EnqueueReview, EnqueueImports, EnqueueCure, EnqueueSeed, Strike, Take, Approve;
    if op.choice.Some? && op.choice.value < |s.rows| {
      var id, seconds := op.choice.value, LeaseSeconds(op.q.leaseSeconds).value;
      StrikeRecords(s, id, op);
      TakeRecords(Strike(s, id), id, op.q.worker, seconds, op);
      RecordedOn(s, Strike(s, id), Take(Strike(s, id), id, op.q.worker, seconds), op);
    }
  }

  lemma WorkRecords(s: State, op: Op)
    requires op.OpHeartbeat? || op.OpBlock? || op.OpRelease?
    requires Perform(s, op).Accepted?
    ensures Recorded(s, op, Perform(s, op).value) && Perform(s, op).value.repos == s.repos
  {
    var t := Perform(s, op).value;
    var body := t.ledger[|s.ledger|].body;
    TouchRecords(s, op.id, t.rows[op.id], body, op.worker, op);
  }

  lemma SchedulingRecords(s: State, op: Op)
    requires op.OpApprove? || op.OpNote? || op.OpPrioritize? || op.OpPredecessors? || op.OpDefer?
    requires Perform(s, op).Accepted?
    ensures Recorded(s, op, Perform(s, op).value) && Perform(s, op).value.repos == s.repos
  {
    hide Complete, EnqueueBatch;
    var t := Perform(s, op).value;
    var body := t.ledger[|s.ledger|].body;
    TouchRecords(s, op.id, t.rows[op.id], body, op.actor, op);
  }

  lemma DecisionRecords(s: State, op: Op)
    requires op.OpReject? || op.OpRequeue? || op.OpReleaseLease? || op.OpCancel? || op.OpRetire?
    requires Perform(s, op).Accepted?
    ensures Recorded(s, op, Perform(s, op).value) && Perform(s, op).value.repos == s.repos
  {
    hide Complete, EnqueueBatch, EnqueueReview;
    var t := Perform(s, op).value;
    var body := t.ledger[|s.ledger|].body;
    TouchRecords(s, op.id, t.rows[op.id], body, op.actor, op);
  }

  lemma ArtifactRecords(s: State, op: Op)
    requires op.OpVerify? || op.OpAttach? || op.OpReady?
    requires Perform(s, op).Accepted?
    ensures Recorded(s, op, Perform(s, op).value) && Perform(s, op).value.repos == s.repos
  {
    hide Complete;
    var t := Perform(s, op).value;
    var body := t.ledger[|s.ledger|].body;
    TouchRecords(s, op.id, t.rows[op.id], body, op.actor, op);
  }

  /** A setting of the environment or a rename records nothing. */
  predicate Silent(op: Op) {
    op.OpTick? || op.OpEligible? || op.OpAuthorities? || op.OpEnable? || op.OpRename?
  }

  lemma SettingRecords(s: State, op: Op)
    requires Silent(op) && Perform(s, op).Accepted?
    ensures Recorded(s, op, Perform(s, op).value) && Perform(s, op).value.ledger == s.ledger
  {
  }

  /** Only a setting changes the repositories, and only then the ledger stands. */
  lemma OpKeepsRepos(s: State, op: Op)
    requires !Silent(op) && Perform(s, op).Accepted?
    ensures Recorded(s, op, Perform(s, op).value) && Perform(s, op).value.repos == s.repos
  {
    if op.OpSeed? || op.OpCure? || op.OpReview? {
      RootRecords(s, op);
    } else if op.OpBatch? || op.OpImport? {
      CreationRecords(s, op);
    } else if op.OpClaim? {
      ClaimRecords(s, op);
    } else if op.OpHeartbeat? || op.OpBlock? || op.OpRelease? {
      WorkRecords(s, op);
    } else if op.OpComplete? {
      CompletionRecords(s, op);
    } else if op.OpApprove? || op.OpNote? || op.OpPrioritize? || op.OpPredecessors? || op.OpDefer? {
      SchedulingRecords(s, op);
    } else if op.OpVerify? || op.OpAttach? || op.OpReady? {
      ArtifactRecords(s, op);
    } else {
      DecisionRecords(s, op);
    }
  }

  /** Every committed operation appends only the events it may record, about the items it may record them of. */
  lemma OpRecords(s: State, op: Op)
    requires Perform(s, op).Accepted?
    ensures var t := Perform(s, op).value;
            Recorded(s, op, t) && (t.ledger != s.ledger ==> t.repos == s.repos)
  {
    if Silent(op) {
      SettingRecords(s, op);
    } else {
      OpKeepsRepos(s, op);
    }
  }

  /** The same of every step of a run, committed or refused. */
  lemma RunRecords(trace: seq<State>, ops: seq<Op>, i: nat)
    requires Run(trace, ops) && i < |ops|
    ensures Recorded(trace[i], ops[i], trace[i + 1])
    ensures trace[i + 1].ledger != trace[i].ledger ==> trace[i + 1].repos == trace[i].repos
  {
    assert StepAt(trace, ops, i);
    if Perform(trace[i], ops[i]).Accepted? {
      OpRecords(trace[i], ops[i]);
    }
  }
}
