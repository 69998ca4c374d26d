/**
 * The store itself: an object whose tables the transactions update in place.
 * A refused transaction rolls back; a committed one leaves the state its
 * specification in `QueueModel` gives. What the object holds is always the end
 * of some run, so the results about runs are results about the object.
 */
module QueueStore {
  import opened WorkTypes
  import opened Contracts
  import opened FollowUpIntent
  import opened QueueModel
  import opened QueueWrites
  import opened LedgerReplay
  import opened QueueInvariant
  import opened Attempts
  import opened ClaimBackoff
  import opened ClaimRules
  import opened Lineages
  import ClaimOrder
  import Feeders

  /** What one predecessor reference means now, and the item that decided it. */
  datatype PredecessorReport = PredecessorReport(satisfied: bool, item: Option<nat>)

  /** One item claim selection is backing off: the counted releases, newest first, and when it returns. */
  datatype Churn = Churn(item: nat, releases: seq<Event>, until: int)

  datatype Cooling = Cooling(completedAt: int, streak: nat)

  /** What the state says beyond the row in hand: rows are stored in creation order. */
  lemma CreationOrder(s: State)
    requires Reached(s)
    ensures AgesOk(s)
  {
    hide Reached, Perform;
    ReachedHolds(s);
  }

  lemma ReachedShape(s: State, id: nat)
    requires Reached(s) && id < |s.rows|
    ensures RowShape(s.rows[id]) && Depth(s.rows, id) <= MAX_LINEAGE_DEPTH
  {
    hide Reached, Perform;
    ReachedHolds(s);
  }

  lemma Approved(s: State, id: nat, actor: Principal, seen: Option<Precondition>, t: State)
    requires Reached(s) && QueueModel.Approve(s, id, actor, seen) == Accepted(t)
    ensures Reached(t)
  {
    hide Reached, QueueModel.Approve;
    ReachedOn(s, OpApprove(id, actor, seen), t);
  }

  lemma Prioritized(s: State, id: nat, actor: Principal, priority: int, reason: string, seen: Option<Precondition>,
    t: State)
    requires Reached(s) && QueueModel.Prioritize(s, id, actor, priority, reason, seen) == Accepted(t)
    ensures Reached(t)
  {
    hide Reached, QueueModel.Prioritize;
    ReachedOn(s, OpPrioritize(id, actor, priority, reason, seen), t);
  }

  lemma BatchEnqueued(s: State, repository: string, candidates: seq<Candidate>, override: Option<int>, t: State)
    requires Reached(s)
    requires match EnqueueBatch(s, repository, candidates, override)
             case Accepted(batch) => t == batch.state
             case Refused(_) => t == s
    ensures Reached(t)
  {
    hide Reached, EnqueueBatch;
    ReachedOn(s, OpBatch(repository, candidates, override), t);
  }

  lemma Attached(s: State, id: nat, actor: Principal, artifact: Artifact, seen: Option<Precondition>, t: State)
    requires Reached(s) && Attach(s, id, actor, artifact, seen) == Accepted(t)
    ensures Reached(t)
  {
    hide Reached, Attach;
    ReachedOn(s, OpAttach(id, actor, artifact, seen), t);
  }

  lemma Reverified(s: State, id: nat, url: string, verification: Verification, actor: Principal, t: State)
    requires Reached(s) && RecordVerification(s, id, url, verification, actor) == Accepted(t)
    ensures Reached(t)
  {
    hide Reached, RecordVerification;
    ReachedOn(s, OpVerify(id, url, verification, actor), t);
  }

  lemma MarkedReady(s: State, id: nat, url: PullUrl, actor: Principal, head: string, reviewItem: nat, t: State)
    requires Reached(s) && RecordReady(s, id, url, actor, head, reviewItem) == Accepted(t)
    ensures Reached(t)
  {
    hide Reached, RecordReady;
    ReachedOn(s, OpReady(id, url, actor, head, reviewItem), t);
  }

  lemma Seeded(s: State, repository: string, root: Root, t: State)
    requires Reached(s) && QueueModel.EnqueueSeed(s, repository, root) == Accepted(t)
    ensures Reached(t)
  {
    hide Reached, QueueModel.EnqueueSeed;
    ReachedOn(s, OpSeed(repository, root), t);
  }

  lemma CureRooted(s: State, repository: string, root: Root, ref: SourceRef, cure: Cure, t: State)
    requires Reached(s) && QueueModel.EnqueueCure(s, repository, root, ref, cure) == Accepted(t)
    ensures Reached(t)
  {
    hide Reached, QueueModel.EnqueueCure;
    ReachedOn(s, OpCure(repository, root, ref, cure), t);
  }

  lemma ReviewRooted(s: State, repository: string, root: Root, ref: SourceRef, review: Review, t: State)
    requires Reached(s) && QueueModel.EnqueueReview(s, repository, root, ref, review) == Accepted(t)
    ensures Reached(t)
  {
    hide Reached, QueueModel.EnqueueReview;
    ReachedOn(s, OpReview(repository, root, ref, review), t);
  }

  lemma Imported(s: State, repository: string, imports: seq<Import>, t: State)
    requires Reached(s) && QueueModel.EnqueueProposed(s, repository, imports) == Accepted(t)
    ensures Reached(t)
  {
    hide Reached, QueueModel.EnqueueProposed;
    ReachedOn(s, OpImport(repository, imports), t);
  }

  lemma Renewed(s: State, id: nat, token: nat, worker: Principal, seconds: Option<int>, t: State)
    requires Reached(s) && QueueModel.Heartbeat(s, id, token, worker, seconds) == Accepted(t)
    ensures Reached(t)
  {
    hide Reached, QueueModel.Heartbeat;
    ReachedOn(s, OpHeartbeat(id, token, worker, seconds), t);
  }

  lemma BlockedBy(s: State, id: nat, token: nat, worker: Principal, reason: string, t: State)
    requires Reached(s) && BlockWork(s, id, token, worker, reason) == Accepted(t)
    ensures Reached(t)
  {
    hide Reached, BlockWork;
    ReachedOn(s, OpBlock(id, token, worker, reason), t);
  }

  lemma ReleasedBy(s: State, id: nat, token: nat, worker: Principal, reason: string, t: State)
    requires Reached(s) && ReleaseWork(s, id, token, worker, reason) == Accepted(t)
    ensures Reached(t)
  {
    hide Reached, ReleaseWork;
    ReachedOn(s, OpRelease(id, token, worker, reason), t);
  }

  lemma CompletedBy(s: State, id: nat, token: nat, worker: Principal, result: WorkResult, followUps: seq<Proposal>,
    verdict: Option<Verdict>, t: State)
    requires Reached(s) && QueueModel.Complete(s, id, token, worker, result, followUps, verdict) == Accepted(t)
    ensures Reached(t)
  {
    hide Reached, QueueModel.Complete;
    ReachedOn(s, OpComplete(id, token, worker, result, followUps, verdict), t);
  }

  lemma Deferred(s: State, id: nat, actor: Principal, reason: string, seen: Option<Precondition>, t: State)
    requires Reached(s) && QueueModel.Defer(s, id, actor, reason, seen) == Accepted(t)
    ensures Reached(t)
  {
    hide Reached, QueueModel.Defer;
    ReachedOn(s, OpDefer(id, actor, reason, seen), t);
  }

  lemma NoteAdded(s: State, id: nat, actor: Principal, reason: string, seen: Option<Precondition>, t: State)
    requires Reached(s) && QueueModel.AddNote(s, id, actor, reason, seen) == Accepted(t)
    ensures Reached(t)
  {
    hide Reached, QueueModel.AddNote;
    ReachedOn(s, OpNote(id, actor, reason, seen), t);
  }

  lemma Rejected(s: State, id: nat, actor: Principal, reason: string, seen: Option<Precondition>, t: State)
    requires Reached(s) && QueueModel.Reject(s, id, actor, reason, seen) == Accepted(t)
    ensures Reached(t)
  {
    hide Reached, QueueModel.Reject;
    ReachedOn(s, OpReject(id, actor, reason, seen), t);
  }

  lemma Requeued(s: State, id: nat, actor: Principal, reason: string, seen: Option<Precondition>, t: State)
    requires Reached(s) && QueueModel.Requeue(s, id, actor, reason, seen) == Accepted(t)
    ensures Reached(t)
  {
    hide Reached, QueueModel.Requeue;
    ReachedOn(s, OpRequeue(id, actor, reason, seen), t);
  }

  lemma LeaseReleased(s: State, id: nat, actor: Principal, reason: string, seen: Option<Precondition>, t: State)
    requires Reached(s) && QueueModel.ReleaseLease(s, id, actor, reason, seen) == Accepted(t)
    ensures Reached(t)
  {
    hide Reached, QueueModel.ReleaseLease;
    ReachedOn(s, OpReleaseLease(id, actor, reason, seen), t);
  }

  lemma CancelledBy(s: State, id: nat, actor: Principal, reason: string, seen: Option<Precondition>, t: State)
    requires Reached(s) && QueueModel.Cancel(s, id, actor, reason, seen) == Accepted(t)
    ensures Reached(t)
  {
    hide Reached, QueueModel.Cancel;
    ReachedOn(s, OpCancel(id, actor, reason, seen), t);
  }

  lemma Retired(s: State, id: nat, actor: Principal, reason: string, t: State)
    requires Reached(s) && QueueModel.Retire(s, id, actor, reason) == Accepted(t)
    ensures Reached(t)
  {
    hide Reached, QueueModel.Retire;
    ReachedOn(s, OpRetire(id, actor, reason), t);
  }

  lemma EdgesReplacedBy(s: State, id: nat, refs: seq<SourceRef>, actor: Principal, t: State)
    requires Reached(s) && ReplacePredecessors(s, id, refs, actor) == Accepted(t)
    ensures Reached(t)
  {
    hide Reached, ReplacePredecessors;
    ReachedOn(s, OpPredecessors(id, refs, actor), t);
  }

  /** The transaction answered as specified: committed as `expected`, or refused and rolled back. */
  ghost predicate Answered(before: State, expected: Checked<State>, after: State, refused: Option<Refusal>) {
    match expected
    case Accepted(next) => refused.None? && after == next
    case Refused(why) => refused == Some(why) && after == before
  }

  class QueueStore {
    var repos: map<string, bool>
    var rows: seq<Row>
    var ledger: seq<Event>
    var clock: int
    var tokens: nat
    var authorities: Option<map<string, PolicyAuthority>>
    var eligible: Option<set<string>>

    ghost function Current(): State
      reads this
    {
      State(repos, rows, ledger, clock, tokens, authorities, eligible)
    }

    /** The tables are what some run of transactions leaves, so every theorem about runs is about them. */
    ghost predicate Valid()
      reads this
    {
      Reached(Current())
    }

    constructor ()
      ensures Valid() && Current() == EMPTY
    {
      repos, rows, ledger, clock, tokens := map[], [], [], 0, 0;
      authorities, eligible := None, None;
      new;
      EmptyReached();
    }

    // ----- the environment ---------------------------------------------------------

    method Tick(elapsed: nat)
      requires Valid()
      modifies `clock
      ensures Valid() && Current() == old(Current()).(clock := old(clock) + elapsed)
    {
      hide Reached;
      clock := clock + elapsed;
      ReachedOn(old(Current()), OpTick(elapsed), Current());
    }

    method ConfigureHooks(authority: Option<map<string, PolicyAuthority>>, claimEligibility: Option<set<string>>)
      requires Valid()
      modifies `authorities, `eligible
      ensures Valid()
      ensures Current() == old(Current()).(authorities := authority, eligible := claimEligibility)
    {
      hide Reached;
      ghost var middle := Current().(authorities := authority);
      ReachedOn(Current(), OpAuthorities(authority), middle);
      authorities, eligible := authority, claimEligibility;
      ReachedOn(middle, OpEligible(claimEligibility), Current());
    }

    method SetRepositoryEnabled(repository: string, enabled: bool)
      requires Valid()
      modifies `repos
      ensures Valid() && Current() == old(Current()).(repos := old(repos)[repository := enabled])
    {
      hide Reached;
      repos := repos[repository := enabled];
      ReachedOn(old(Current()), OpEnable(repository, enabled), Current());
    }

    method RenameRepository(from: string, to: string, actor: Principal) returns (refused: Option<Refusal>)
      requires Valid()
      modifies this
      ensures Valid() && Answered(old(Current()), QueueModel.Rename(old(Current()), from, to, actor), Current(),
        refused)
    {
      hide Reached;
      if !actor.Decides() { return Some(WrongPrincipal); }
      if Lower(from) == Lower(to) { return Some(SameRepository); }
      if from !in repos { return Some(RepositoryUnknown); }
      if to in repos { return Some(RepositoryExists); }
      repos := repos[to := repos[from]];
      MoveRows(from, to);
      repos := repos - {from};
      refused := None;
      ReachedOn(old(Current()), OpRename(from, to, actor), Current());
    }

    method MoveRows(from: string, to: string)
      modifies `rows
      ensures rows == Renamed(old(rows), from, to)
    {
      var i := 0;
      while i < |rows|
        invariant 0 <= i <= |rows| == |old(rows)|
        invariant forall k :: 0 <= k < i ==> rows[k] == Renamed(old(rows), from, to)[k]
        invariant forall k :: i <= k < |rows| ==> rows[k] == old(rows)[k]
      {
        if rows[i].repository == from {
          rows := rows[i := rows[i].(repository := to)];
        }
        i := i + 1;
      }
    }

    // ----- shared steps ---------------------------------------------------------------

    method AddEvent(id: nat, body: EventBody, actor: Principal)
      modifies `ledger
      ensures ledger == old(ledger) + [Event(|old(ledger)| + 1, id, actor, clock, body)]
    {
      ledger := ledger + [Event(|ledger| + 1, id, actor, clock, body)];
    }

    method BindPolicy(repository: string, kind: string, allowed: seq<Action>, delegable: seq<Action>,
      createdBy: Principal, admitted: bool) returns (r: Checked<Option<PolicyRecord>>)
      ensures r == QueueModel.BindPolicy(Current(), repository, kind, allowed, delegable, createdBy, admitted)
    {
      if authorities.None? { return Accepted(None); }
      if repository !in authorities.value { return Refused(NoPolicyAuthority); }
      var authority := authorities.value[repository];
      var actions := allowed + delegable;
      var i := 0;
      while i < |actions|
        invariant 0 <= i <= |actions|
        invariant PolicyOffence(authority, actions) == PolicyOffence(authority, actions[i..])
      {
        if actions[i] !in authority.ceiling { return Refused(OutsideActionCeiling(actions[i])); }
        if authority.Decide(actions[i]) == Deny { return Refused(DeniedByPolicy(actions[i])); }
        i := i + 1;
      }
      var record := PolicyRecord(authority.snapshot, authority.commit, ReviewRequiredOf(authority, allowed), None);
      if admitted {
        var evidence := CreationAuthorization(kind, allowed, createdBy, record.reviewRequired, clock);
        if evidence.Refused? { return Refused(evidence.why); }
        record := record.(authorization := Some(evidence.value));
      }
      r := Accepted(Some(record));
    }

    /** Inserts one root and its creation event, or says why governance does not let it be defined. */
    method InsertRoot(repository: string, root: Root, admitted: bool, sourceRef: Option<SourceRef>,
      predecessors: Option<set<SourceRef>>, cure: Option<Cure>, review: Option<Review>)
        returns (refused: Option<Refusal>)
      modifies `rows, `ledger
      ensures Answered(old(Current()),
                QueueModel.InsertRoot(old(Current()), repository, root, admitted, sourceRef, predecessors, cure,
                  review),
                Current(), refused)
    {
      var bound := BindPolicy(repository, root.kind, root.allowed, root.delegable, root.createdBy, admitted);
      if bound.Refused? { return Some(bound.why); }
      var id := |rows|;
      var row := Row(
        Definition(id, None, root.kind, root.brief, root.allowed, root.delegable, Required(root),
          Some(root.target), root.createdBy, clock, sourceRef, cure),
        repository, bound.value, if root.priority.Some? then root.priority.value else 0,
        Queued, admitted, clock, predecessors, review, None, None, [], []);
      rows := rows + [row];
      AddEvent(id, if admitted then WorkQueued else WorkProposed(predecessors), root.createdBy);
      refused := None;
    }

    // ----- creating work --------------------------------------------------------------------

    method EnqueueSeed(repository: string, root: Root) returns (refused: Option<Refusal>)
      requires Valid()
      modifies this
      ensures Valid() && Answered(old(Current()), QueueModel.EnqueueSeed(old(Current()), repository, root), Current(),
        refused)
    {
      hide Reached, Perform;
      var problem := RootProblem(root, false);
      if problem.Some? { return problem; }
      if root.predecessors.Some? { return Some(PredecessorsRefused); }
      if !(repository in repos && repos[repository]) { return Some(RepositoryNotEnabled); }
      refused := InsertRoot(repository, root, true, None, None, None, None);
      if refused.None? { Seeded(old(Current()), repository, root, Current()); }
    }

    method EnqueueCureRoot(repository: string, root: Root, ref: SourceRef, cure: Cure)
      returns (refused: Option<Refusal>)
      requires Valid()
      modifies this
      ensures Valid()
      ensures Answered(old(Current()), QueueModel.EnqueueCure(old(Current()), repository, root, ref, cure), Current(),
        refused)
    {
      hide Reached, Perform;
      if cure.decay == {} || root.kind != CURE_KIND { return Some(InvalidDefinition); }
      if root.predecessors.Some? { return Some(PredecessorsRefused); }
      var problem := RootProblem(root, true);
      if problem.Some? { return problem; }
      if !(repository in repos && repos[repository]) { return Some(RepositoryNotEnabled); }
      var known := HasSourceRef(repository, ref);
      if known { return None; }
      refused := InsertRoot(repository, root, true, Some(ref), None, Some(cure), None);
      if refused.None? { CureRooted(old(Current()), repository, root, ref, cure, Current()); }
    }

    method EnqueueReviewRoot(repository: string, root: Root, ref: SourceRef, review: Review)
      returns (refused: Option<Refusal>)
      requires Valid()
      modifies this
      ensures Valid()
      ensures Answered(old(Current()), QueueModel.EnqueueReview(old(Current()), repository, root, ref, review),
        Current(), refused)
    {
      hide Reached, Perform;
      if !ReviewOk(review) || !GateRootOk(root, review) { return Some(ReviewInvalid); }
      if root.predecessors.Some? { return Some(PredecessorsRefused); }
      var problem := RootProblem(root, true);
      if problem.Some? { return problem; }
      if !(repository in repos && repos[repository]) { return Some(RepositoryNotEnabled); }
      var known := HasSourceRef(repository, ref);
      if known { return None; }
      refused := InsertRoot(repository, root, true, Some(ref), None, None, Some(review));
      if refused.None? { ReviewRooted(old(Current()), repository, root, ref, review, Current()); }
    }

    method HasSourceRef(repository: string, ref: SourceRef) returns (found: bool)
      ensures found <==> SourceRefExists(Current(), repository, ref)
    {
      found := false;
      for i := 0 to |rows|
        invariant found <==>
          exists k :: 0 <= k < i && rows[k].repository == repository && rows[k].def.sourceRef == Some(ref)
      {
        found := found || (rows[i].repository == repository && rows[i].def.sourceRef == Some(ref));
      }
    }

    method EnqueueProposedRoots(repository: string, imports: seq<Import>) returns (refused: Option<Refusal>)
      requires Valid()
      modifies this
      ensures Valid() && Answered(old(Current()), QueueModel.EnqueueProposed(old(Current()), repository, imports),
        Current(), refused)
    {
      hide Reached, Perform;
      if !(repository in repos && repos[repository]) { return Some(RepositoryNotEnabled); }
      refused := ImportRoots(repository, imports);
      if refused.None? { Imported(old(Current()), repository, imports, Current()); }
    }

    method ImportRoots(repository: string, imports: seq<Import>) returns (refused: Option<Refusal>)
      modifies `rows, `ledger
      ensures Answered(old(Current()), EnqueueImports(old(Current()), repository, imports), Current(), refused)
    {
      var rowsBefore, ledgerBefore := rows, ledger;
      var seen: set<SourceRef> := {};
      for i := 0 to |imports|
        invariant Current() == old(Current()).(rows := rows, ledger := ledger)
        invariant forall ref :: ref in seen ==> SourceRefExists(Current(), repository, ref)
        invariant EnqueueImports(Current(), repository, imports[i..])
               == EnqueueImports(old(Current()), repository, imports)
      {
        assert imports[i..][0] == imports[i] && imports[i..][1..] == imports[i + 1..];
        ghost var before := Current();
        refused := ImportRoot(repository, imports[i], seen);
        if refused.Some? {
          rows, ledger := rowsBefore, ledgerBefore;
          return;
        }
        seen := seen + {imports[i].sourceRef};
        Feeders.ImportKeepsRefs(before, repository, imports[i]);
      }
      refused := None;
    }

    /** One imported root; `seen` are references this batch has already met. */
    method ImportRoot(repository: string, candidate: Import, seen: set<SourceRef>) returns (refused: Option<Refusal>)
      requires forall ref :: ref in seen ==> SourceRefExists(Current(), repository, ref)
      modifies `rows, `ledger
      ensures Answered(old(Current()), EnqueueImport(old(Current()), repository, candidate), Current(), refused)
    {
      refused := RootProblem(candidate.root, false);
      if refused.Some? { return; }
      var predecessors := NormalizePredecessors(candidate.root.predecessors);
      if predecessors.Refused? { return Some(predecessors.why); }
      if candidate.sourceRef in seen { return None; }
      var known := HasSourceRef(repository, candidate.sourceRef);
      if known { return None; }
      refused := InsertRoot(repository, candidate.root, false, Some(candidate.sourceRef), predecessors.value, None,
        None);
    }

    /** The kinds whose newest roots answered "nothing to do", and for how many roots in a row. */
    method NoFindingStreaks(repository: string) returns (streaks: map<string, Cooling>)
      ensures forall kind :: StreakRead(Current(), repository, kind, streaks)
    {
      hide CompletedAt;
      streaks := map[];
      var settled: set<string> := {};
      var i := |rows|;
      while i > 0
        invariant 0 <= i <= |rows|
        invariant forall kind :: StreakSoFar(Current(), repository, kind, streaks, settled, i)
      {
        ghost var before, done := streaks, settled;
        i := i - 1;
        var row := rows[i];
        if row.repository == repository && row.def.parent.None? && row.def.kind !in settled {
          var kind := row.def.kind;
          var hasChild := HasChildren(i);
          if row.stored != Completed || hasChild {
            settled := settled + {kind};
          } else if kind !in streaks {
            var at := CompletionInstant(i);
            streaks := streaks[kind := Cooling(at, 1)];
          } else {
            streaks := streaks[kind := streaks[kind].(streak := streaks[kind].streak + 1)];
          }
        }
        forall kind ensures StreakSoFar(Current(), repository, kind, streaks, settled, i) {
          assert StreakSoFar(Current(), repository, kind, before, done, i + 1);
        }
      }
      forall kind ensures StreakRead(Current(), repository, kind, streaks) {
        assert StreakSoFar(Current(), repository, kind, streaks, settled, 0);
      }
    }

    method HasChildren(id: nat) returns (found: bool)
      ensures found <==> HasChild(rows, id)
    {
      found := false;
      for i := 0 to |rows|
        invariant found <==> exists k :: 0 <= k < i && rows[k].def.parent == Some(id)
      {
        found := found || rows[i].def.parent == Some(id);
      }
    }

    /** The newest recorded completion of the item, or its last update when none is recorded. */
    method CompletionInstant(id: nat) returns (at: int)
      requires id < |rows|
      ensures at == CompletedAt(Current(), id)
    {
      var latest: Option<int> := None;
      for i := 0 to |ledger|
        invariant latest == LastCompletion(EventsOf(ledger[..i], id))
      {
        var e := ledger[i];
        NextEvent(ledger, i, id);
        Snoc(EventsOf(ledger[..i], id), e);
        if e.item == id && e.body.WorkCompleted? {
          latest := if latest.Some? then Some(Max(latest.value, e.at)) else Some(e.at);
        }
      }
      assert ledger[..|ledger|] == ledger;
      at := if latest.Some? then latest.value else rows[id].updatedAt;
    }

    /** Creates the candidate roots whose kind is neither active nor cooling down. */
    method EnqueueInactiveRootBatch(repository: string, candidates: seq<Candidate>, override: Option<int>)
      returns (r: Checked<seq<Fate>>)
      requires Valid()
      modifies this
      ensures Valid()
      ensures match QueueModel.EnqueueBatch(old(Current()), repository, candidates, override)
              case Accepted(batch) => r == Accepted(batch.fates) && Current() == batch.state
              case Refused(why) => r == Refused(why) && Current() == old(Current())
    {
      hide Reached, Perform;
      if exists i :: 0 <= i < |candidates| &&
           (CooldownOf(candidates[i], override) < 0 || !SafeInteger(CooldownOf(candidates[i], override))) {
        return Refused(InvalidDefinition);
      }
      if !(repository in repos && repos[repository]) { return Refused(RepositoryNotEnabled); }
      var activeKinds := ActiveRootKinds(rows, repository);
      var noFinding := CoolingStreaks(repository, candidates, override);
      r := CreateInactive(repository, candidates, override, activeKinds, noFinding);
      BatchEnqueued(old(Current()), repository, candidates, override, Current());
    }

    /** The streaks, read only when some candidate asks for a cooldown. */
    method CoolingStreaks(repository: string, candidates: seq<Candidate>, override: Option<int>)
      returns (noFinding: map<string, Cooling>)
      requires forall i :: 0 <= i < |candidates| ==> CooldownOf(candidates[i], override) >= 0
      ensures forall i :: 0 <= i < |candidates| ==>
                CooledBy(noFinding, candidates[i].root.kind, CooldownOf(candidates[i], override), clock)
                == Cooled(Current(), repository, candidates[i].root.kind, CooldownOf(candidates[i], override))
    {
      noFinding := map[];
      if exists i :: 0 <= i < |candidates| && CooldownOf(candidates[i], override) > 0 {
        noFinding := NoFindingStreaks(repository);
      }
      forall i | 0 <= i < |candidates|
        ensures CooledBy(noFinding, candidates[i].root.kind, CooldownOf(candidates[i], override), clock)
             == Cooled(Current(), repository, candidates[i].root.kind, CooldownOf(candidates[i], override))
      {
        CoolingAgrees(Current(), repository, candidates[i].root.kind, CooldownOf(candidates[i], override), noFinding);
      }
    }

    method CreateInactive(repository: string, candidates: seq<Candidate>, override: Option<int>,
      activeKinds: set<string>, noFinding: map<string, Cooling>) returns (r: Checked<seq<Fate>>)
      requires forall i :: 0 <= i < |candidates| ==>
                 CooledBy(noFinding, candidates[i].root.kind, CooldownOf(candidates[i], override), clock)
                 == Cooled(Current(), repository, candidates[i].root.kind, CooldownOf(candidates[i], override))
      modifies `rows, `ledger
      ensures match BatchFrom(old(Current()), Batch(old(Current()), activeKinds, []), repository, candidates, override)
              case Accepted(batch) => r == Accepted(batch.fates) && Current() == batch.state
              case Refused(why) => r == Refused(why) && Current() == old(Current())
    {
      var rowsBefore, ledgerBefore := rows, ledger;
      var active, fates := activeKinds, [];
      for i := 0 to |candidates|
        invariant Current() == old(Current()).(rows := rows, ledger := ledger)
        invariant BatchFrom(old(Current()), Batch(Current(), active, fates), repository, candidates[i..], override)
               == BatchFrom(old(Current()), Batch(old(Current()), activeKinds, []), repository, candidates, override)
      {
        assert candidates[i..][0] == candidates[i] && candidates[i..][1..] == candidates[i + 1..];
        var one := CreateOne(repository, candidates[i], override, active, noFinding, old(Current()));
        if one.Refused? {
          rows, ledger := rowsBefore, ledgerBefore;
          return Refused(one.why);
        }
        fates := fates + [one.value];
        if one.value.Created? { active := active + {candidates[i].root.kind}; }
      }
      r := Accepted(fates);
    }

    /** One candidate, unless its kind is active or cooling down; `start` is the state the batch began in. */
    method CreateOne(repository: string, c: Candidate, override: Option<int>, active: set<string>,
      noFinding: map<string, Cooling>, ghost start: State) returns (r: Checked<Fate>)
      requires CooledBy(noFinding, c.root.kind, CooldownOf(c, override), clock)
            == Cooled(start, repository, c.root.kind, CooldownOf(c, override))
      modifies `rows, `ledger
      ensures forall fates: seq<Fate> ::
                match BatchOne(start, Batch(old(Current()), active, fates), repository, c, override)
                case Accepted(b) =>
                  && r.Accepted?
                  && b == Batch(Current(),
                            if r.value.Created? then active + {c.root.kind} else active, fates + [r.value])
                case Refused(why) => r == Refused(why) && Current() == old(Current())
    {
      var problem := RootProblem(c.root, false);
      if problem.Some? { return Refused(problem.value); }
      if c.root.predecessors.Some? { return Refused(PredecessorsRefused); }
      if c.root.kind in active { return Accepted(Skipped); }
      if CooledBy(noFinding, c.root.kind, CooldownOf(c, override), clock) { return Accepted(CooledDown); }
      var id := |rows|;
      problem := InsertRoot(repository, c.root, true, None, None, None, None);
      r := if problem.Some? then Refused(problem.value) else Accepted(Created(id));
    }

    // ----- claiming --------------------------------------------------------------------------

    /**
     * Decides one predecessor reference against stored state: its newest delivered
     * carrier, else its newest carrier.
     */
    method EvaluatePredecessor(ref: SourceRef) returns (report: PredecessorReport)
      requires Valid()
      ensures report.satisfied <==> Satisfied(rows, ref)
      ensures report.item.None? <==> forall c :: 0 <= c < |rows| ==> rows[c].def.sourceRef != Some(ref)
      ensures report.item.Some? ==>
                && report.item.value < |rows|
                && rows[report.item.value].def.sourceRef == Some(ref)
                && (report.satisfied <==> Delivered(rows[report.item.value]))
                && forall c ::
                     (0 <= c < |rows| && rows[c].def.sourceRef == Some(ref)
                      && (report.satisfied ==> Delivered(rows[c]))) ==>
                     rows[c].def.createdAt <= rows[report.item.value].def.createdAt
    {
      hide Reached, Perform;
      var newest: Option<nat> := None;
      var i := |rows|;
      while i > 0
        invariant 0 <= i <= |rows|
        invariant forall c :: i <= c < |rows| && rows[c].def.sourceRef == Some(ref) ==> !Delivered(rows[c])
        invariant newest.None? <==> forall c :: i <= c < |rows| ==> rows[c].def.sourceRef != Some(ref)
        invariant newest.Some? ==>
                    && i <= newest.value < |rows| && rows[newest.value].def.sourceRef == Some(ref)
                    && forall c :: newest.value < c < |rows| ==> rows[c].def.sourceRef != Some(ref)
      {
        i := i - 1;
        if rows[i].def.sourceRef == Some(ref) {
          if Delivered(rows[i]) {
            CreationOrder(Current());
            return PredecessorReport(true, Some(i));
          }
          if newest.None? { newest := Some(i); }
        }
      }
      CreationOrder(Current());
      report := PredecessorReport(false, newest);
    }

    /** Whether every reference is satisfied, reading each distinct one once per claim. */
    method AllSatisfied(refs: set<SourceRef>, known: map<SourceRef, bool>)
      returns (met: bool, cache: map<SourceRef, bool>)
      requires Valid()
      requires forall ref :: ref in known ==> (known[ref] <==> Satisfied(rows, ref))
      ensures met <==> forall ref :: ref in refs ==> Satisfied(rows, ref)
      ensures forall ref :: ref in cache ==> (cache[ref] <==> Satisfied(rows, ref))
    {
      hide Reached, Perform;
      met, cache := true, known;
      var left := refs;
      while met && left != {}
        invariant left <= refs
        invariant forall ref :: ref in cache ==> (cache[ref] <==> Satisfied(rows, ref))
        invariant met ==> forall ref :: ref in refs - left ==> Satisfied(rows, ref)
        invariant !met ==> exists ref :: ref in refs && !Satisfied(rows, ref)
        decreases |left| + if met then 1 else 0
      {
        var ref :| ref in left;
        if ref !in cache {
          var report := EvaluatePredecessor(ref);
          cache := cache[ref := report.satisfied];
        }
        met := cache[ref];
        left := left - {ref};
      }
    }

    /** The first of the gated candidates, in claim order, whose predecessors are all delivered. */
    method FirstUngated(gated: set<nat>) returns (best: Option<nat>)
      requires Valid() && forall id :: id in gated ==> id < |rows|
      ensures best.Some? ==> best.value in gated && PredecessorsMet(rows, rows[best.value])
      ensures best.Some? ==> forall id :: id in gated && PredecessorsMet(rows, rows[id]) ==>
        !Precedes(rows[id], rows[best.value])
      ensures best.None? ==> forall id :: id in gated ==> !PredecessorsMet(rows, rows[id])
    {
      hide Reached, Perform;
      var cache: map<SourceRef, bool> := map[];
      var left := gated;
      while left != {}
        invariant left <= gated
        invariant forall id :: id in gated - left ==> !PredecessorsMet(rows, rows[id])
        invariant forall ref :: ref in cache ==> (cache[ref] <==> Satisfied(rows, ref))
        decreases |left|
      {
        ClaimOrder.SomethingIsFirst(rows, left);
        var next :| next in left && forall id :: id in left ==> !Precedes(rows[id], rows[next]);
        var met := true;
        if rows[next].predecessors.Some? {
          met, cache := AllSatisfied(rows[next].predecessors.value, cache);
        }
        if met { return Some(next); }
        left := left - {next};
      }
      best := None;
    }

    method Claim(q: ClaimQuery) returns (r: Checked<Option<nat>>)
      requires Valid()
      modifies this
      ensures Valid()
      ensures match r
              case Refused(why) => ClaimRefusal(q) == Some(why) && Current() == old(Current())
              case Accepted(choice) =>
                && ClaimRefusal(q).None?
                && ClaimAnswer(old(Current()), q, choice)
                && QueueModel.Claim(old(Current()), q, choice) == Accepted(Current())
      ensures r.Accepted? <==> QueryFits(q)
      ensures r == Accepted(None) ==> Current() == old(Current()) && forall id: nat :: !Takeable(Current(), q, id)
      ensures r.Accepted? && r.value.Some? ==>
        && FirstOfTakeable(old(Current()), q, r.value.value)
        && HandedOut(old(Current()), q, r.value.value, Current())
    {
      hide Reached, Takeable, HandedOut, Take, Strike, PredecessorsMet;
      if ClaimRefusal(q).Some? { return Refused(ClaimRefusal(q).value); }
      var best := Select(q);
      if best.Some? {
        TakeLease(best.value, q.worker, LeaseSeconds(q.leaseSeconds).value);
      }
      r := Accepted(best);
      ReachedOn(old(Current()), OpClaim(q, best), Current());
      ClaimHandsOut(old(Current()), OpClaim(q, best), Current());
    }

    /** Strikes a lapsed lease, then claims the row under a fresh token. */
    method TakeLease(id: nat, worker: Principal, seconds: int)
      requires id < |rows|
      modifies `rows, `ledger, `tokens
      ensures Current() == Take(Strike(old(Current()), id), id, worker, seconds)
    {
      var row := rows[id];
      if row.stored == Claimed && row.lease.Some? {
        AddEvent(id, LeaseExpired(row.lease.value.owner, row.lease.value.expiresAt), System);
      }
      var token := tokens;
      tokens := tokens + 1;
      var expiresAt := clock + seconds * 1000;
      rows := rows[id := row.(stored := Claimed, lease := Some(Lease(worker, token, expiresAt)), updatedAt := clock)];
      AddEvent(id, WorkClaimed(expiresAt), worker);
    }

    /** The claim's selection: the best ungated candidate against the first gated one that is met. */
    method Select(q: ClaimQuery) returns (best: Option<nat>)
      requires Valid()
      ensures ClaimAnswer(Current(), q, best)
    {
      hide Reached, Perform;
      var running := Candidates(q);
      var ungated := set id | id in running && rows[id].predecessors.None?;
      var first: Option<nat> := None;
      if ungated != {} {
        ClaimOrder.SomethingIsFirst(rows, ungated);
        var id :| id in ungated && forall other :: other in ungated ==> !Precedes(rows[other], rows[id]);
        first := Some(id);
      }
      var gated := FirstUngated(running - ungated);
      best := ClaimOrder.BetterCandidate(rows, first, gated);
      assert forall id: nat :: Claimable(Current(), q, id) ==> id in running;
      SelectionAnswers(Current(), q, running, ungated, first, gated, best);
    }

    /** Every row that passes the claim's clauses, predecessors aside. */
    method Candidates(q: ClaimQuery) returns (running: set<nat>)
      ensures forall id: nat :: id in running <==> Runs(Current(), q, id)
      ensures forall id: nat :: id in running <==> InTheRunning(Current(), q, id)
    {
      running := {};
      var kinds := EffectiveKinds(q);
      for i := 0 to |rows|
        invariant forall id: nat :: id in running <==> id < i && Runs(Current(), q, id)
      {
        var row := rows[i];
        var count := CountReleases(i, clock - CLAIM_BACKOFF_WINDOW);
        if && row.repository in repos && repos[row.repository]
           && Available(row, clock)
           && count < CLAIM_BACKOFF_RELEASES
           && (q.repository.None? || row.repository == q.repository.value)
           && (kinds.None? || row.def.kind in kinds.value)
           && (eligible.None? || row.repository in eligible.value) {
          running := running + {i};
        }
      }
      forall id: nat ensures Runs(Current(), q, id) <==> InTheRunning(Current(), q, id) {
        InTheRunningIff(Current(), q, id);
      }
    }

    method CountReleases(id: nat, after: int) returns (count: nat)
      ensures count == ReleasesAfter(History(Current(), id), after)
    {
      count := 0;
      for i := 0 to |ledger|
        invariant count == ReleasesAfter(EventsOf(ledger[..i], id), after)
      {
        var e := ledger[i];
        NextEvent(ledger, i, id);
        Snoc(EventsOf(ledger[..i], id), e);
        if e.item == id && CountedRelease(e) && e.at > after { count := count + 1; }
      }
      assert ledger[..|ledger|] == ledger;
    }

    // ----- working under a lease ---------------------------------------------------------------

    /** The lease check every worker call starts with. */
    method CheckLease(id: nat, token: nat, worker: Principal) returns (refused: Option<Refusal>)
      ensures refused == LeaseRefusal(Current(), id, token, worker)
    {
      if !worker.Works() { return Some(WrongPrincipal); }
      if id >= |rows| { return Some(NotFound); }
      if rows[id].stored != Claimed { return Some(WrongStatus); }
      if rows[id].lease.None? { return Some(LeaseMismatch); }
      var lease := rows[id].lease.value;
      if lease.token != token || lease.owner != worker { return Some(LeaseMismatch); }
      if lease.expiresAt <= clock { return Some(LeaseLapsed); }
      refused := None;
    }

    method Heartbeat(id: nat, token: nat, worker: Principal, seconds: Option<int>) returns (refused: Option<Refusal>)
      requires Valid()
      modifies this
      ensures Valid() && Answered(old(Current()), QueueModel.Heartbeat(old(Current()), id, token, worker, seconds),
        Current(), refused)
    {
      hide Reached, Perform;
      refused := CheckLease(id, token, worker);
      if refused.Some? { return; }
      var extension := LeaseSeconds(seconds);
      if extension.Refused? { return Some(extension.why); }
      var expiresAt := clock + extension.value * 1000;
      rows := rows[id := rows[id].(lease := Some(rows[id].lease.value.(expiresAt := expiresAt)), updatedAt := clock)];
      AddEvent(id, LeaseRenewed(expiresAt), worker);
      Renewed(old(Current()), id, token, worker, seconds, Current());
    }

    method Block(id: nat, token: nat, worker: Principal, reason: string) returns (refused: Option<Refusal>)
      requires Valid()
      modifies this
      ensures Valid() && Answered(old(Current()), BlockWork(old(Current()), id, token, worker, reason), Current(),
        refused)
    {
      hide Reached, Perform;
      if !worker.Works() { return Some(WrongPrincipal); }
      if Blank(reason) { return Some(BlankText); }
      refused := CheckLease(id, token, worker);
      if refused.Some? { return; }
      rows := rows[id := rows[id].(stored := Blocked, result := Some(ReasonResult(reason)), lease := None,
        updatedAt := clock)];
      AddEvent(id, WorkBlocked(reason), worker);
      BlockedBy(old(Current()), id, token, worker, reason, Current());
    }

    method Release(id: nat, token: nat, worker: Principal, reason: string) returns (refused: Option<Refusal>)
      requires Valid()
      modifies this
      ensures Valid() && Answered(old(Current()), ReleaseWork(old(Current()), id, token, worker, reason), Current(),
        refused)
    {
      hide Reached, Perform;
      refused := CheckLease(id, token, worker);
      if refused.Some? { return; }
      rows := rows[id := rows[id].(stored := Queued, lease := None, updatedAt := clock)];
      AddEvent(id, WorkReleased(reason, None), worker);
      ReleasedBy(old(Current()), id, token, worker, reason, Current());
    }

    // ----- completing ----------------------------------------------------------------------------

    /** Walks to the root. The store gives up past the maximum depth, which no stored lineage reaches. */
    method LineageDepth(id: nat) returns (depth: Checked<nat>)
      requires Valid() && id < |rows|
      ensures depth == Accepted(Depth(rows, id))
    {
      hide Reached, Perform;
      var edges: nat, current: nat := 0, id;
      ReachedShape(Current(), id);
      while rows[current].def.parent.Some?
        invariant current <= id && edges + Depth(rows, current) == Depth(rows, id)
        decreases current
      {
        ParentBelow(Current(), current);
        edges := edges + 1;
        if edges > MAX_LINEAGE_DEPTH { return Refused(LineageTooDeep); }
        current := rows[current].def.parent.value;
      }
      depth := Accepted(edges);
    }

    method CheckArtifacts(row: Row, artifacts: seq<Artifact>) returns (refused: Option<Refusal>)
      ensures refused == ArtifactsProblem(row, artifacts)
    {
      for i := 0 to |artifacts|
        invariant ArtifactsProblem(row, artifacts) == ArtifactsProblem(row, artifacts[i..])
      {
        var a := artifacts[i];
        var action := ActionFor(a.kind);
        if action.Some? && action.value !in row.def.allowed { return Some(ArtifactNotAllowed); }
        if (action.Some? || a.kind == ArtifactKind.Release) && a.within != Some(row.repository) {
          return Some(ArtifactOutOfScope);
        }
      }
      refused := None;
    }

    /** Inserts the children of a completion, or none of them. */
    method InsertFollowUps(id: nat, parent: Row, followUps: seq<Proposal>, worker: Principal)
      returns (refused: Option<Refusal>, children: seq<nat>)
      modifies `rows, `ledger
      ensures Answered(old(Current()), AddFollowUps(old(Current()), id, parent, followUps, worker), Current(), refused)
      ensures refused.None? ==> children == seq(|followUps|, i requires 0 <= i < |followUps| => |old(rows)| + i)
    {
      var rowsBefore, ledgerBefore := rows, ledger;
      refused, children := InsertEach(id, parent, followUps, worker);
      if refused.Some? {
        rows, ledger := rowsBefore, ledgerBefore;
      }
    }

    /** Inserts the children in order, stopping at the first refused one. */
    method InsertEach(id: nat, parent: Row, followUps: seq<Proposal>, worker: Principal)
      returns (refused: Option<Refusal>, children: seq<nat>)
      modifies `rows, `ledger
      ensures AddFollowUps(old(Current()), id, parent, followUps, worker) ==
              if refused.Some? then Refused(refused.value) else Accepted(Current())
      ensures refused.None? ==> children == seq(|followUps|, i requires 0 <= i < |followUps| => |old(rows)| + i)
    {
      hide AddFollowUp;
      children := [];
      for i := 0 to |followUps|
        invariant |rows| == |old(rows)| + i && |children| == i
        invariant forall k :: 0 <= k < i ==> children[k] == |old(rows)| + k
        invariant AddFollowUps(Current(), id, parent, followUps[i..], worker)
               == AddFollowUps(old(Current()), id, parent, followUps, worker)
      {
        NextFollowUp(Current(), id, parent, followUps, i, worker);
        children := children + [|rows|];
        refused := InsertFollowUp(id, parent, followUps[i], worker);
        if refused.Some? { return; }
      }
      refused := None;
    }

    method InsertFollowUp(id: nat, parent: Row, proposal: Proposal, worker: Principal)
      returns (refused: Option<Refusal>)
      modifies `rows, `ledger
      ensures Answered(old(Current()), AddFollowUp(old(Current()), id, parent, proposal, worker), Current(), refused)
      ensures refused.None? ==> |rows| == |old(rows)| + 1
    {
      hide CheckFollowUp, AddFollowUps;
      var checked := CheckFollowUp(parent, proposal);
      if checked.Refused? { return Some(checked.why); }
      var f := checked.value;
      var bound := BindPolicy(parent.repository, f.kind, f.allowed, f.delegable, worker, false);
      if bound.Refused? { return Some(bound.why); }
      var child := |rows|;
      rows := rows + [Row(
        Definition(parent.def.rootId, Some(id), f.kind, f.brief, f.allowed, f.delegable, f.required,
          Some(f.target), worker, clock, None, InheritedCure(parent, f)),
        parent.repository, bound.value, parent.priority, Queued, false, clock, None, None, None, None, [], [])];
      AddEvent(child, WorkProposed(None), worker);
      refused := None;
    }

    method RecordCompletion(id: nat, parent: Row, worker: Principal, result: WorkResult, verdict: Option<Verdict>,
      children: seq<nat>)
      requires id < |rows|
      modifies `rows, `ledger
      ensures Current() == Finish(old(Current()), id, parent, worker, result, verdict, children)
    {
      var review := parent.review;
      if verdict.Some? && parent.review.Some? {
        review := Some(parent.review.value.(decision := Some(verdict.value.decision),
          blockers := verdict.value.blockers));
      }
      rows := rows[id := parent.(stored := Completed, result := Some(result), review := review, lease := None,
        updatedAt := clock)];
      AddEvent(id, WorkCompleted(children), worker);
      if verdict.Some? && parent.review.Some? {
        AddEvent(id, WorkReviewed(verdict.value.decision, parent.review.value.round, parent.review.value.headSha),
          worker);
        assert rows == rows[id := rows[id]];
      }
    }

    method Complete(id: nat, token: nat, worker: Principal, result: WorkResult, followUps: seq<Proposal>,
      verdict: Option<Verdict>)
      returns (refused: Option<Refusal>)
      requires Valid()
      modifies this
      ensures Valid()
      ensures Answered(old(Current()),
                QueueModel.Complete(old(Current()), id, token, worker, result, followUps, verdict),
                Current(), refused)
    {
      hide Reached, Perform;
      if !worker.Works() { return Some(WrongPrincipal); }
      if !ResultOk(result) { return Some(BlankText); }
      if |followUps| > MAX_FOLLOW_UPS { return Some(TooManyFollowUps); }
      refused := CheckLease(id, token, worker);
      if refused.Some? { return; }
      refused := CompleteLeased(id, worker, result, followUps, verdict);
      if refused.None? { CompletedBy(old(Current()), id, token, worker, result, followUps, verdict, Current()); }
    }

    method CompleteLeased(id: nat, worker: Principal, result: WorkResult, followUps: seq<Proposal>,
      verdict: Option<Verdict>)
      returns (refused: Option<Refusal>)
      requires Valid() && id < |rows|
      modifies `rows, `ledger
      ensures Answered(old(Current()), CompleteUnderLease(old(Current()), id, worker, result, followUps, verdict),
        Current(), refused)
    {
      hide Reached, Perform;
      var parent := rows[id];
      if followUps != [] {
        if CreateFollowup !in parent.def.allowed { return Some(FollowUpNotAllowed); }
        var depth := LineageDepth(id);
        if depth.value >= MAX_LINEAGE_DEPTH { return Some(LineageTooDeep); }
      }
      refused := CheckArtifacts(parent, result.artifacts);
      if refused.Some? { return; }
      if !RequiredArtifactReported(parent, result.artifacts) { return Some(RequiredArtifactMissing); }
      refused := ReviewProblem(parent, verdict);
      if refused.Some? { return; }
      var children;
      refused, children := InsertFollowUps(id, parent, followUps, worker);
      if refused.Some? { return; }
      RowsAppended(old(Current()), id, parent, followUps, worker);
      RecordCompletion(id, parent, worker, result, verdict, children);
    }

    // ----- operator decisions --------------------------------------------------------------------

    /** Who decides, on which item, having seen what. */
    method CheckDecision(id: nat, actor: Principal, seen: Option<Precondition>) returns (refused: Option<Refusal>)
      ensures refused == DecisionRefusal(Current(), id, actor, seen)
    {
      if !actor.Decides() { return Some(WrongPrincipal); }
      if id >= |rows| { return Some(NotFound); }
      if seen.Some? && (rows[id].Status() != seen.value.status || rows[id].updatedAt != seen.value.updatedAt) {
        return Some(Stale);
      }
      refused := None;
    }

    method Approve(id: nat, actor: Principal, seen: Option<Precondition>) returns (refused: Option<Refusal>)
      requires Valid()
      modifies this
      ensures Valid() && Answered(old(Current()), QueueModel.Approve(old(Current()), id, actor, seen), Current(),
        refused)
    {
      hide Reached, Perform;
      refused := CheckDecision(id, actor, seen);
      if refused.Some? { return; }
      var row := rows[id];
      if row.Status() != Proposed { return Some(WrongStatus); }
      var problem := ContractProblem(TermsOf(row, DelegableOf(rows, row.def.parent)));
      if problem.Some? { return Some(Refusal.Contract(problem.value)); }
      var policy := row.policy;
      if authorities.Some? {
        var rebound := BindPolicy(row.repository, row.def.kind, row.def.allowed, row.def.delegable, row.def.createdBy,
          false);
        if rebound.Refused? { return Some(rebound.why); }
        policy := Some(rebound.value.value.(
          authorization := Some(ByDecision(actor, rebound.value.value.reviewRequired, clock))));
      }
      rows := rows[id := row.(admitted := true, policy := policy, updatedAt := clock)];
      AddEvent(id, WorkApproved, actor);
      Approved(old(Current()), id, actor, seen, Current());
    }

    method Defer(id: nat, actor: Principal, reason: string, seen: Option<Precondition>)
      returns (refused: Option<Refusal>)
      requires Valid()
      modifies this
      ensures Valid() && Answered(old(Current()), QueueModel.Defer(old(Current()), id, actor, reason, seen),
        Current(), refused)
    {
      hide Reached, Perform;
      if actor.Decides() && !NoteOk(reason) { return Some(BlankText); }
      refused := CheckDecision(id, actor, seen);
      if refused.Some? { return; }
      var row := rows[id];
      if row.Status() != Stands(Queued) { return Some(WrongStatus); }
      rows := rows[id := row.(admitted := false, notes := row.notes + [Note(clock, actor, DeferNote, reason)],
        updatedAt := clock)];
      AddEvent(id, WorkDeferred(reason), actor);
      Deferred(old(Current()), id, actor, reason, seen, Current());
    }

    method AddNote(id: nat, actor: Principal, reason: string, seen: Option<Precondition>)
      returns (refused: Option<Refusal>)
      requires Valid()
      modifies this
      ensures Valid() && Answered(old(Current()), QueueModel.AddNote(old(Current()), id, actor, reason, seen),
        Current(), refused)
    {
      hide Reached, Perform;
      if actor.Decides() && !NoteOk(reason) { return Some(BlankText); }
      refused := CheckDecision(id, actor, seen);
      if refused.Some? { return; }
      rows := rows[id := rows[id].(notes := rows[id].notes + [Note(clock, actor, PlainNote, reason)],
        updatedAt := clock)];
      AddEvent(id, WorkNoted(reason), actor);
      NoteAdded(old(Current()), id, actor, reason, seen, Current());
    }

    method Prioritize(id: nat, actor: Principal, priority: int, reason: string, seen: Option<Precondition>)
      returns (refused: Option<Refusal>)
      requires Valid()
      modifies this
      ensures Valid()
      ensures Answered(old(Current()), QueueModel.Prioritize(old(Current()), id, actor, priority, reason, seen),
        Current(), refused)
    {
      hide Reached, Perform;
      if actor.Decides() && !SafeInteger(priority) { return Some(InvalidDefinition); }
      if actor.Decides() && !NoteOk(reason) { return Some(BlankText); }
      refused := CheckDecision(id, actor, seen);
      if refused.Some? { return; }
      var row := rows[id];
      if row.Status() != Proposed && row.Status() != Stands(Queued) && row.Status() != Stands(Blocked) {
        return Some(WrongStatus);
      }
      rows := rows[id := row.(
        priority := priority, notes := row.notes + [Note(clock, actor, PrioritizeNote, reason)], updatedAt := clock)];
      AddEvent(id, WorkPrioritized(row.priority, priority, reason), actor);
      Prioritized(old(Current()), id, actor, priority, reason, seen, Current());
    }

    method Reject(id: nat, actor: Principal, reason: string, seen: Option<Precondition>)
      returns (refused: Option<Refusal>)
      requires Valid()
      modifies this
      ensures Valid() && Answered(old(Current()), QueueModel.Reject(old(Current()), id, actor, reason, seen),
        Current(), refused)
    {
      hide Reached, Perform;
      if actor.Decides() && Blank(reason) { return Some(BlankText); }
      refused := CheckDecision(id, actor, seen);
      if refused.Some? { return; }
      if rows[id].Status() != Proposed { return Some(WrongStatus); }
      rows := rows[id := rows[id].(stored := Cancelled, result := Some(ReasonResult(reason)), updatedAt := clock)];
      AddEvent(id, WorkRejected(reason), actor);
      Rejected(old(Current()), id, actor, reason, seen, Current());
    }

    method Requeue(id: nat, actor: Principal, reason: string, seen: Option<Precondition>)
      returns (refused: Option<Refusal>)
      requires Valid()
      modifies this
      ensures Valid() && Answered(old(Current()), QueueModel.Requeue(old(Current()), id, actor, reason, seen),
        Current(), refused)
    {
      hide Reached, Perform;
      if actor.Decides() && !NoteOk(reason) { return Some(BlankText); }
      refused := CheckDecision(id, actor, seen);
      if refused.Some? { return; }
      var row := rows[id];
      if row.stored != Blocked { return Some(WrongStatus); }
      var previous := if row.result.Some? then row.previous + [row.result.value] else row.previous;
      rows := rows[id := row.(stored := Queued, result := None, previous := previous,
        notes := row.notes + [Note(clock, actor, RequeueNote, reason)], lease := None, updatedAt := clock)];
      AddEvent(id, WorkRequeued(reason), actor);
      Requeued(old(Current()), id, actor, reason, seen, Current());
    }

    method ReleaseLease(id: nat, actor: Principal, reason: string, seen: Option<Precondition>)
      returns (refused: Option<Refusal>)
      requires Valid()
      modifies this
      ensures Valid() && Answered(old(Current()), QueueModel.ReleaseLease(old(Current()), id, actor, reason, seen),
        Current(), refused)
    {
      hide Reached, Perform;
      if actor.Decides() && !NoteOk(reason) { return Some(BlankText); }
      refused := CheckDecision(id, actor, seen);
      if refused.Some? { return; }
      var row := rows[id];
      if row.stored != Claimed || row.lease.None? { return Some(WrongStatus); }
      rows := rows[id := row.(stored := Queued, lease := None,
        notes := row.notes + [Note(clock, actor, ReleaseLeaseNote, reason)], updatedAt := clock)];
      AddEvent(id, WorkReleased(reason, Some((row.lease.value.owner, row.lease.value.expiresAt))), actor);
      LeaseReleased(old(Current()), id, actor, reason, seen, Current());
    }

    method Cancel(id: nat, actor: Principal, reason: string, seen: Option<Precondition>)
      returns (refused: Option<Refusal>)
      requires Valid()
      modifies this
      ensures Valid() && Answered(old(Current()), QueueModel.Cancel(old(Current()), id, actor, reason, seen),
        Current(), refused)
    {
      hide Reached, Perform;
      if actor.Decides() && Blank(reason) { return Some(BlankText); }
      refused := CheckDecision(id, actor, seen);
      if refused.Some? { return; }
      if rows[id].stored != Blocked { return Some(WrongStatus); }
      rows := rows[id := rows[id].(stored := Cancelled, result := Some(ReasonResult(reason)), lease := None,
        updatedAt := clock)];
      AddEvent(id, WorkCancelled(reason), actor);
      CancelledBy(old(Current()), id, actor, reason, seen, Current());
    }

    method RetirePullRequestBoundWork(id: nat, actor: Principal, reason: string) returns (refused: Option<Refusal>)
      requires Valid()
      modifies this
      ensures Valid() && Answered(old(Current()), QueueModel.Retire(old(Current()), id, actor, reason), Current(),
        refused)
    {
      hide Reached, Perform;
      if actor.Decides() && Blank(reason) { return Some(BlankText); }
      refused := CheckDecision(id, actor, None);
      if refused.Some? { return; }
      if rows[id].Status() != Stands(Queued) && rows[id].stored != Blocked { return Some(WrongStatus); }
      rows := rows[id := rows[id].(stored := Cancelled, result := Some(ReasonResult(reason)), lease := None,
        updatedAt := clock)];
      AddEvent(id, WorkCancelled(reason), actor);
      Retired(old(Current()), id, actor, reason, Current());
    }

    method ReplaceProposedPredecessors(id: nat, refs: seq<SourceRef>, actor: Principal)
      returns (refused: Option<Refusal>)
      requires Valid()
      modifies this
      ensures Valid() && Answered(old(Current()), QueueModel.ReplacePredecessors(old(Current()), id, refs, actor),
        Current(), refused)
    {
      hide Reached, Perform;
      if !actor.Decides() { return Some(WrongPrincipal); }
      var replacement := NormalizePredecessors(Some(refs));
      if replacement.Refused? { return Some(replacement.why); }
      if id >= |rows| { return Some(NotFound); }
      if rows[id].Status() != Proposed { return Some(WrongStatus); }
      var previous := if rows[id].predecessors.Some? then rows[id].predecessors.value else {};
      rows := rows[id := rows[id].(predecessors := replacement.value, updatedAt := clock)];
      AddEvent(id, PredecessorsUpdated(if replacement.value.Some? then replacement.value.value else {}, previous),
        actor);
      refused := None;
      EdgesReplacedBy(old(Current()), id, refs, actor, Current());
    }

    // ----- artifacts of completed work --------------------------------------------------------------

    method RecordArtifactVerification(id: nat, url: string, verification: Verification, actor: Principal)
      returns (refused: Option<Refusal>)
      requires Valid()
      modifies this
      ensures Valid() && Answered(old(Current()), RecordVerification(old(Current()), id, url, verification, actor),
        Current(), refused)
    {
      hide Reached, Perform;
      refused := CheckCompleted(id);
      if refused.Some? { return; }
      var result := rows[id].result.value;
      var index := IndexOf(result.artifacts, url);
      if index.None? { return Some(ArtifactUnknown); }
      var artifact := result.artifacts[index.value];
      if !Verifiable(artifact.kind) { return Some(ArtifactNotVerifiable); }
      var artifacts := result.artifacts[index.value := artifact.(verification := Some(verification))];
      rows := rows[id := rows[id].(result := Some(result.(artifacts := artifacts)), updatedAt := clock)];
      AddEvent(id, ArtifactVerified(url), actor);
      Reverified(old(Current()), id, url, verification, actor, Current());
    }

    method CheckCompleted(id: nat) returns (refused: Option<Refusal>)
      ensures refused == CompletedRefusal(Current(), id)
    {
      if id >= |rows| { return Some(NotFound); }
      if rows[id].stored != Completed || rows[id].result.None? { return Some(WrongStatus); }
      refused := None;
    }

    method IndexOf(artifacts: seq<Artifact>, url: string) returns (index: Option<nat>)
      ensures index == FindArtifact(artifacts, url)
      ensures index.Some? ==> index.value < |artifacts| && artifacts[index.value].url == url
      ensures index.None? ==> forall k :: 0 <= k < |artifacts| ==> artifacts[k].url != url
    {
      for i := 0 to |artifacts|
        invariant forall k :: 0 <= k < i ==> artifacts[k].url != url
        invariant FindArtifact(artifacts, url) ==
                  match FindArtifact(artifacts[i..], url) { case None => None case Some(k) => Some(k + i) }
      {
        if artifacts[i].url == url { return Some(i); }
      }
      index := None;
    }

    method AttachArtifact(id: nat, actor: Principal, artifact: Artifact, seen: Option<Precondition>)
      returns (refused: Option<Refusal>)
      requires Valid()
      modifies this
      ensures Valid() && Answered(old(Current()), Attach(old(Current()), id, actor, artifact, seen), Current(), refused)
    {
      hide Reached, Perform;
      if actor.Decides() && (!Verifiable(artifact.kind) || artifact.verification.None?) {
        return Some(ArtifactNotVerifiable);
      }
      refused := CheckDecision(id, actor, seen);
      if refused.Some? { return; }
      refused := CheckCompleted(id);
      if refused.Some? { return; }
      if artifact.within != Some(rows[id].repository) { return Some(ArtifactOutOfScope); }
      var result := rows[id].result.value;
      var index := IndexOf(result.artifacts, artifact.url);
      if index.Some? { return Some(ArtifactDuplicate); }
      rows := rows[id := rows[id].(result := Some(result.(artifacts := result.artifacts + [artifact])),
        updatedAt := clock)];
      AddEvent(id, ArtifactAttached(artifact.url), actor);
      Attached(old(Current()), id, actor, artifact, seen, Current());
    }

    method RecordPullRequestReady(id: nat, url: PullUrl, actor: Principal, head: string, reviewItem: nat)
      returns (refused: Option<Refusal>)
      requires Valid()
      modifies this
      ensures Valid() && Answered(old(Current()), RecordReady(old(Current()), id, url, actor, head, reviewItem),
        Current(), refused)
    {
      hide Reached, Perform;
      if !actor.Decides() { return Some(WrongPrincipal); }
      refused := CheckCompleted(id);
      if refused.Some? { return; }
      var result := rows[id].result.value;
      var index := IndexOfPull(result.artifacts, url.number);
      if index.None? { return Some(ArtifactUnknown); }
      var artifact := result.artifacts[index.value];
      var artifacts := result.artifacts;
      if artifact.verification.Some? && artifact.verification.value.Verified? {
        artifact := artifact.(verification := Some(artifact.verification.value.(asDraft := false)));
        artifacts := artifacts[index.value := artifact];
      }
      assert artifacts == result.artifacts[index.value := LeftDraft(result.artifacts[index.value])];
      rows := rows[id := rows[id].(result := Some(result.(artifacts := artifacts)), updatedAt := clock)];
      AddEvent(id, ArtifactReady(url.text, head, reviewItem), actor);
      MarkedReady(old(Current()), id, url, actor, head, reviewItem, Current());
    }

    /** The first artifact that is the pull request of the number, by its identity. */
    method IndexOfPull(artifacts: seq<Artifact>, number: nat) returns (index: Option<nat>)
      ensures index == FindPull(artifacts, number)
      ensures index.Some? ==> index.value < |artifacts| && IsPull(artifacts[index.value], number)
      ensures index.Some? ==> forall k :: 0 <= k < index.value ==> !IsPull(artifacts[k], number)
      ensures index.None? ==> forall k :: 0 <= k < |artifacts| ==> !IsPull(artifacts[k], number)
    {
      for i := 0 to |artifacts|
        invariant forall k :: 0 <= k < i ==> !IsPull(artifacts[k], number)
        invariant FindPull(artifacts, number) ==
                  match FindPull(artifacts[i..], number) { case None => None case Some(k) => Some(k + i) }
      {
        if IsPull(artifacts[i], number) { return Some(i); }
      }
      index := None;
    }

    // ----- views -------------------------------------------------------------------------------------

    /** The item's newest leases, read from the newest `2 * limit + 1` of its lifecycle events. */
    method ReadAttempts(id: nat, limit: nat) returns (attempts: seq<Attempt>)
      requires Valid() && 1 <= limit <= MAX_ITEM_ATTEMPTS
      ensures id >= |rows| ==> attempts == []
      ensures id < |rows| ==> attempts == Newest(FullRead(rows[id], History(Current(), id), clock), limit)
    {
      hide Reached, Perform;
      if id >= |rows| { return []; }
      BoundedAnswer(Current(), id, limit);
      attempts := ReadSlice(id, limit);
    }

    method ReadSlice(id: nat, limit: nat) returns (attempts: seq<Attempt>)
      requires id < |rows|
      ensures attempts == BoundedRead(rows[id], History(Current(), id), clock, limit)
    {
      var selected := NewestLifecycle(id, 2 * limit + 1);
      attempts := FoldAttempts(selected);
      attempts := RepairOpen(id, attempts);
      attempts := Newest(attempts, limit);
    }

    /** A lease that lapsed with nobody reclaiming it has no event: the row and the clock say so. */
    method RepairOpen(id: nat, attempts: seq<Attempt>) returns (repaired: seq<Attempt>)
      requires id < |rows|
      ensures repaired == Repair(attempts, rows[id], clock)
    {
      repaired := attempts;
      if attempts != [] && attempts[|attempts| - 1].ending.None? {
        var lease := rows[id].lease;
        if rows[id].stored != Claimed || (lease.Some? && lease.value.expiresAt <= clock) {
          var ended := Ending(WasExpired, if lease.Some? then lease.value.expiresAt else clock, System);
          repaired := attempts[|attempts| - 1 := attempts[|attempts| - 1].(ending := Some(ended))];
        }
      }
    }

    method FoldAttempts(selected: seq<Event>) returns (attempts: seq<Attempt>)
      ensures attempts == ReadEvents(selected)
    {
      attempts := [];
      for i := 0 to |selected|
        invariant attempts == ReadEvents(selected[..i])
      {
        assert selected[..i + 1][..i] == selected[..i];
        var e := selected[i];
        if e.body.WorkClaimed? {
          attempts := attempts + [Attempt(e.sequence, e.at, e.actor, None)];
        } else if attempts != [] && attempts[|attempts| - 1].ending.None? {
          attempts := attempts[|attempts| - 1 := attempts[|attempts| - 1].(ending := Some(EndingOf(e)))];
        }
      }
      assert selected[..|selected|] == selected;
    }

    /** Reads the ledger backwards until it has enough of the item's lifecycle events. */
    method NewestLifecycle(id: nat, count: nat) returns (selected: seq<Event>)
      ensures selected == Newest(Lifecycle(History(Current(), id)), count)
    {
      hide EventsOf, Lifecycle;
      selected := [];
      var i := |ledger|;
      assert ledger[..i] == ledger;
      NoLifecycleYet(ledger, id);
      while i > 0 && |selected| < count
        invariant 0 <= i <= |ledger| && |selected| <= count
        invariant Lifecycle(EventsOf(ledger, id)) == Lifecycle(EventsOf(ledger[..i], id)) + selected
      {
        i := i - 1;
        NextLifecycle(ledger, i, id);
        if ledger[i].item == id && ledger[i].body.Lifecycle() {
          selected := [ledger[i]] + selected;
        }
      }
    }

    /** Every queued, admitted item claim selection is backing off, with its counted releases and its return. */
    method ChurningItems() returns (churning: seq<Churn>)
      requires Valid()
      ensures forall k :: 0 <= k < |churning| ==>
                && var c := churning[k];
                   && c.item < |rows| && rows[c.item].Status() == Stands(Queued)
                   && BackedOff(Current(), c.item)
                   && c.releases == NewestReleases(History(Current(), c.item), clock - CLAIM_BACKOFF_WINDOW)
                   && c.until == BackoffUntil(Current(), c.item)
      ensures forall id: nat :: id < |rows| && rows[id].Status() == Stands(Queued) && BackedOff(Current(), id) ==>
                exists k :: 0 <= k < |churning| && churning[k].item == id
    {
      hide Reached, Perform;
      churning := [];
      for i := 0 to |rows|
        invariant forall k :: 0 <= k < |churning| ==> ChurnRead(Current(), churning[k])
        invariant forall id: nat :: id < i && rows[id].Status() == Stands(Queued) && BackedOff(Current(), id) ==>
                    exists k :: 0 <= k < |churning| && churning[k].item == id
      {
        if rows[i].stored == Queued && rows[i].admitted {
          var releases := CountedReleases(i, clock - CLAIM_BACKOFF_WINDOW);
          ReleasesCounted(Current(), i);
          if |releases| >= CLAIM_BACKOFF_RELEASES {
            ghost var before := churning;
            churning := churning + [Churn(i, releases, releases[CLAIM_BACKOFF_RELEASES - 1].at + CLAIM_BACKOFF_WINDOW)];
            assert churning[|before|].item == i;
            assert forall k :: 0 <= k < |before| ==> churning[k] == before[k];
          }
        }
      }
    }

    /** The item's counted releases after an instant, newest first. */
    method CountedReleases(id: nat, after: int) returns (releases: seq<Event>)
      ensures releases == NewestReleases(History(Current(), id), after)
    {
      releases := [];
      for i := 0 to |ledger|
        invariant releases == NewestReleases(EventsOf(ledger[..i], id), after)
      {
        NextEvent(ledger, i, id);
        Snoc(EventsOf(ledger[..i], id), ledger[i]);
        if ledger[i].item == id && CountedRelease(ledger[i]) && ledger[i].at > after {
          releases := [ledger[i]] + releases;
        }
      }
      assert ledger[..|ledger|] == ledger;
    }

    /** The non-terminal items whose stored contract the rules disagree with: only ever those no policy binds. */
    method AuditContracts(repository: Option<string>) returns (findings: seq<(nat, ProblemCode)>)
      requires Valid()
      ensures forall k :: 0 <= k < |findings| ==>
                findings[k].0 < |rows| && findings[k].1 == UnboundPolicy
                  && Unbound(Current(), rows[findings[k].0], repository)
      ensures forall id: nat :: id < |rows| && Unbound(Current(), rows[id], repository) ==>
        (id, UnboundPolicy) in findings
    {
      hide Reached, Perform;
      findings := [];
      for i := 0 to |rows|
        invariant forall k :: 0 <= k < |findings| ==>
                    findings[k].0 < |rows| && findings[k].1 == UnboundPolicy
                      && Unbound(Current(), rows[findings[k].0], repository)
        invariant forall id: nat :: id < i && Unbound(Current(), rows[id], repository) ==>
          (id, UnboundPolicy) in findings
      {
        var row := rows[i];
        if !row.Terminal() && (repository.None? || row.repository == repository.value) {
          var problem := ContractProblem(TermsOf(row, None));
          if problem.None? && row.def.target.None? { problem := Some(UndeclaredTarget); }
          if problem.None? && authorities.Some? && row.policy.None? { problem := Some(UnboundPolicy); }
          AuditAnswer(Current(), i);
          if problem.Some? { findings := findings + [(i, problem.value)]; }
        }
      }
    }
  }

  /** A kind's recorded streak still holds it back. */
  predicate CooledBy(noFinding: map<string, Cooling>, kind: string, base: int, now: int) {
    && kind in noFinding
    && var seconds := BackedOffCooldown(base, noFinding[kind].streak);
       seconds > 0 && noFinding[kind].completedAt >= now - seconds * 1000
  }

  lemma NoLifecycleYet(ledger: seq<Event>, id: nat)
    ensures Lifecycle(EventsOf(ledger[..0], id)) == []
  {
  }

  /** The lifecycle events of one event more. */
  lemma NextLifecycle(ledger: seq<Event>, i: nat, id: nat)
    requires i < |ledger|
    ensures Lifecycle(EventsOf(ledger[..i + 1], id)) ==
              Lifecycle(EventsOf(ledger[..i], id))
                + if ledger[i].item == id && ledger[i].body.Lifecycle() then [ledger[i]] else []
  {
    NextEvent(ledger, i, id);
    Snoc(EventsOf(ledger[..i], id), ledger[i]);
  }

  lemma ParentBelow(s: State, id: nat)
    requires Reached(s) && id < |s.rows| && s.rows[id].def.parent.Some?
    ensures s.rows[id].def.parent.value < id && Depth(s.rows, id) <= MAX_LINEAGE_DEPTH
  {
    hide Reached, Perform;
    ReachedHolds(s);
    assert LineageOk(s.rows, id);
  }

  lemma NextFollowUp(s: State, id: nat, parent: Row, followUps: seq<Proposal>, i: nat, worker: Principal)
    requires i < |followUps|
    ensures AddFollowUps(s, id, parent, followUps[i..], worker) ==
            match AddFollowUp(s, id, parent, followUps[i], worker)
            case Refused(why) => Refused(why)
            case Accepted(next) => AddFollowUps(next, id, parent, followUps[i + 1..], worker)
  {
    assert followUps[i..][0] == followUps[i] && followUps[i..][1..] == followUps[i + 1..];
  }

  lemma RowsAppended(s: State, id: nat, parent: Row, proposals: seq<Proposal>, worker: Principal)
    requires AddFollowUps(s, id, parent, proposals, worker).Accepted?
    ensures |AddFollowUps(s, id, parent, proposals, worker).value.rows| == |s.rows| + |proposals|
  {
    FollowUpsAreChildren(s, id, parent, proposals, worker);
  }

  lemma BoundedAnswer(s: State, id: nat, limit: nat)
    requires Reached(s) && id < |s.rows| && 1 <= limit
    ensures BoundedRead(s.rows[id], History(s, id), s.clock, limit)
         == Newest(FullRead(s.rows[id], History(s, id), s.clock), limit)
  {
    hide Perform;
    var trace, ops :| RunTo(trace, ops, s);
    BoundedReadIsFullRead(trace, ops, |ops|, id, limit);
  }

  /** One line of the churn view. */
  ghost predicate ChurnRead(s: State, c: Churn) {
    && c.item < |s.rows| && s.rows[c.item].Status() == Stands(Queued)
    && BackedOff(s, c.item)
    && c.releases == NewestReleases(History(s, c.item), s.clock - CLAIM_BACKOFF_WINDOW)
    && c.until == BackoffUntil(s, c.item)
  }

  lemma ReleasesCounted(s: State, id: nat)
    requires Reached(s) && id < |s.rows|
    ensures |NewestReleases(History(s, id), s.clock - CLAIM_BACKOFF_WINDOW)| >= CLAIM_BACKOFF_RELEASES <==>
      BackedOff(s, id)
  {
    hide Reached, Perform;
    ReachedHolds(s);
    assert ItemOk(s.rows[id], History(s, id), s.clock);
    LeadingReleasesStay(History(s, id), s.clock, s.clock - CLAIM_BACKOFF_WINDOW, s.clock - CLAIM_BACKOFF_WINDOW);
  }

  /** Non-terminal work of the repository that a configured policy authority does not bind. */
  predicate Unbound(s: State, row: Row, repository: Option<string>) {
    !row.Terminal() && s.authorities.Some? && row.policy.None?
      && (repository.None? || row.repository == repository.value)
  }

  lemma AuditAnswer(s: State, id: nat)
    requires Reached(s) && id < |s.rows|
    ensures AuditProblem(s, s.rows[id]) ==
            if s.authorities.Some? && s.rows[id].policy.None? then Some(UnboundPolicy) else None
  {
    var trace, ops :| RunTo(trace, ops, s);
    AuditFindsOnlyUnbound(trace, ops, |ops|, id);
  }

  /** What the streak read must answer for one kind. */
  ghost predicate StreakRead(s: State, repository: string, kind: string, streaks: map<string, Cooling>) {
    var streak := Streak(s.rows, repository, kind, |s.rows|);
    var newest := NewestRoot(s.rows, repository, kind, |s.rows|);
    && (kind in streaks <==> streak > 0)
    && (kind in streaks ==>
          && streaks[kind].streak == streak
          && newest.Some? && newest.value < |s.rows|
          && streaks[kind].completedAt == CompletedAt(s, newest.value))
  }

  /** The same while the rows below `i` are still unread. */
  ghost predicate StreakSoFar(s: State, repository: string, kind: string, streaks: map<string, Cooling>,
    settled: set<string>, i: nat)
    requires i <= |s.rows|
  {
    var newest := NewestRoot(s.rows, repository, kind, |s.rows|);
    && Streak(s.rows, repository, kind, |s.rows|) ==
         (if kind in streaks then streaks[kind].streak else 0)
         + (if kind in settled then 0 else Streak(s.rows, repository, kind, i))
    && (kind !in streaks && kind !in settled ==> newest == NewestRoot(s.rows, repository, kind, i))
    && (kind in streaks ==>
          && streaks[kind].streak > 0
          && newest.Some? && newest.value < |s.rows|
          && streaks[kind].completedAt == CompletedAt(s, newest.value))
  }

  /** With a streak read wherever a cooldown is asked for, the read decides the cooldown. */
  lemma CoolingAgrees(s: State, repository: string, kind: string, base: int, streaks: map<string, Cooling>)
    requires base >= 0 && (base > 0 ==> StreakRead(s, repository, kind, streaks))
    ensures CooledBy(streaks, kind, base, s.clock) == Cooled(s, repository, kind, base)
  {
  }

  lemma NextEvent(ledger: seq<Event>, i: nat, id: nat)
    requires i < |ledger|
    ensures ledger[i].item == id ==> EventsOf(ledger[..i + 1], id) == EventsOf(ledger[..i], id) + [ledger[i]]
    ensures ledger[i].item != id ==> EventsOf(ledger[..i + 1], id) == EventsOf(ledger[..i], id)
  {
    assert ledger[..i + 1][..i] == ledger[..i];
  }

  /** Splitting the candidates into ungated and gated does not change what a claim may answer. */
  lemma SelectionAnswers(s: State, q: ClaimQuery, running: set<nat>, ungated: set<nat>,
    first: Option<nat>, gated: Option<nat>, best: Option<nat>)
    requires forall id: nat :: id in running <==> Runs(s, q, id)
    requires forall id :: id in running ==> id < |s.rows|
    requires forall id :: id in ungated <==> id in running && s.rows[id].predecessors.None?
    requires first.None? <==> ungated == {}
    requires first.Some? ==> first.value < |s.rows|
    requires gated.Some? ==> gated.value < |s.rows|
    requires first.Some? ==> first.value in ungated && forall id :: id in ungated ==>
      !Precedes(s.rows[id], s.rows[first.value])
    requires gated.Some? ==> gated.value in running - ungated && PredecessorsMet(s.rows, s.rows[gated.value])
    requires gated.Some? ==> forall id :: id in running - ungated && PredecessorsMet(s.rows, s.rows[id]) ==>
               !Precedes(s.rows[id], s.rows[gated.value])
    requires gated.None? ==> forall id :: id in running - ungated ==> !PredecessorsMet(s.rows, s.rows[id])
    requires best == ClaimOrder.BetterCandidate(s.rows, first, gated)
    ensures ClaimAnswer(s, q, best)
  {
    forall id: nat | Claimable(s, q, id)
      ensures best.Some? && !Precedes(s.rows[id], s.rows[best.value])
    {
      if id in ungated {
        assert !Precedes(s.rows[id], s.rows[first.value]);
      } else {
        assert id in running - ungated;
      }
    }
  }
}
