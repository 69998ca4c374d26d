/** The mechanical feeders: what a batch does with each candidate, and that feeding twice is feeding once. */
module Feeders {
  import opened WorkTypes
  import opened QueueModel

  // ----- what becomes of each candidate -----------------------------------------------

  /** A candidate before position `k` with the kind was created. */
  predicate CreatedBefore(candidates: seq<Candidate>, fates: seq<Fate>, k: nat, kind: string) {
    exists j :: 0 <= j < k && j < |candidates| && j < |fates| && fates[j].Created? && candidates[j].root.kind == kind
  }

  /** The batch's rule for candidate `k`, judged on the state the batch began in. */
  predicate FateFits(start: State, repository: string, candidates: seq<Candidate>, override: Option<int>,
    fates: seq<Fate>, k: nat)
    requires k < |candidates| && k < |fates|
  {
    var kind := candidates[k].root.kind;
    var active := kind in ActiveRootKinds(start.rows, repository) || CreatedBefore(candidates, fates, k, kind);
    var cooled := Cooled(start, repository, kind, CooldownOf(candidates[k], override));
    && (fates[k] == Skipped <==> active)
    && (fates[k] == CooledDown <==> !active && cooled)
    && (fates[k].Created? <==> !active && !cooled)
  }

  /** The row is the candidate's root, admitted and waiting. */
  predicate FreshRoot(row: Row, id: nat, repository: string, root: Root) {
    && row.repository == repository && row.def.rootId == id && row.def.parent.None?
    && row.def.kind == root.kind && row.def.allowed == root.allowed && row.def.delegable == root.delegable
    && row.admitted && row.stored == Queued
  }

  ghost predicate ActiveFits(start: State, active: set<string>, repository: string, candidates: seq<Candidate>,
    fates: seq<Fate>) {
    forall kind :: kind in active <==>
      kind in ActiveRootKinds(start.rows, repository) || CreatedBefore(candidates, fates, |fates|, kind)
  }

  ghost predicate FatesFit(start: State, repository: string, candidates: seq<Candidate>, override: Option<int>,
    fates: seq<Fate>) {
    && |fates| <= |candidates|
    && forall j :: 0 <= j < |fates| ==> FateFits(start, repository, candidates, override, fates, j)
  }

  /** The created roots, and nothing else, were added to the tables. */
  ghost predicate RowsFit(start: State, s: State, repository: string, candidates: seq<Candidate>, fates: seq<Fate>) {
    && |fates| <= |candidates|
    && start.rows <= s.rows && start.ledger <= s.ledger && s == start.(rows := s.rows, ledger := s.ledger)
    && (forall j :: 0 <= j < |fates| && fates[j].Created? ==>
          |start.rows| <= fates[j].id < |s.rows|
            && FreshRoot(s.rows[fates[j].id], fates[j].id, repository, candidates[j].root))
    && (forall i :: |start.rows| <= i < |s.rows| ==> CreatedAs(fates, i))
    && (forall k :: |start.ledger| <= k < |s.ledger| ==> s.ledger[k].item >= |start.rows|)
  }

  predicate CreatedAs(fates: seq<Fate>, i: nat) {
    exists j :: 0 <= j < |fates| && fates[j] == Created(i)
  }

  /** Progress of a batch. */
  ghost predicate BatchFits(start: State, b: Batch, repository: string, candidates: seq<Candidate>,
    override: Option<int>) {
    && ActiveFits(start, b.active, repository, candidates, b.fates)
    && FatesFit(start, repository, candidates, override, b.fates)
    && RowsFit(start, b.state, repository, candidates, b.fates)
  }

  lemma ActiveGrows(start: State, b: Batch, repository: string, candidates: seq<Candidate>, fate: Fate,
    active: set<string>)
    requires |b.fates| < |candidates| && ActiveFits(start, b.active, repository, candidates, b.fates)
    requires active == if fate.Created? then b.active + {candidates[|b.fates|].root.kind} else b.active
    ensures ActiveFits(start, active, repository, candidates, b.fates + [fate])
  {
    var k := |b.fates|;
    forall kind
      ensures kind in active <==>
                kind in ActiveRootKinds(start.rows, repository)
                  || CreatedBefore(candidates, b.fates + [fate], k + 1, kind)
    {
      SameCreatedBefore(candidates, b.fates, b.fates + [fate], k, kind);
      OneMoreCreated(candidates, b.fates + [fate], k, kind);
    }
  }

  lemma FatesGrow(start: State, repository: string, candidates: seq<Candidate>, override: Option<int>,
    fates: seq<Fate>, fate: Fate)
    requires |fates| < |candidates| && FatesFit(start, repository, candidates, override, fates)
    requires var kind := candidates[|fates|].root.kind;
             var active := kind in ActiveRootKinds(start.rows, repository)
               || CreatedBefore(candidates, fates, |fates|, kind);
             var cooled := Cooled(start, repository, kind, CooldownOf(candidates[|fates|], override));
             if active then fate == Skipped else if cooled then fate == CooledDown else fate.Created?
    ensures FatesFit(start, repository, candidates, override, fates + [fate])
  {
    forall j | 0 <= j < |fates| + 1
      ensures FateFits(start, repository, candidates, override, fates + [fate], j)
    {
      SameCreatedBefore(candidates, fates, fates + [fate], j, candidates[j].root.kind);
      if j < |fates| {
        assert FateFits(start, repository, candidates, override, fates, j);
      }
    }
  }

  lemma RowsGrow(start: State, s: State, t: State, repository: string, candidates: seq<Candidate>, fates: seq<Fate>,
    fate: Fate)
    requires RowsFit(start, s, repository, candidates, fates) && |fates| < |candidates|
    requires if fate.Created? then
               && InsertRoot(s, repository, candidates[|fates|].root, true, None, None, None, None) == Accepted(t)
               && fate.id == |s.rows|
             else t == s
    ensures RowsFit(start, t, repository, candidates, fates + [fate])
  {
    var more := fates + [fate];
    forall i | |start.rows| <= i < |t.rows| ensures CreatedAs(more, i) {
      if i < |s.rows| {
        assert CreatedAs(fates, i);
        var j :| 0 <= j < |fates| && fates[j] == Created(i);
        assert more[j] == Created(i);
      } else {
        assert more[|fates|] == Created(i);
      }
    }
    forall j | 0 <= j < |more| && more[j].Created?
      ensures |start.rows| <= more[j].id < |t.rows|
        && FreshRoot(t.rows[more[j].id], more[j].id, repository, candidates[j].root)
    {
      if j < |fates| { assert fates[j].Created?; }
    }
  }

  lemma OneFate(start: State, b: Batch, repository: string, candidates: seq<Candidate>, override: Option<int>)
    requires |b.fates| < |candidates| && BatchFits(start, b, repository, candidates, override)
    requires BatchOne(start, b, repository, candidates[|b.fates|], override).Accepted?
    ensures var next := BatchOne(start, b, repository, candidates[|b.fates|], override).value;
            BatchFits(start, next, repository, candidates, override) && |next.fates| == |b.fates| + 1
    ensures RootProblem(candidates[|b.fates|].root, false).None? && candidates[|b.fates|].root.predecessors.None?
  {
    var next := BatchOne(start, b, repository, candidates[|b.fates|], override).value;
    var fate := next.fates[|b.fates|];
    ActiveGrows(start, b, repository, candidates, fate, next.active);
    FatesGrow(start, repository, candidates, override, b.fates, fate);
    RowsGrow(start, b.state, next.state, repository, candidates, b.fates, fate);
  }

  lemma SameCreatedBefore(candidates: seq<Candidate>, fates: seq<Fate>, more: seq<Fate>, k: nat, kind: string)
    requires fates <= more && k <= |fates|
    ensures CreatedBefore(candidates, more, k, kind) <==> CreatedBefore(candidates, fates, k, kind)
  {
    if CreatedBefore(candidates, more, k, kind) {
      var j :| 0 <= j < k && j < |candidates| && j < |more| && more[j].Created? && candidates[j].root.kind == kind;
      assert fates[j].Created?;
    }
    if CreatedBefore(candidates, fates, k, kind) {
      var j :| 0 <= j < k && j < |candidates| && j < |fates| && fates[j].Created? && candidates[j].root.kind == kind;
      assert more[j].Created?;
    }
  }

  lemma OneMoreCreated(candidates: seq<Candidate>, fates: seq<Fate>, k: nat, kind: string)
    requires k < |fates| && k < |candidates|
    ensures CreatedBefore(candidates, fates, k + 1, kind) <==>
            CreatedBefore(candidates, fates, k, kind) || (fates[k].Created? && candidates[k].root.kind == kind)
  {
    if CreatedBefore(candidates, fates, k + 1, kind) {
      var j :| 0 <= j < k + 1 && j < |candidates| && j < |fates| && fates[j].Created?
        && candidates[j].root.kind == kind;
      if j < k { assert CreatedBefore(candidates, fates, k, kind); }
    }
    if fates[k].Created? && candidates[k].root.kind == kind {
      assert 0 <= k < k + 1;
    }
  }

  lemma {:induction false} BatchFatesFrom(start: State, b: Batch, repository: string, candidates: seq<Candidate>,
    override: Option<int>)
    requires BatchFits(start, b, repository, candidates, override)
    requires BatchFrom(start, b, repository, candidates[|b.fates|..], override).Accepted?
    ensures var done := BatchFrom(start, b, repository, candidates[|b.fates|..], override).value;
            BatchFits(start, done, repository, candidates, override) && |done.fates| == |candidates|
    ensures forall k :: |b.fates| <= k < |candidates| ==>
              RootProblem(candidates[k].root, false).None? && candidates[k].root.predecessors.None?
    decreases |candidates| - |b.fates|
  {
    var k := |b.fates|;
    if k < |candidates| {
      assert candidates[k..][0] == candidates[k] && candidates[k..][1..] == candidates[k + 1..];
      OneFate(start, b, repository, candidates, override);
      BatchFatesFrom(start, BatchOne(start, b, repository, candidates[k], override).value, repository, candidates,
        override);
    }
  }

  /**
   * An accepted batch creates a candidate exactly when its kind was neither
   * active nor cooling down when the batch began and no earlier candidate of
   * the kind was created; it adds those roots, in order, and nothing else.
   */
  lemma BatchFates(s: State, repository: string, candidates: seq<Candidate>, override: Option<int>)
    requires EnqueueBatch(s, repository, candidates, override).Accepted?
    ensures var b := EnqueueBatch(s, repository, candidates, override).value;
            && |b.fates| == |candidates|
            && FatesFit(s, repository, candidates, override, b.fates)
            && RowsFit(s, b.state, repository, candidates, b.fates)
    ensures forall k :: 0 <= k < |candidates| ==>
              RootProblem(candidates[k].root, false).None? && candidates[k].root.predecessors.None?
  {
    var b := Batch(s, ActiveRootKinds(s.rows, repository), []);
    assert candidates[0..] == candidates;
    BatchFatesFrom(s, b, repository, candidates, override);
  }

  // ----- feeding twice ----------------------------------------------------------------------

  lemma RefsStayTaken(s: State, t: State, repository: string, ref: SourceRef)
    requires s.rows <= t.rows && SourceRefExists(s, repository, ref)
    ensures SourceRefExists(t, repository, ref)
  {
    var i :| 0 <= i < |s.rows| && s.rows[i].repository == repository && s.rows[i].def.sourceRef == Some(ref);
    assert t.rows[i] == s.rows[i];
  }

  /** After an import its reference is taken, and every reference taken before still is. */
  lemma ImportKeepsRefs(s: State, repository: string, candidate: Import)
    requires EnqueueImport(s, repository, candidate).Accepted?
    ensures var t := EnqueueImport(s, repository, candidate).value;
            && s.rows <= t.rows && t.repos == s.repos
            && SourceRefExists(t, repository, candidate.sourceRef)
            && forall ref :: SourceRefExists(s, repository, ref) ==> SourceRefExists(t, repository, ref)
  {
    var t := EnqueueImport(s, repository, candidate).value;
    if !SourceRefExists(s, repository, candidate.sourceRef) {
      assert t.rows[|s.rows|].repository == repository && t.rows[|s.rows|].def.sourceRef == Some(candidate.sourceRef);
    }
    forall ref | SourceRefExists(s, repository, ref)
      ensures SourceRefExists(t, repository, ref)
    {
      RefsStayTaken(s, t, repository, ref);
    }
  }

  lemma {:induction false} ImportsTakeEveryRef(s: State, repository: string, imports: seq<Import>)
    requires EnqueueImports(s, repository, imports).Accepted?
    ensures var t := EnqueueImports(s, repository, imports).value;
            && s.rows <= t.rows && t.repos == s.repos
            && forall k :: 0 <= k < |imports| ==>
                 && SourceRefExists(t, repository, imports[k].sourceRef)
                 && RootProblem(imports[k].root, false).None?
                 && NormalizePredecessors(imports[k].root.predecessors).Accepted?
    decreases |imports|
  {
    if imports != [] {
      var next := EnqueueImport(s, repository, imports[0]).value;
      var t := EnqueueImports(s, repository, imports).value;
      ImportKeepsRefs(s, repository, imports[0]);
      ImportsTakeEveryRef(next, repository, imports[1..]);
      RefsStayTaken(next, t, repository, imports[0].sourceRef);
      forall k | 0 < k < |imports| ensures imports[k] == imports[1..][k - 1] {
      }
    }
  }

  lemma {:induction false} KnownImportsAddNothing(t: State, repository: string, imports: seq<Import>)
    requires forall k :: 0 <= k < |imports| ==>
               && SourceRefExists(t, repository, imports[k].sourceRef)
               && RootProblem(imports[k].root, false).None?
               && NormalizePredecessors(imports[k].root.predecessors).Accepted?
    ensures EnqueueImports(t, repository, imports) == Accepted(t)
    decreases |imports|
  {
    if imports != [] { KnownImportsAddNothing(t, repository, imports[1..]); }
  }

  /** Importing the same roots again creates nothing. */
  lemma ImportTwiceIsOnce(s: State, repository: string, imports: seq<Import>)
    requires EnqueueProposed(s, repository, imports).Accepted?
    ensures var t := EnqueueProposed(s, repository, imports).value;
            EnqueueProposed(t, repository, imports) == Accepted(t)
  {
    ImportsTakeEveryRef(s, repository, imports);
    KnownImportsAddNothing(EnqueueProposed(s, repository, imports).value, repository, imports);
  }

  /** Enqueueing the same cure or review root again creates nothing. */
  lemma GateRootTwiceIsOnce(s: State, repository: string, root: Root, ref: SourceRef, cure: Cure, review: Review)
    ensures var t := EnqueueCure(s, repository, root, ref, cure);
            t.Accepted? ==> EnqueueCure(t.value, repository, root, ref, cure) == t
    ensures var t := EnqueueReview(s, repository, root, ref, review);
            t.Accepted? ==> EnqueueReview(t.value, repository, root, ref, review) == t
  {
    hide RootProblem, BindPolicy, ReviewOk, GateRootOk;
    CureTakesRef(s, repository, root, ref, cure);
    ReviewTakesRef(s, repository, root, ref, review);
  }

  lemma CureTakesRef(s: State, repository: string, root: Root, ref: SourceRef, cure: Cure)
    ensures var t := EnqueueCure(s, repository, root, ref, cure);
            t.Accepted? ==> SourceRefExists(t.value, repository, ref) && t.value.repos == s.repos
  {
    hide RootProblem, BindPolicy;
    var t := EnqueueCure(s, repository, root, ref, cure);
    if t.Accepted? && !SourceRefExists(s, repository, ref) {
      assert t.value.rows[|s.rows|].repository == repository && t.value.rows[|s.rows|].def.sourceRef == Some(ref);
    }
  }

  lemma ReviewTakesRef(s: State, repository: string, root: Root, ref: SourceRef, review: Review)
    ensures var t := EnqueueReview(s, repository, root, ref, review);
            t.Accepted? ==> SourceRefExists(t.value, repository, ref) && t.value.repos == s.repos
  {
    hide RootProblem, BindPolicy;
    var t := EnqueueReview(s, repository, root, ref, review);
    if t.Accepted? && !SourceRefExists(s, repository, ref) {
      assert t.value.rows[|s.rows|].repository == repository && t.value.rows[|s.rows|].def.sourceRef == Some(ref);
    }
  }

  lemma {:induction false} StreakStands(rows: seq<Row>, more: seq<Row>, repository: string, kind: string, n: nat)
    requires rows <= more && n <= |more|
    requires forall i :: |rows| <= i < |more| ==> more[i].def.parent.None? && !RootOf(more[i], repository, kind)
    ensures var m := if n <= |rows| then n else |rows|;
            && Streak(more, repository, kind, n) == Streak(rows, repository, kind, m)
            && NewestRoot(more, repository, kind, n) == NewestRoot(rows, repository, kind, m)
  {
    if n > 0 {
      StreakStands(rows, more, repository, kind, n - 1);
      if n <= |rows| {
        SameChildren(rows, more, n - 1);
      }
    }
  }

  lemma SameChildren(rows: seq<Row>, more: seq<Row>, id: nat)
    requires rows <= more && id < |rows|
    requires forall i :: |rows| <= i < |more| ==> more[i].def.parent.None?
    ensures HasChild(more, id) <==> HasChild(rows, id)
  {
    if HasChild(rows, id) {
      var i :| 0 <= i < |rows| && rows[i].def.parent == Some(id);
      assert more[i].def.parent == Some(id);
    }
  }

  lemma {:induction false} OldHistoryStands(ledger: seq<Event>, more: seq<Event>, id: nat, bound: nat)
    requires ledger <= more && id < bound && forall k :: |ledger| <= k < |more| ==> more[k].item >= bound
    ensures EventsOf(more, id) == EventsOf(ledger, id)
    decreases |more|
  {
    if |ledger| < |more| {
      OldHistoryStands(ledger, more[..|more| - 1], id, bound);
    } else {
      assert ledger == more;
    }
  }

  /** A kind no root was created for cools after the batch as it did before. */
  lemma CoolingStands(s: State, t: State, repository: string, kind: string, base: int)
    requires s.rows <= t.rows && s.ledger <= t.ledger && t.clock == s.clock && Cooled(s, repository, kind, base)
    requires forall i :: |s.rows| <= i < |t.rows| ==> t.rows[i].def.parent.None? && !RootOf(t.rows[i], repository, kind)
    requires forall k :: |s.ledger| <= k < |t.ledger| ==> t.ledger[k].item >= |s.rows|
    ensures Cooled(t, repository, kind, base)
  {
    StreakStands(s.rows, t.rows, repository, kind, |t.rows|);
    var newest := NewestRoot(s.rows, repository, kind, |s.rows|).value;
    OldHistoryStands(s.ledger, t.ledger, newest, |s.rows|);
  }

  /** Whatever a batch did with a candidate, its kind is active or cooling afterwards. */
  lemma NothingLeftToCreate(s: State, t: State, repository: string, candidates: seq<Candidate>, override: Option<int>,
    fates: seq<Fate>, k: nat)
    requires |fates| == |candidates| && k < |candidates|
    requires FatesFit(s, repository, candidates, override, fates) && RowsFit(s, t, repository, candidates, fates)
    ensures var kind := candidates[k].root.kind;
            kind in ActiveRootKinds(t.rows, repository)
              || Cooled(t, repository, kind, CooldownOf(candidates[k], override))
  {
    var kind := candidates[k].root.kind;
    assert FateFits(s, repository, candidates, override, fates, k);
    if j :| 0 <= j < |fates| && fates[j].Created? && candidates[j].root.kind == kind {
      assert FreshRoot(t.rows[fates[j].id], fates[j].id, repository, candidates[j].root);
      assert t.rows[t.rows[fates[j].id].def.rootId].def.kind == kind;
    } else if kind in ActiveRootKinds(s.rows, repository) {
      ActiveStays(s.rows, t.rows, repository, kind);
    } else {
      assert fates[k] != Skipped;
      forall i | |s.rows| <= i < |t.rows|
        ensures t.rows[i].def.parent.None? && !RootOf(t.rows[i], repository, kind)
      {
        assert CreatedAs(fates, i);
        var j :| 0 <= j < |fates| && fates[j] == Created(i);
        assert FreshRoot(t.rows[fates[j].id], fates[j].id, repository, candidates[j].root);
      }
      CoolingStands(s, t, repository, kind, CooldownOf(candidates[k], override));
    }
  }

  lemma ActiveStays(rows: seq<Row>, more: seq<Row>, repository: string, kind: string)
    requires rows <= more && kind in ActiveRootKinds(rows, repository)
    ensures kind in ActiveRootKinds(more, repository)
  {
    var i :| 0 <= i < |rows| && rows[i].repository == repository && !rows[i].Terminal()
             && rows[i].def.rootId < |rows| && rows[rows[i].def.rootId].def.kind == kind;
    assert more[i] == rows[i] && more[rows[i].def.rootId] == rows[rows[i].def.rootId];
  }

  lemma {:induction false} IdleBatch(t: State, b: Batch, repository: string, candidates: seq<Candidate>,
    override: Option<int>)
    requires b.state == t && ActiveRootKinds(t.rows, repository) <= b.active
    requires forall k :: 0 <= k < |candidates| ==>
               && RootProblem(candidates[k].root, false).None? && candidates[k].root.predecessors.None?
               && (candidates[k].root.kind in ActiveRootKinds(t.rows, repository)
                   || Cooled(t, repository, candidates[k].root.kind, CooldownOf(candidates[k], override)))
    ensures BatchFrom(t, b, repository, candidates, override).Accepted?
    ensures BatchFrom(t, b, repository, candidates, override).value.state == t
    decreases |candidates|
  {
    if candidates != [] {
      var next := BatchOne(t, b, repository, candidates[0], override).value;
      IdleBatch(t, next, repository, candidates[1..], override);
    }
  }

  /** The same batch again, at the same instant, creates nothing. */
  lemma BatchTwiceIsOnce(s: State, repository: string, candidates: seq<Candidate>, override: Option<int>)
    requires EnqueueBatch(s, repository, candidates, override).Accepted?
    ensures var t := EnqueueBatch(s, repository, candidates, override).value.state;
            && EnqueueBatch(t, repository, candidates, override).Accepted?
            && EnqueueBatch(t, repository, candidates, override).value.state == t
  {
    BatchFates(s, repository, candidates, override);
    var b := EnqueueBatch(s, repository, candidates, override).value;
    var t := b.state;
    forall k | 0 <= k < |candidates|
      ensures candidates[k].root.kind in ActiveRootKinds(t.rows, repository)
              || Cooled(t, repository, candidates[k].root.kind, CooldownOf(candidates[k], override))
    {
      NothingLeftToCreate(s, t, repository, candidates, override, b.fates, k);
    }
    IdleBatch(t, Batch(t, ActiveRootKinds(t.rows, repository), []), repository, candidates, override);
  }
}
