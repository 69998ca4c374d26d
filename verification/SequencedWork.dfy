/** Imported work: what an import creates, and that it waits for the references it declares. */
module SequencedWork {
  import opened WorkTypes
  import opened QueueModel
  import opened QueueWrites
  import opened QueueInvariant
  import opened RootCreation
  import opened ClaimRules
  import Predecessors

  // ----- what an import creates ------------------------------------------------------------

  /** At most twenty references, every one of an issue. */
  predicate EdgesAllowed(declared: Option<seq<SourceRef>>) {
    declared.Some? ==> |declared.value| <= 20 && forall ref :: ref in declared.value ==> ref.IssueUrl?
  }

  lemma EdgesStored(declared: Option<seq<SourceRef>>)
    ensures var r := NormalizePredecessors(declared);
            && (r.Accepted? <==> EdgesAllowed(declared))
            && (r.Accepted? ==> EdgesDeclared(declared, r.value))
  {
  }

  predicate ImportDescribed(candidate: Import) {
    Described(candidate.root, false) && EdgesAllowed(candidate.root.predecessors)
  }

  /** An earlier import of the list has the reference. */
  predicate ListedBefore(imports: seq<Import>, n: nat, ref: SourceRef) {
    exists j :: 0 <= j < n && j < |imports| && imports[j].sourceRef == ref
  }

  /** Neither the repository nor the list has the reference before import `n`. */
  predicate IsNew(s: State, repository: string, imports: seq<Import>, n: nat)
    requires n < |imports|
  {
    && !AlreadyThere(s, repository, imports[n].sourceRef)
    && !ListedBefore(imports, n, imports[n].sourceRef)
  }

  /** How many of the first `n` imports are new. */
  function NewAmong(s: State, repository: string, imports: seq<Import>, n: nat): nat
    requires n <= |imports|
  {
    if n == 0 then 0
    else NewAmong(s, repository, imports, n - 1) + if IsNew(s, repository, imports, n - 1) then 1 else 0
  }

  /** Every import is described, and the policy lets each new one in. */
  predicate ImportAllowed(s: State, repository: string, imports: seq<Import>, n: nat)
    requires n < |imports|
  {
    && ImportDescribed(imports[n])
    && (IsNew(s, repository, imports, n) ==> Vouched(s, repository, imports[n].root, false))
  }

  /** Import `n` is the proposed root of its place, with the event that names its edges. */
  ghost predicate Imported(s: State, t: State, repository: string, imports: seq<Import>, n: nat)
    requires n < |imports|
  {
    var root, at := imports[n].root, NewAmong(s, repository, imports, n);
    var id := |s.rows| + at;
    && id < |t.rows| && |s.ledger| + at < |t.ledger|
    && RootStored(t.rows[id], id, s.clock, repository, root, false, Some(imports[n].sourceRef), None, None)
    && t.ledger[|s.ledger| + at] ==
         Event(|s.ledger| + at + 1, id, root.createdBy, s.clock, WorkProposed(t.rows[id].predecessors))
  }

  /** The first `n` imports are in: the new ones, each with its event, and nothing else. */
  ghost predicate ImportedUpTo(s: State, t: State, repository: string, imports: seq<Import>, n: nat)
    requires n <= |imports|
  {
    && t == s.(rows := t.rows, ledger := t.ledger)
    && s.rows <= t.rows && |t.rows| == |s.rows| + NewAmong(s, repository, imports, n)
    && s.ledger <= t.ledger && |t.ledger| == |s.ledger| + NewAmong(s, repository, imports, n)
    && forall j :: 0 <= j < n && IsNew(s, repository, imports, j) ==> Imported(s, t, repository, imports, j)
  }

  ghost predicate RefsUpTo(s: State, t: State, repository: string, imports: seq<Import>, n: nat) {
    forall ref :: AlreadyThere(t, repository, ref) <==>
                  AlreadyThere(s, repository, ref) || ListedBefore(imports, n, ref)
  }

  lemma OneImport(b: State, repository: string, candidate: Import)
    ensures var r := EnqueueImport(b, repository, candidate);
            && (r.Accepted? <==>
                  && ImportDescribed(candidate)
                  && (!AlreadyThere(b, repository, candidate.sourceRef) ==>
                        Vouched(b, repository, candidate.root, false)))
            && (r.Accepted? ==>
                  if AlreadyThere(b, repository, candidate.sourceRef) then r.value == b
                  else
                    RootCreated(b, repository, candidate.root, false, Some(candidate.sourceRef), None, None, r.value))
  {
    hide RootProblem, Described, InsertRoot, Vouched, RootCreated, NormalizePredecessors, EdgesAllowed, EdgesDeclared;
    DescribedIff(candidate.root, false);
    EdgesStored(candidate.root.predecessors);
    var edges := NormalizePredecessors(candidate.root.predecessors);
    if edges.Accepted? {
      InsertRootCreates(b, repository, candidate.root, false, Some(candidate.sourceRef), edges.value, None, None);
    }
  }

  predicate AddedRef(b: State, c: State, repository: string, ref: SourceRef) {
    && |c.rows| == |b.rows| + 1 && b.rows <= c.rows
    && c.rows[|b.rows|].repository == repository && c.rows[|b.rows|].def.sourceRef == Some(ref)
  }

  lemma OneMoreRef(s: State, b: State, c: State, repository: string, imports: seq<Import>, n: nat)
    requires n < |imports| && RefsUpTo(s, b, repository, imports, n)
    requires if AlreadyThere(b, repository, imports[n].sourceRef) then c == b
             else AddedRef(b, c, repository, imports[n].sourceRef)
    ensures RefsUpTo(s, c, repository, imports, n + 1)
  {
    var added := imports[n].sourceRef;
    forall ref
      ensures AlreadyThere(c, repository, ref) <==> AlreadyThere(b, repository, ref) || ref == added
    {
      if i :| 0 <= i < |b.rows| && b.rows[i].repository == repository && b.rows[i].def.sourceRef == Some(ref) {
        assert c.rows[i] == b.rows[i];
      }
      if c != b { assert c.rows[|b.rows|].def.sourceRef == Some(added); }
    }
    forall ref
      ensures ListedBefore(imports, n + 1, ref) <==> ListedBefore(imports, n, ref) || ref == added
    {
      if ListedBefore(imports, n, ref) {
        var j :| 0 <= j < n && j < |imports| && imports[j].sourceRef == ref;
        assert 0 <= j < n + 1;
      }
      if ref == added { assert imports[n].sourceRef == ref; }
    }
  }

  lemma OneMoreImport(s: State, b: State, c: State, repository: string, imports: seq<Import>, n: nat)
    requires n < |imports| && ImportedUpTo(s, b, repository, imports, n)
    requires if !IsNew(s, repository, imports, n) then c == b
             else RootCreated(b, repository, imports[n].root, false, Some(imports[n].sourceRef), None, None, c)
    ensures ImportedUpTo(s, c, repository, imports, n + 1)
  {
    hide IsNew, RootStored;
    forall j | 0 <= j < n + 1 && IsNew(s, repository, imports, j)
      ensures Imported(s, c, repository, imports, j)
    {
      if j < n { assert Imported(s, b, repository, imports, j); }
    }
  }

  lemma {:induction false} ImportsFrom(s: State, b: State, repository: string, imports: seq<Import>, n: nat)
    requires n <= |imports| && ImportedUpTo(s, b, repository, imports, n) && RefsUpTo(s, b, repository, imports, n)
    ensures var r := EnqueueImports(b, repository, imports[n..]);
            && (r.Accepted? <==> forall j :: n <= j < |imports| ==> ImportAllowed(s, repository, imports, j))
            && (r.Accepted? ==> ImportedUpTo(s, r.value, repository, imports, |imports|))
    decreases |imports| - n
  {
    hide Vouched, RootCreated, ImportedUpTo, RefsUpTo, ImportDescribed, EnqueueImport;
    if n < |imports| {
      assert imports[n..][0] == imports[n] && imports[n..][1..] == imports[n + 1..];
      OneStep(s, b, repository, imports, n);
      if EnqueueImport(b, repository, imports[n]).Accepted? {
        ImportsFrom(s, EnqueueImport(b, repository, imports[n]).value, repository, imports, n + 1);
      }
    }
  }

  lemma OneStep(s: State, b: State, repository: string, imports: seq<Import>, n: nat)
    requires n < |imports| && ImportedUpTo(s, b, repository, imports, n) && RefsUpTo(s, b, repository, imports, n)
    ensures var r := EnqueueImport(b, repository, imports[n]);
            && (r.Accepted? <==> ImportAllowed(s, repository, imports, n))
            && (r.Accepted? ==>
                  && ImportedUpTo(s, r.value, repository, imports, n + 1)
                  && RefsUpTo(s, r.value, repository, imports, n + 1))
  {
    hide Described, EdgesAllowed, EnqueueImport;
    OneImport(b, repository, imports[n]);
    var r := EnqueueImport(b, repository, imports[n]);
    assert Vouched(b, repository, imports[n].root, false) == Vouched(s, repository, imports[n].root, false);
    assert IsNew(s, repository, imports, n) <==> !AlreadyThere(b, repository, imports[n].sourceRef);
    if r.Accepted? {
      OneMoreRef(s, b, r.value, repository, imports, n);
      OneMoreImport(s, b, r.value, repository, imports, n);
    }
  }

  /**
   * An import is taken whole exactly when the repository is opted in, every
   * root of the list is described with at most twenty issue references to wait
   * for, and the policy lets each root in whose own reference is new. Then each
   * new root is proposed, waiting for exactly the references it declares, with
   * an event that names them; no other row is written.
   */
  lemma ImportCreatesIff(s: State, repository: string, imports: seq<Import>)
    ensures var r := EnqueueProposed(s, repository, imports);
            && (r.Accepted? <==>
                  && OptedIn(s, repository)
                  && forall n :: 0 <= n < |imports| ==> ImportAllowed(s, repository, imports, n))
            && (r.Accepted? ==> ImportedUpTo(s, r.value, repository, imports, |imports|))
  {
    hide ImportAllowed;
    assert imports[0..] == imports;
    ImportsFrom(s, s, repository, imports, 0);
  }

  /** The edges of a proposed item, and nothing else of it, are what a replacement lists; its event has both lists. */
  lemma ReplacementReplacesIff(s: State, id: nat, refs: seq<SourceRef>, actor: Principal)
    ensures var r := ReplacePredecessors(s, id, refs, actor);
            && (r.Accepted? <==>
                  && (actor.Operator? || actor.Policy? || actor.Member?) && EdgesAllowed(Some(refs))
                  && id < |s.rows| && s.rows[id].stored == Queued && !s.rows[id].admitted)
            && (r.Accepted? ==>
                  && |r.value.rows| == |s.rows|
                  && var was, now := s.rows[id].predecessors, r.value.rows[id].predecessors;
                     && EdgesDeclared(Some(refs), now)
                     && r.value == s.(
                          rows := s.rows[id := s.rows[id].(predecessors := now, updatedAt := s.clock)],
                          ledger := s.ledger + [Event(|s.ledger| + 1, id, actor, s.clock,
                            PredecessorsUpdated(
                              if now.Some? then now.value else {}, if was.Some? then was.value else {}))]))
  {
    hide NormalizePredecessors;
    EdgesStored(Some(refs));
  }

  // ----- imported work waits ---------------------------------------------------------------------

  /** Before step `j` every reference was carried out: completed, its pull requests merged and releases published. */
  ghost predicate CarriedOutBefore(trace: seq<State>, j: nat, refs: seq<SourceRef>) {
    j < |trace| && forall ref :: ref in refs ==> CarriedOut(trace[j].rows, ref)
  }

  lemma ImportAddsNoClaim(s: State, t: State, repository: string, imports: seq<Import>, id: nat, k: nat)
    requires Inv(s) && ImportedUpTo(s, t, repository, imports, |imports|)
    requires id >= |s.rows| && k < |t.ledger| && t.ledger[k].item == id
    ensures t.ledger[k].body.WorkProposed?
  {
    if k >= |s.ledger| {
      var n := PlaceOf(s, repository, imports, |imports|, k - |s.ledger|);
      assert Imported(s, t, repository, imports, n);
    }
  }

  /** The import created at a place among the new ones. */
  lemma {:induction false} PlaceOf(s: State, repository: string, imports: seq<Import>, n: nat, at: nat) returns (k: nat)
    requires n <= |imports| && at < NewAmong(s, repository, imports, n)
    ensures k < n && IsNew(s, repository, imports, k) && NewAmong(s, repository, imports, k) == at
  {
    if at < NewAmong(s, repository, imports, n - 1) {
      k := PlaceOf(s, repository, imports, n - 1, at);
    } else {
      k := n - 1;
    }
  }

  /**
   * Imported work is not claimed before every reference it declares was
   * carried out: in any run, each claim the ledger tells of an item an import
   * created was recorded by a later step that began with all of them carried
   * out - unless the item's edges were replaced before.
   */
  lemma ImportedWorkWaits(trace: seq<State>, ops: seq<Op>, i: nat, n: nat, end: nat, k: nat)
    requires Run(trace, ops) && i < |ops| && i < end < |trace|
    requires ops[i].OpImport? && Perform(trace[i], ops[i]).Accepted? && n < |ops[i].imports|
    requires IsNew(trace[i], ops[i].repository, ops[i].imports, n)
    requires k < |trace[end].ledger| && trace[end].ledger[k].body.WorkClaimed?
    requires trace[end].ledger[k].item ==
             |trace[i].rows| + NewAmong(trace[i], ops[i].repository, ops[i].imports, n)
    ensures var root := ops[i].imports[n].root;
            || root.predecessors.None?
            || EdgesReplaced(trace[end].ledger[..k], trace[end].ledger[k].item)
            || exists j: nat :: i < j < end && Predecessors.AppendedAt(trace, j, k)
                 && CarriedOutBefore(trace, j, root.predecessors.value)
  {
    hide Perform, StepAt, Inv, Run, IsNew, EdgesDeclared, CarriedOut, Evolves, PredecessorsMet;
    var id := trace[end].ledger[k].item;
    var j := ClaimAfterImport(trace, ops, i, n, end, k);
    Predecessors.ClaimStepMet(trace, ops, j, k);
    RunGrows(trace, ops, j, end);
    RunKeeps(trace, ops, i + 1, j);
    var declared := ops[i].imports[n].root.predecessors;
    if declared.Some? && !EdgesReplaced(trace[end].ledger[..k], id) {
      NoEarlierReplacement(trace[j].ledger, trace[end].ledger[..k], id);
      Predecessors.EdgesStand(trace[i + 1], trace[j], id);
      MetIsCarriedOut(trace[j], id, declared);
      assert CarriedOutBefore(trace, j, declared.value);
    }
  }

  /** The state after the import has the root's edges, and the claim was recorded by a later step. */
  lemma ClaimAfterImport(trace: seq<State>, ops: seq<Op>, i: nat, n: nat, end: nat, k: nat) returns (j: nat)
    requires Run(trace, ops) && i < |ops| && i < end < |trace|
    requires ops[i].OpImport? && Perform(trace[i], ops[i]).Accepted? && n < |ops[i].imports|
    requires IsNew(trace[i], ops[i].repository, ops[i].imports, n)
    requires k < |trace[end].ledger| && trace[end].ledger[k].body.WorkClaimed?
    requires trace[end].ledger[k].item ==
             |trace[i].rows| + NewAmong(trace[i], ops[i].repository, ops[i].imports, n)
    ensures var id := trace[end].ledger[k].item;
            && i < j < end && Predecessors.AppendedAt(trace, j, k)
            && trace[j + 1].ledger[k] == trace[end].ledger[k]
            && id < |trace[i + 1].rows|
            && EdgesDeclared(ops[i].imports[n].root.predecessors, trace[i + 1].rows[id].predecessors)
  {
    hide Inv, IsNew, EdgesDeclared, EnqueueProposed;
    var imports := ops[i].imports;
    assert StepAt(trace, ops, i);
    ImportCreatesIff(trace[i], ops[i].repository, imports);
    assert Imported(trace[i], trace[i + 1], ops[i].repository, imports, n);
    Predecessors.SomeStepAppended(trace, ops, end, k);
    j :| j < end && Predecessors.AppendedAt(trace, j, k) && trace[j + 1].ledger[k] == trace[end].ledger[k];
    if j <= i {
      RunGrows(trace, ops, j + 1, i + 1);
      RunHolds(trace, ops, i);
      ImportAddsNoClaim(trace[i], trace[i + 1], ops[i].repository, imports, trace[end].ledger[k].item, k);
    }
  }

  lemma NoEarlierReplacement(ledger: seq<Event>, more: seq<Event>, id: nat)
    requires ledger <= more && !EdgesReplaced(more, id)
    ensures !EdgesReplaced(ledger, id)
  {
    forall k | 0 <= k < |ledger| && ledger[k].item == id
      ensures !ledger[k].body.PredecessorsUpdated?
    {
      assert more[k] == ledger[k];
    }
  }

  lemma MetIsCarriedOut(s: State, id: nat, declared: Option<seq<SourceRef>>)
    requires id < |s.rows| && PredecessorsMet(s.rows, s.rows[id])
    requires declared.Some? && EdgesDeclared(declared, s.rows[id].predecessors)
    ensures forall ref :: ref in declared.value ==> CarriedOut(s.rows, ref)
  {
    hide CarriedOut, Satisfied;
    forall ref | ref in declared.value
      ensures CarriedOut(s.rows, ref)
    {
      CarriedOutMeans(s.rows, ref);
    }
  }
}
