/** The predecessor gate: what a claim of sequenced work proves, and work that can never start. */
module Predecessors {
  import opened WorkTypes
  import opened QueueModel
  import opened QueueWrites
  import opened QueueInvariant
  import opened OpEvents
  import opened SampleRuns

  // ----- every claim waited ---------------------------------------------------------------

  /** Step `j` appended the event at position `k` of the ledger. */
  predicate AppendedAt(trace: seq<State>, j: nat, k: nat) {
    j + 1 < |trace| && |trace[j].ledger| <= k < |trace[j + 1].ledger|
  }

  lemma {:induction false} SomeStepAppended(trace: seq<State>, ops: seq<Op>, i: nat, k: nat)
    requires Run(trace, ops) && i < |trace| && k < |trace[i].ledger|
    ensures exists j: nat :: j < i && AppendedAt(trace, j, k) && trace[j + 1].ledger[k] == trace[i].ledger[k]
  {
    if i > 0 {
      RunGrows(trace, ops, i - 1, i);
      if k < |trace[i - 1].ledger| {
        SomeStepAppended(trace, ops, i - 1, k);
      } else {
        assert AppendedAt(trace, i - 1, k);
      }
    }
  }

  /** Each reference the item waited for when step `j` began was carried by a delivered item then. */
  predicate WaitedOut(trace: seq<State>, j: nat, id: nat) {
    && j < |trace| && id < |trace[j].rows|
    && var preds := trace[j].rows[id].predecessors;
       preds.Some? ==> forall ref :: ref in preds.value ==>
         exists c :: 0 <= c < |trace[j].rows| && trace[j].rows[c].def.sourceRef == Some(ref)
           && Delivered(trace[j].rows[c])
  }

  /**
   * Every claim the ledger of a run tells of was recorded by a step that met
   * its item with each predecessor carried by a completed item whose pull
   * requests were all merged and releases published.
   */
  lemma ClaimsWaitForPredecessors(trace: seq<State>, ops: seq<Op>, i: nat, k: nat)
    requires Run(trace, ops) && i < |trace| && k < |trace[i].ledger| && trace[i].ledger[k].body.WorkClaimed?
    ensures exists j: nat :: j < i && AppendedAt(trace, j, k) && WaitedOut(trace, j, trace[i].ledger[k].item)
  {
    hide Perform, PredecessorsMet;
    SomeStepAppended(trace, ops, i, k);
    var j: nat :| j < i && AppendedAt(trace, j, k) && trace[j + 1].ledger[k] == trace[i].ledger[k];
    ClaimStepMet(trace, ops, j, k);
    MetIsWaitedOut(trace, j, trace[i].ledger[k].item);
  }

  lemma MetIsWaitedOut(trace: seq<State>, j: nat, id: nat)
    requires j < |trace| && id < |trace[j].rows| && PredecessorsMet(trace[j].rows, trace[j].rows[id])
    ensures WaitedOut(trace, j, id)
  {
  }

  /** A step that records a claim begins with the item's predecessors met. */
  lemma ClaimStepMet(trace: seq<State>, ops: seq<Op>, j: nat, k: nat)
    requires Run(trace, ops) && AppendedAt(trace, j, k) && trace[j + 1].ledger[k].body.WorkClaimed?
    ensures var id := trace[j + 1].ledger[k].item;
            id < |trace[j].rows| && PredecessorsMet(trace[j].rows, trace[j].rows[id])
  {
    hide Perform;
    RunRecords(trace, ops, j);
    assert Records(ops[j], trace[j + 1].ledger[k].item, trace[j + 1].ledger[k].body);
    assert StepAt(trace, ops, j);
    ClaimMetPredecessors(trace[j], ops[j], trace[j + 1], trace[j + 1].ledger[k].item);
  }

  lemma ClaimMetPredecessors(s: State, op: Op, t: State, id: nat)
    requires Step(s, op, t) && t.ledger != s.ledger && op.OpClaim? && op.choice == Some(id)
    ensures id < |s.rows| && PredecessorsMet(s.rows, s.rows[id])
  {
    assert Claimable(s, op.q, id);
  }

  // ----- work that waits on itself -------------------------------------------------------

  /** Every item carrying the reference is a member. */
  predicate CarriedBy(rows: seq<Row>, ref: SourceRef, members: set<nat>) {
    forall i :: 0 <= i < |rows| && rows[i].def.sourceRef == Some(ref) ==> i in members
  }

  predicate WaitsInside(rows: seq<Row>, id: nat, members: set<nat>)
    requires id < |rows|
  {
    rows[id].predecessors.Some? && exists ref :: ref in rows[id].predecessors.value && CarriedBy(rows, ref, members)
  }

  /** Each member waits for a reference only members carry: a cycle, or a wait for nothing. */
  predicate WaitsOnItself(rows: seq<Row>, members: set<nat>) {
    forall m :: m in members ==> m < |rows| && WaitsInside(rows, m, members)
  }

  predicate NeverClaimed(s: State, members: set<nat>) {
    && (forall m :: m in members && m < |s.rows| ==> s.rows[m].stored != Claimed && s.rows[m].stored != Completed)
    && (forall k :: 0 <= k < |s.ledger| && s.ledger[k].item in members ==> !s.ledger[k].body.WorkClaimed?)
  }

  /** The run ends with members waiting on themselves, and none of their edges was ever replaced. */
  ghost predicate StuckBy(final: State, members: set<nat>) {
    WaitsOnItself(final.rows, members) && forall m :: m in members ==> !EdgesReplaced(final.ledger, m)
  }

  lemma LaterReplacementIsOne(ledger: seq<Event>, from: nat, m: nat)
    requires from <= |ledger| && EdgesReplaced(ledger[from..], m)
    ensures EdgesReplaced(ledger, m)
  {
    var later := ledger[from..];
    var k :| 0 <= k < |later| && later[k].item == m && later[k].body.PredecessorsUpdated?;
    assert ledger[from + k] == later[k];
  }

  lemma EdgesStand(s: State, final: State, m: nat)
    requires Evolves(s, final) && m < |s.rows|
    ensures s.rows[m].predecessors == final.rows[m].predecessors || EdgesReplaced(final.ledger, m)
  {
    if s.rows[m].predecessors != final.rows[m].predecessors {
      LaterReplacementIsOne(final.ledger, |s.ledger|, m);
    }
  }

  lemma MemberCannotBeTaken(s: State, final: State, members: set<nat>, m: nat)
    requires Evolves(s, final) && StuckBy(final, members) && NeverClaimed(s, members)
    requires m in members && m < |s.rows|
    ensures !PredecessorsMet(s.rows, s.rows[m])
  {
    EdgesStand(s, final, m);
    var ref :| ref in final.rows[m].predecessors.value && CarriedBy(final.rows, ref, members);
    forall i | 0 <= i < |s.rows| && s.rows[i].def.sourceRef == Some(ref)
      ensures !Delivered(s.rows[i])
    {
      assert final.rows[i].def == s.rows[i].def;
    }
    assert !Satisfied(s.rows, ref);
  }

  lemma WriteKeepsStuck(s: State, w: Write, t: State, final: State, members: set<nat>)
    requires Inv(s) && Lawful(s, w, t) && Evolves(s, final)
    requires StuckBy(final, members) && NeverClaimed(s, members)
    ensures NeverClaimed(t, members)
  {
    LawfulOutline(s, w, t);
    if w.Change? && w.id in members {
      MemberCannotBeTaken(s, final, members, w.id);
    }
    OutlineKeepsStuck(s, w, t, members);
  }

  lemma OutlineKeepsStuck(s: State, w: Write, t: State, members: set<nat>)
    requires Outline(s, w, t) && NeverClaimed(s, members)
    requires w.Change? && w.id in members ==> !w.body.WorkClaimed?
    ensures NeverClaimed(t, members)
  {
  }

  lemma {:induction false} ChainKeepsStuck(states: seq<State>, writes: seq<Write>, n: nat, final: State,
    members: set<nat>)
    requires Chain(states, writes) && Inv(states[0]) && n <= |writes|
    requires Evolves(states[|writes|], final) && StuckBy(final, members) && NeverClaimed(states[0], members)
    ensures NeverClaimed(states[n], members)
  {
    hide Inv, Evolves, StuckBy, NeverClaimed, Lawful;
    if n > 0 {
      ChainKeepsStuck(states, writes, n - 1, final, members);
      ChainSuffix(states, writes, n - 1);
      EvolvesOn(states[n - 1], states[|writes|], final);
      WriteKeepsStuck(states[n - 1], writes[n - 1], states[n], final, members);
    }
  }

  lemma LeadsKeepsStuck(s: State, t: State, final: State, members: set<nat>)
    requires Inv(s) && Leads(s, t) && Evolves(t, final)
    requires StuckBy(final, members) && NeverClaimed(s, members)
    ensures NeverClaimed(t, members)
  {
    hide Inv, Evolves, StuckBy, NeverClaimed, Chain;
    var states, writes :| ChainBetween(s, states, writes, t);
    ChainKeepsStuck(states, writes, |writes|, final, members);
  }

  /**
   * Items that wait only for each other are never claimed: if at the end of a
   * run each member names a reference carried by members alone, and no edge of
   * theirs was replaced, no claim of a member was ever recorded.
   */
  lemma {:induction false} CyclesAreNeverClaimed(trace: seq<State>, ops: seq<Op>, i: nat, end: nat, members: set<nat>)
    requires Run(trace, ops) && i <= end < |trace| && StuckBy(trace[end], members)
    ensures NeverClaimed(trace[i], members)
    decreases i
  {
    hide StepAt;
    if i > 0 {
      CyclesAreNeverClaimed(trace, ops, i - 1, end, members);
      RunLeads(trace, ops, i - 1);
      RunKeeps(trace, ops, i, end);
      LeadsKeepsStuck(trace[i - 1], trace[i], trace[end], members);
    }
  }

  // ----- satisfaction can be undone ----------------------------------------------------------

  /** Attaching an artifact to completed work keeps it delivered exactly when the artifact itself is. */
  lemma AttachKeepsDeliveredIff(s: State, id: nat, actor: Principal, artifact: Artifact, seen: Option<Precondition>)
    requires Attach(s, id, actor, artifact, seen).Accepted?
    ensures Delivered(Attach(s, id, actor, artifact, seen).value.rows[id]) <==>
            Delivered(s.rows[id]) && ArtifactDelivered(artifact)
  {
    var before := s.rows[id].result.value.artifacts;
    var after := before + [artifact];
    assert Attach(s, id, actor, artifact, seen).value.rows[id].result.value.artifacts == after;
    if Delivered(Attach(s, id, actor, artifact, seen).value.rows[id]) {
      assert ArtifactDelivered(after[|before|]);
      forall k | 0 <= k < |before| ensures ArtifactDelivered(before[k]) {
        assert ArtifactDelivered(after[k]);
      }
    }
  }

  /** The artifact a re-verification leaves behind. */
  function Reverified(row: Row, url: string, verification: Verification): Option<Artifact> {
    if row.result.None? then None
    else
      match FindArtifact(row.result.value.artifacts, url)
      case None => None
      case Some(i) =>
        if i < |row.result.value.artifacts| then
          Some(row.result.value.artifacts[i].(verification := Some(verification)))
        else None
  }

  /** Verifying an artifact of delivered work again keeps it delivered exactly when the artifact still is. */
  lemma VerifyKeepsDeliveredIff(s: State, id: nat, url: string, verification: Verification, actor: Principal)
    requires RecordVerification(s, id, url, verification, actor).Accepted? && Delivered(s.rows[id])
    ensures Reverified(s.rows[id], url, verification).Some?
    ensures Delivered(RecordVerification(s, id, url, verification, actor).value.rows[id]) <==>
              ArtifactDelivered(Reverified(s.rows[id], url, verification).value)
  {
    var before := s.rows[id].result.value.artifacts;
    var i := FindArtifact(before, url).value;
    var after := before[i := before[i].(verification := Some(verification))];
    var row := RecordVerification(s, id, url, verification, actor).value.rows[id];
    assert row.result.value.artifacts == after;
    if ArtifactDelivered(after[i]) {
      forall k | 0 <= k < |after|
        ensures ArtifactDelivered(after[k])
      {
        assert ArtifactDelivered(before[k]);
      }
    }
  }

  /**
   * Nothing but an artifact attached to or verified again for the carrier can
   * take its delivery back; taking a pull request out of draft never does.
   */
  lemma DeliveredUntilArtifactEvent(s: State, w: Write, t: State, carrier: nat)
    requires Lawful(s, w, t) && carrier < |s.rows| && Delivered(s.rows[carrier])
    requires w.Change? && w.id == carrier ==> !w.body.ArtifactVerified? && !w.body.ArtifactAttached?
    ensures carrier < |t.rows| && Delivered(t.rows[carrier])
  {
    if w.Change? && w.id == carrier {
      DeliveredRowStands(s, s.rows[carrier], w.row, w.body, w.actor);
    }
  }

  lemma DeliveredRowStands(s: State, row: Row, next: Row, body: EventBody, actor: Principal)
    requires Follows(s, row, next, body, actor) && Delivered(row) && !body.ArtifactVerified? && !body.ArtifactAttached?
    ensures Delivered(next)
  {
    if body.ArtifactReady? {
      forall k | 0 <= k < |next.result.value.artifacts|
        ensures ArtifactDelivered(next.result.value.artifacts[k])
      {
        assert ArtifactDelivered(row.result.value.artifacts[k]);
      }
    }
  }

  // ----- exactly when a satisfied reference is lost ------------------------------------------------

  predicate Carries(rows: seq<Row>, ref: SourceRef, c: nat) {
    c < |rows| && rows[c].def.sourceRef == Some(ref) && Delivered(rows[c])
  }

  /** The one delivered item the reference has. */
  ghost predicate OnlyCarrier(rows: seq<Row>, ref: SourceRef, c: nat) {
    Carries(rows, ref, c) && forall other: nat :: Carries(rows, ref, other) ==> other == c
  }

  /** The operation gives the item an artifact, new or verified again, that is not delivered. */
  predicate Undelivers(s: State, op: Op, c: nat) {
    c < |s.rows| &&
      if op.OpAttach? then op.id == c && !ArtifactDelivered(op.artifact)
      else
        && op.OpVerify? && op.id == c
        && var a := Reverified(s.rows[c], op.url, op.verification); a.Some? && !ArtifactDelivered(a.value)
  }

  lemma ArtifactOpsDeliver(s: State, op: Op, c: nat)
    requires (op.OpAttach? || op.OpVerify?) && Perform(s, op).Accepted? && c < |s.rows| && Delivered(s.rows[c])
    ensures var t := Perform(s, op).value;
            && |t.rows| == |s.rows| && (forall i :: 0 <= i < |s.rows| && i != op.id ==> t.rows[i] == s.rows[i])
            && (Delivered(t.rows[c]) <==> !Undelivers(s, op, c))
  {
    hide Complete;
    if op.id == c {
      if op.OpAttach? {
        AttachKeepsDeliveredIff(s, c, op.actor, op.artifact, op.seen);
      } else {
        VerifyKeepsDeliveredIff(s, c, op.url, op.verification, op.actor);
      }
    }
  }

  /** Nothing recorded about the carrier after `from` attaches or verifies an artifact. */
  predicate NoArtifactSince(ledger: seq<Event>, from: nat, c: nat) {
    forall k :: from <= k < |ledger| && ledger[k].item == c ==>
      !ledger[k].body.ArtifactVerified? && !ledger[k].body.ArtifactAttached?
  }

  lemma {:induction false} ChainKeepsDelivered(states: seq<State>, writes: seq<Write>, n: nat, c: nat)
    requires Chain(states, writes) && n <= |writes| && c < |states[0].rows| && Delivered(states[0].rows[c])
    requires states[0].ledger <= states[n].ledger && NoArtifactSince(states[n].ledger, |states[0].ledger|, c)
    ensures c < |states[n].rows| && Delivered(states[n].rows[c])
  {
    hide Lawful;
    if n > 0 {
      LedgerGrows(states, writes, n - 1);
      assert Lawful(states[n - 1], writes[n - 1], states[n]);
      OneWriteGrows(states[n - 1], writes[n - 1], states[n]);
      assert NoArtifactSince(states[n - 1].ledger, |states[0].ledger|, c);
      ChainKeepsDelivered(states, writes, n - 1, c);
      DeliveredUntilArtifactEvent(states[n - 1], writes[n - 1], states[n], c);
    }
  }

  lemma OneWriteGrows(s: State, w: Write, t: State)
    requires Lawful(s, w, t)
    ensures s.ledger <= t.ledger
    ensures w.Change? ==>
      |t.ledger| == |s.ledger| + 1 && t.ledger[|s.ledger|].item == w.id && t.ledger[|s.ledger|].body == w.body
  {
  }

  lemma {:induction false} LedgerGrows(states: seq<State>, writes: seq<Write>, n: nat)
    requires Chain(states, writes) && n <= |writes|
    ensures states[0].ledger <= states[n].ledger
  {
    if n > 0 {
      LedgerGrows(states, writes, n - 1);
      OneWriteGrows(states[n - 1], writes[n - 1], states[n]);
    }
  }

  lemma OtherOpsKeepDelivered(s: State, op: Op, t: State, c: nat)
    requires Inv(s) && Step(s, op, t) && Perform(s, op) == Accepted(t) && !op.OpAttach? && !op.OpVerify?
    requires c < |s.rows| && Delivered(s.rows[c])
    ensures c < |t.rows| && Delivered(t.rows[c])
  {
    hide Perform, Lawful;
    OpRecords(s, op);
    forall k | |s.ledger| <= k < |t.ledger| && t.ledger[k].item == c
      ensures !t.ledger[k].body.ArtifactVerified? && !t.ledger[k].body.ArtifactAttached?
    {
      assert Records(op, t.ledger[k].item, t.ledger[k].body);
    }
    StepLeads(s, op, t);
    var states: seq<State>, writes: seq<Write> :| ChainBetween(s, states, writes, t);
    LedgerGrows(states, writes, |writes|);
    ChainKeepsDelivered(states, writes, |writes|, c);
  }

  /** A delivered item stays delivered exactly when the operation does not undeliver it. */
  lemma CarrierKept(s: State, op: Op, t: State, ref: SourceRef, c: nat)
    requires Inv(s) && Step(s, op, t) && Perform(s, op) == Accepted(t) && Carries(s.rows, ref, c)
    ensures Carries(t.rows, ref, c) <==> !Undelivers(s, op, c)
  {
    hide Step, Perform;
    StepKeeps(s, op, t);
    if op.OpAttach? || op.OpVerify? {
      ArtifactOpsDeliver(s, op, c);
    } else {
      OtherOpsKeepDelivered(s, op, t, c);
    }
  }

  /** Each carrier of the reference is kept exactly when the operation does not undeliver it. */
  ghost predicate CarriersMove(s: State, op: Op, t: State, ref: SourceRef) {
    forall c: nat :: Carries(s.rows, ref, c) ==> (Carries(t.rows, ref, c) <==> !Undelivers(s, op, c))
  }

  lemma LostWithOnlyCarrier(s: State, op: Op, t: State, ref: SourceRef)
    requires CarriersMove(s, op, t, ref) && Satisfied(s.rows, ref) && !Satisfied(t.rows, ref)
    ensures exists c: nat :: OnlyCarrier(s.rows, ref, c) && Undelivers(s, op, c)
  {
    var c :| 0 <= c < |s.rows| && s.rows[c].def.sourceRef == Some(ref) && Delivered(s.rows[c]);
    assert Carries(s.rows, ref, c);
    assert forall other: nat :: !Carries(t.rows, ref, other);
    assert forall other: nat :: Carries(s.rows, ref, other) ==> Undelivers(s, op, other);
    assert OnlyCarrier(s.rows, ref, c) && Undelivers(s, op, c);
  }

  lemma OnlyCarrierLost(s: State, op: Op, t: State, ref: SourceRef, only: nat)
    requires CarriersMove(s, op, t, ref) && OnlyCarrier(s.rows, ref, only) && Undelivers(s, op, only)
    requires |t.rows| == |s.rows| && forall i :: 0 <= i < |s.rows| && i != only ==> t.rows[i] == s.rows[i]
    ensures !Satisfied(t.rows, ref)
  {
    forall i | 0 <= i < |t.rows| && t.rows[i].def.sourceRef == Some(ref)
      ensures !Delivered(t.rows[i])
    {
      assert i != only ==> !Carries(s.rows, ref, i);
      assert !Carries(t.rows, ref, only);
    }
  }

  /**
   * In a reachable state a committed operation loses a satisfied reference
   * exactly when it attaches to, or verifies again for, the only delivered
   * item carrying it an artifact that is not delivered.
   */
  lemma SatisfactionLostIff(s: State, op: Op, t: State, ref: SourceRef)
    requires Reached(s) && Step(s, op, t) && Perform(s, op) == Accepted(t) && Satisfied(s.rows, ref)
    ensures !Satisfied(t.rows, ref) <==> exists c: nat :: OnlyCarrier(s.rows, ref, c) && Undelivers(s, op, c)
  {
    hide StepAt, Perform;
    ReachedHolds(s);
    forall c: nat | Carries(s.rows, ref, c)
      ensures Carries(t.rows, ref, c) <==> !Undelivers(s, op, c)
    {
      CarrierKept(s, op, t, ref, c);
    }
    if !Satisfied(t.rows, ref) {
      LostWithOnlyCarrier(s, op, t, ref);
    }
    if only: nat :| OnlyCarrier(s.rows, ref, only) && Undelivers(s, op, only) {
      ArtifactOpsDeliver(s, op, only);
      OnlyCarrierLost(s, op, t, ref, only);
    }
  }

  // ----- a run in which it happens --------------------------------------------------------------------

  const FIX_KIND: string := "fix"
  const ISSUE: SourceRef := IssueUrl("https://github.com/o/r/issues/1")

  lemma FixKindOk()
    ensures KindOk(FIX_KIND)
  {
  }

  const ENABLED: State := EMPTY.(repos := map[REPO := true])

  /** An issue is imported. */
  lemma ImportedOnce() returns (s: State)
    ensures Step(ENABLED, OpImport(REPO, [Import(Reading(FIX_KIND), ISSUE)]), s)
    ensures Calm(s) && |s.rows| == 1 && s.tokens == 0
    ensures s.rows[0] == RootRow(ENABLED, REPO, Reading(FIX_KIND), false, Some(ISSUE), None, None, None, None)
  {
    hide Complete;
    BriefStated();
    FixKindOk();
    var imports := [Import(Reading(FIX_KIND), ISSUE)];
    s := EnqueueImport(ENABLED, REPO, imports[0]).value;
    assert EnqueueImports(s, REPO, imports[1..]) == Accepted(s);
    assert EnqueueImports(ENABLED, REPO, imports) == Accepted(s);
  }

  /** A proposed item is approved. */
  lemma ApprovedOnce(s: State) returns (t: State)
    requires Calm(s) && |s.rows| == 1 && s.tokens == 0
    requires s.rows[0] == RootRow(ENABLED, REPO, Reading(FIX_KIND), false, Some(ISSUE), None, None, None, None)
    ensures Step(s, OpApprove(0, OPERATOR, None), t)
    ensures Calm(t) && |t.rows| == 1 && t.tokens == 0 && Waiting(t.rows[0]) && t.rows[0].def == s.rows[0].def
  {
    hide Complete;
    t := Approve(s, 0, OPERATOR, None).value;
  }

  /** An issue is imported, approved and claimed. */
  lemma ImportClaimed() returns (s: State)
    ensures Reached(s) && Calm(s) && |s.rows| == 1 && HeldBy(s.rows[0], 0, s.clock)
    ensures s.rows[0].def.sourceRef == Some(ISSUE) && s.rows[0].def.required == NoArtifact
    ensures s.rows[0].def.kind == FIX_KIND && s.rows[0].repository == REPO
  {
    hide Reached, Step, Perform;
    EnabledReached(ENABLED);
    var s1 := ImportedOnce();
    ReachedOn(ENABLED, OpImport(REPO, [Import(Reading(FIX_KIND), ISSUE)]), s1);
    var s2 := ApprovedOnce(s1);
    ReachedOn(s1, OpApprove(0, OPERATOR, None), s2);
    s := ClaimedOnly(s2, 0);
  }

  /** A reachable state with a satisfied reference, and the attachment that loses it. */
  lemma SatisfactionCanBeUndone()
    ensures exists s: State, op: Op, t: State, ref: SourceRef ::
              Reached(s) && op.OpAttach? && Step(s, op, t) && Satisfied(s.rows, ref) && !Satisfied(t.rows, ref)
  {
    hide Reached, StepAt, Complete, EnqueueBatch;
    var claimed := ImportClaimed();
    CompleteHeld(claimed, 0, 0, None);
    var s := Finish(claimed, 0, claimed.rows[0], WORKER, DONE, None, []);
    ReachedOn(claimed, OpComplete(0, 0, WORKER, DONE, [], None), s);
    assert Carries(s.rows, ISSUE, 0);
    var op := OpAttach(0, OPERATOR, OPEN_PULL, None);
    var t := Attach(s, 0, OPERATOR, OPEN_PULL, None).value;
    AttachKeepsDeliveredIff(s, 0, OPERATOR, OPEN_PULL, None);
    assert Step(s, op, t) && !Satisfied(t.rows, ISSUE);
  }
}
