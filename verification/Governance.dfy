/** Policy bindings and admission evidence under a configured policy authority. */
module Governance {
  import opened WorkTypes
  import opened FollowUpIntent
  import opened QueueModel
  import opened QueueWrites
  import opened LedgerReplay
  import opened QueueInvariant
  import opened OpEvents

  // ----- what a binding records ---------------------------------------------------------

  /** The recorded actions are exactly the allowed ones the policy wants reviewed, each once. */
  lemma ReviewRequiredMeans(a: PolicyAuthority, allowed: seq<Action>, x: Action)
    ensures x in ReviewRequiredOf(a, allowed) <==> x in allowed && a.Decide(x) == ReviewRequired
    ensures multiset(ReviewRequiredOf(a, allowed))[x] <= 1
  {
    var wanted := set y | y in allowed && a.Decide(y) == ReviewRequired;
    KeepMembers(NAME_ORDER, wanted);
    KeepDistinct(NAME_ORDER, wanted);
    match x
    case CreateFollowup => assert NAME_ORDER[0] == x;
    case OpenIssue => assert NAME_ORDER[1] == x;
    case OpenPr => assert NAME_ORDER[2] == x;
    case Read => assert NAME_ORDER[3] == x;
    case RunTests => assert NAME_ORDER[4] == x;
    case Write => assert NAME_ORDER[5] == x;
  }

  /**
   * With an authority configured, a definition is bound exactly when the
   * authority vouches for the repository, no action lies outside its ceiling
   * or is denied, and work admitted on creation is a human's or inside the
   * standing entry of its kind. The record then carries the authority's
   * snapshot and commit, the actions it wants reviewed, and evidence exactly
   * when the work is admitted: the human's decision, or the standing entry.
   */
  lemma BindingAcceptedIff(s: State, repository: string, def: Definition, admitted: bool)
    requires s.authorities.Some?
    ensures BindPolicy(s, repository, def.kind, def.allowed, def.delegable, def.createdBy, admitted).Accepted? <==>
              && repository in s.authorities.value
              && InsideAuthority(s.authorities.value[repository], def)
              && (admitted ==> HumanCreator(def) || InsideStanding(def))
    ensures var bound := BindPolicy(s, repository, def.kind, def.allowed, def.delegable, def.createdBy, admitted);
            bound.Accepted? ==>
              var a := s.authorities.value[repository];
              var reviews := ReviewRequiredOf(a, def.allowed);
              bound.value == Some(PolicyRecord(a.snapshot, a.commit, reviews,
                if admitted then CreationEvidence(def.(createdAt := s.clock), reviews) else None))
  {
    if repository in s.authorities.value {
      NoOffence(s.authorities.value[repository], def.allowed + def.delegable);
    }
  }

  // ----- the evidence, told by the ledger ---------------------------------------------------

  /** Who approved the item last, and when. */
  function LastApproval(h: seq<Event>): Option<(Principal, int)> {
    if h == [] then None
    else
      var e := h[|h| - 1];
      if e.body.WorkApproved? then Some((e.actor, e.at)) else LastApproval(h[..|h| - 1])
  }

  predicate AdmittedOnCreation(h: seq<Event>) {
    h != [] && h[0].body.WorkQueued?
  }

  /** The last approval, or else the evidence the item was admitted with on creation. */
  function EvidenceOf(def: Definition, h: seq<Event>, reviewRequired: seq<Action>): Option<Authorization> {
    match LastApproval(h)
    case Some(approval) => Some(ByDecision(approval.0, reviewRequired, approval.1))
    case None => if AdmittedOnCreation(h) then CreationEvidence(def, reviewRequired) else None
  }

  /** The row's policy record says what its ledger says, and mechanical admission lies inside its standing entry. */
  predicate Evidenced(row: Row, h: seq<Event>) {
    && row.policy.Some?
    && row.policy.value.authorization == EvidenceOf(row.def, h, row.policy.value.reviewRequired)
    && (row.admitted ==> row.policy.value.authorization.Some?)
    && (AdmittedOnCreation(h) && !HumanCreator(row.def) ==> InsideStanding(row.def))
  }

  ghost predicate PolicyOk(s: State) {
    forall i :: 0 <= i < |s.rows| ==> Evidenced(s.rows[i], History(s, i))
  }

  lemma EvidenceFollows(s: State, row: Row, next: Row, h: seq<Event>, e: Event)
    requires Evidenced(row, h) && s.authorities.Some? && StartsWithCreation(h) && e.at == s.clock
    requires Follows(s, row, next, e.body, e.actor)
    ensures Evidenced(next, h + [e])
  {
    Snoc(h, e);
    assert (h + [e])[0] == h[0];
  }

  lemma EvidenceStarts(s: State, row: Row, e: Event)
    requires s.authorities.Some? && CreatedBound(s, row) && e.body == CreationEvent(row)
    ensures Evidenced(row, [e])
  {
    assert [e][..0] == [];
    assert LastApproval([e]) == LastApproval([]);
  }

  /** A write leaves an item's events alone unless it appends one of that item. */
  lemma EventsStand(s: State, t: State, i: nat)
    requires s.ledger <= t.ledger && |t.ledger| <= |s.ledger| + 1
    requires |t.ledger| > |s.ledger| ==> t.ledger[|s.ledger|].item != i
    ensures History(t, i) == History(s, i)
  {
    if |t.ledger| > |s.ledger| {
      assert t.ledger == s.ledger + [t.ledger[|s.ledger|]];
      HistoryAfter(s, t, t.ledger[|s.ledger|], i);
    } else {
      assert t.ledger == s.ledger;
    }
  }

  lemma ChangeKeepsPolicy(s: State, id: nat, row: Row, body: EventBody, actor: Principal, t: State, i: nat)
    requires LedgerOk(s) && PolicyOk(s) && s.authorities.Some? && i < |t.rows|
    requires Lawful(s, Change(id, row, body, actor), t)
    ensures Evidenced(t.rows[i], History(t, i))
  {
    assert i < |s.rows|;
    assert Evidenced(s.rows[i], History(s, i)) && ItemOk(s.rows[i], History(s, i), s.clock);
    var e := t.ledger[|s.ledger|];
    if i == id {
      HistoryAfter(s, t, e, i);
      EvidenceFollows(s, s.rows[i], row, History(s, i), e);
    } else {
      EventsStand(s, t, i);
    }
  }

  lemma AddKeepsPolicy(s: State, row: Row, t: State, i: nat)
    requires LedgerOk(s) && PolicyOk(s) && s.authorities.Some? && i < |t.rows|
    requires Lawful(s, Add(row), t)
    ensures Evidenced(t.rows[i], History(t, i))
  {
    var e := t.ledger[|s.ledger|];
    if i == |s.rows| {
      NoEvents(s.ledger, i);
      HistoryAfter(s, t, e, i);
      assert [] + [e] == [e];
      EvidenceStarts(s, row, e);
    } else {
      EventsStand(s, t, i);
      assert Evidenced(s.rows[i], History(s, i));
    }
  }

  lemma MoveKeepsPolicy(s: State, t: State, i: nat)
    requires PolicyOk(s) && i < |s.rows| && |t.rows| == |s.rows| && t.ledger == s.ledger
    requires t.rows[i] == s.rows[i].(repository := t.rows[i].repository)
    ensures Evidenced(t.rows[i], History(t, i))
  {
    EventsStand(s, t, i);
    assert Evidenced(s.rows[i], History(s, i));
  }

  lemma WriteKeepsPolicy(s: State, w: Write, t: State)
    requires LedgerOk(s) && PolicyOk(s) && s.authorities.Some? && Lawful(s, w, t)
    ensures PolicyOk(t)
  {
    forall i | 0 <= i < |t.rows|
      ensures Evidenced(t.rows[i], History(t, i))
    {
      match w
      case Change(id, row, body, actor) => ChangeKeepsPolicy(s, id, row, body, actor, t, i);
      case Add(row) => AddKeepsPolicy(s, row, t, i);
      case Renaming(_, _) => MoveKeepsPolicy(s, t, i);
      case Environment => MoveKeepsPolicy(s, t, i);
    }
  }

  lemma {:induction false} ChainKeepsPolicy(states: seq<State>, writes: seq<Write>, n: nat)
    requires Chain(states, writes) && Inv(states[0]) && PolicyOk(states[0]) && n <= |writes|
    requires forall i :: 0 <= i < |writes| ==> states[i].authorities.Some?
    ensures PolicyOk(states[n])
  {
    if n > 0 {
      ChainKeepsPolicy(states, writes, n - 1);
      ChainSuffix(states, writes, n - 1);
      WriteKeepsPolicy(states[n - 1], writes[n - 1], states[n]);
    }
  }

  lemma LeadsKeepsPolicy(s: State, t: State)
    requires Inv(s) && Leads(s, t) && PolicyOk(s) && s.authorities.Some?
    ensures PolicyOk(t)
  {
    var states, writes :| ChainBetween(s, states, writes, t);
    ChainKeepsPolicy(states, writes, |writes|);
  }

  /** Nothing but configuring the authority happens without one. */
  ghost predicate Governed(trace: seq<State>, ops: seq<Op>, i: nat)
    requires |trace| == |ops| + 1 && i < |trace|
  {
    forall k :: 0 <= k < i ==> trace[k].authorities.Some? || ops[k].OpAuthorities?
  }

  lemma {:induction false} GovernedRunKeepsPolicy(trace: seq<State>, ops: seq<Op>, i: nat)
    requires Run(trace, ops) && i < |trace| && Governed(trace, ops, i)
    ensures PolicyOk(trace[i])
  {
    hide ChainBetween, Complete;
    if i > 0 {
      GovernedRunKeepsPolicy(trace, ops, i - 1);
      if trace[i - 1].authorities.None? {
        assert StepAt(trace, ops, i - 1);
        assert trace[i].rows == trace[i - 1].rows && trace[i].ledger == trace[i - 1].ledger;
        assert forall k :: 0 <= k < |trace[i].rows| ==> History(trace[i], k) == History(trace[i - 1], k);
      } else {
        RunLeads(trace, ops, i - 1);
        LeadsKeepsPolicy(trace[i - 1], trace[i]);
      }
    }
  }

  /**
   * While a policy authority is configured throughout a run, every item is
   * bound to it, and its record's evidence is exactly what its ledger tells:
   * its last approval, or else what it was admitted with on creation, covering
   * the recorded review-required actions. Every admitted item has such
   * evidence, and one a program admitted on creation is of a kind with a
   * standing entry that contains all its actions.
   */
  lemma AdmittedWorkIsAuthorized(trace: seq<State>, ops: seq<Op>, i: nat, id: nat)
    requires Run(trace, ops) && i < |trace| && Governed(trace, ops, i) && id < |trace[i].rows|
    ensures var row, h := trace[i].rows[id], History(trace[i], id);
            && row.policy.Some?
            && row.policy.value.authorization == EvidenceOf(row.def, h, row.policy.value.reviewRequired)
            && (row.admitted ==> row.policy.value.authorization.Some?)
            && (AdmittedOnCreation(h) && !HumanCreator(row.def) ==>
                  && StandingFor(row.def.kind).Some?
                  && Subset(row.def.allowed, StandingFor(row.def.kind).value.actions))
  {
    GovernedRunKeepsPolicy(trace, ops, i);
  }

  // ----- the authority that bound the item last ----------------------------------------------------

  predicate Binds(body: EventBody) {
    body.WorkQueued? || body.WorkProposed? || body.WorkApproved?
  }

  /** The item was created or approved by one of the events from position `from` on. */
  predicate BoundSince(ledger: seq<Event>, from: nat, id: nat) {
    exists k :: from <= k < |ledger| && ledger[k].item == id && Binds(ledger[k].body)
  }

  /** The row's record is what this authority says of its repository. */
  predicate SaysOf(authorities: Option<map<string, PolicyAuthority>>, row: Row) {
    && authorities.Some?
    && row.repository in authorities.value
    && row.policy.Some?
    && Says(authorities.value[row.repository], row)
  }

  predicate Says(a: PolicyAuthority, row: Row) {
    && row.policy.Some?
    && row.policy.value.snapshot == a.snapshot
    && row.policy.value.commit == a.commit
    && InsideAuthority(a, row.def)
    && row.policy.value.reviewRequired == ReviewRequiredOf(a, row.def.allowed)
  }

  /** From `s` on the item was either bound anew by the authority in force, or keeps its record. */
  ghost predicate BindingMoves(s: State, t: State, id: nat) {
    id < |t.rows| ==>
      if BoundSince(t.ledger, |s.ledger|, id) then SaysOf(s.authorities, t.rows[id])
      else id < |s.rows| && t.rows[id].policy == s.rows[id].policy && t.rows[id].repository == s.rows[id].repository
  }

  lemma BoundSinceGrows(ledger: seq<Event>, e: Event, from: nat, id: nat)
    requires from <= |ledger|
    ensures BoundSince(ledger + [e], from, id) <==> BoundSince(ledger, from, id) || (e.item == id && Binds(e.body))
  {
    var more := ledger + [e];
    if BoundSince(ledger, from, id) {
      var k :| from <= k < |ledger| && ledger[k].item == id && Binds(ledger[k].body);
      assert more[k] == ledger[k];
    }
    if e.item == id && Binds(e.body) {
      assert more[|ledger|] == e;
    }
    if BoundSince(more, from, id) {
      var k :| from <= k < |more| && more[k].item == id && Binds(more[k].body);
      if k < |ledger| { assert ledger[k] == more[k]; }
    }
  }

  /** An approval binds anew; every other change keeps the record and the repository. */
  lemma FollowsBinds(s: State, row: Row, next: Row, body: EventBody, actor: Principal)
    requires Follows(s, row, next, body, actor) && s.authorities.Some?
    ensures next.repository == row.repository && next.def == row.def
    ensures if Binds(body) then SaysOf(s.authorities, next) else next.policy == row.policy
  {
  }

  lemma ChangeBinds(s: State, u: State, id: nat, row: Row, body: EventBody, actor: Principal, t: State, i: nat)
    requires Lawful(u, Change(id, row, body, actor), t) && s.ledger <= u.ledger
    requires u.authorities == s.authorities && s.authorities.Some? && BindingMoves(s, u, i)
    ensures s.ledger <= t.ledger && BindingMoves(s, t, i)
  {
    hide Follows, BoundSince, Binds, InsideAuthority;
    FollowsBinds(u, u.rows[id], row, body, actor);
    BoundSinceGrows(u.ledger, t.ledger[|u.ledger|], |s.ledger|, i);
  }

  lemma AddBinds(s: State, u: State, row: Row, t: State, i: nat)
    requires Lawful(u, Add(row), t) && s.ledger <= u.ledger
    requires u.authorities == s.authorities && s.authorities.Some? && BindingMoves(s, u, i)
    ensures s.ledger <= t.ledger && BindingMoves(s, t, i)
  {
    BoundSinceGrows(u.ledger, t.ledger[|u.ledger|], |s.ledger|, i);
  }

  lemma WriteBinds(s: State, u: State, w: Write, t: State, i: nat)
    requires Lawful(u, w, t) && !w.Renaming? && s.ledger <= u.ledger
    requires u.authorities == s.authorities && s.authorities.Some? && BindingMoves(s, u, i)
    ensures s.ledger <= t.ledger && BindingMoves(s, t, i)
  {
    match w
    case Change(id, row, body, actor) => ChangeBinds(s, u, id, row, body, actor, t, i);
    case Add(row) => AddBinds(s, u, row, t, i);
    case Environment =>
  }

  lemma {:induction false} ChainBinds(states: seq<State>, writes: seq<Write>, n: nat, id: nat)
    requires Chain(states, writes) && n <= |writes| && states[0].authorities.Some?
    requires forall i :: 0 <= i < |writes| ==> states[i].authorities == states[0].authorities && !writes[i].Renaming?
    ensures states[0].ledger <= states[n].ledger && BindingMoves(states[0], states[n], id)
  {
    if n > 0 {
      ChainBinds(states, writes, n - 1, id);
      WriteBinds(states[0], states[n - 1], writes[n - 1], states[n], id);
    }
  }

  /** One transaction that leaves the repositories alone: what it binds, the authority it met says. */
  lemma LeadsBinds(s: State, t: State, id: nat)
    requires Leads(s, t) && t.repos == s.repos && s.authorities.Some?
    ensures BindingMoves(s, t, id)
  {
    var states: seq<State>, writes: seq<Write> :| ChainBetween(s, states, writes, t);
    forall i | 0 <= i < |writes|
      ensures !writes[i].Renaming?
    {
      assert Lawful(states[i], writes[i], states[i + 1]);
      assert states[i].repos == s.repos && states[i + 1].repos == s.repos;
      NoRenaming(states[i], writes[i], states[i + 1]);
    }
    ChainBinds(states, writes, |writes|, id);
  }

  /** Step `b` bound the item, and nothing after it up to state `i` did. */
  predicate LastBinding(trace: seq<State>, b: nat, i: nat, id: nat)
    requires b < i < |trace|
  {
    BoundSince(trace[b + 1].ledger, |trace[b].ledger|, id) && !BoundSince(trace[i].ledger, |trace[b + 1].ledger|, id)
  }

  /** The row's record is what the authority said, at step `b`, of the repository its item was in then. */
  predicate BoundAt(trace: seq<State>, b: nat, i: nat, id: nat)
    requires b < i < |trace| && id < |trace[i].rows|
  {
    && id < |trace[b + 1].rows|
    && trace[b].authorities.Some?
    && trace[b + 1].rows[id].repository in trace[b].authorities.value
    && trace[b + 1].rows[id].def == trace[i].rows[id].def
    && Says(trace[b].authorities.value[trace[b + 1].rows[id].repository], trace[i].rows[id])
  }

  /** A binding recorded from some position on was recorded in one stretch or the next. */
  lemma BoundSinceSplits(ledger: seq<Event>, more: seq<Event>, from: nat, id: nat)
    requires from <= |ledger| && ledger <= more
    ensures BoundSince(more, from, id) <==> BoundSince(ledger, from, id) || BoundSince(more, |ledger|, id)
  {
    if BoundSince(ledger, from, id) {
      var k :| from <= k < |ledger| && ledger[k].item == id && Binds(ledger[k].body);
      assert more[k] == ledger[k];
    }
    if BoundSince(more, from, id) {
      var k :| from <= k < |more| && more[k].item == id && Binds(more[k].body);
      if k < |ledger| { assert ledger[k] == more[k]; }
    }
  }

  /** A setting or a rename keeps every record. */
  lemma SettingKeepsRecords(s: State, op: Op)
    requires Silent(op) && Perform(s, op).Accepted?
    ensures var t := Perform(s, op).value;
            && t.ledger == s.ledger && |t.rows| == |s.rows|
            && forall k :: 0 <= k < |s.rows| ==> t.rows[k].policy == s.rows[k].policy
  {
  }

  /** One step of a governed run binds an item as the authority it met says, or keeps its record. */
  lemma StepBinds(trace: seq<State>, ops: seq<Op>, i: nat, id: nat)
    requires Run(trace, ops) && i < |ops| && id < |trace[i + 1].rows|
    requires trace[i].authorities.Some? || ops[i].OpAuthorities?
    ensures if BoundSince(trace[i + 1].ledger, |trace[i].ledger|, id) then
              SaysOf(trace[i].authorities, trace[i + 1].rows[id])
            else
              id < |trace[i].rows| && trace[i + 1].rows[id].policy == trace[i].rows[id].policy
  {
    hide Perform;
    assert StepAt(trace, ops, i);
    if Perform(trace[i], ops[i]).Accepted? {
      if Silent(ops[i]) {
        SettingKeepsRecords(trace[i], ops[i]);
      } else {
        OpKeepsRepos(trace[i], ops[i]);
        RunLeads(trace, ops, i);
        LeadsBinds(trace[i], trace[i + 1], id);
      }
    }
  }

  lemma StaysBound(trace: seq<State>, b: nat, i: nat, id: nat)
    requires b < i - 1 && i < |trace| && id < |trace[i - 1].rows|
    requires LastBinding(trace, b, i - 1, id) && BoundAt(trace, b, i - 1, id)
    requires trace[b + 1].ledger <= trace[i - 1].ledger <= trace[i].ledger
    requires !BoundSince(trace[i].ledger, |trace[i - 1].ledger|, id)
    requires id < |trace[i].rows| && trace[i].rows[id].policy == trace[i - 1].rows[id].policy
    requires trace[i].rows[id].def == trace[i - 1].rows[id].def
    ensures LastBinding(trace, b, i, id) && BoundAt(trace, b, i, id)
  {
    BoundSinceSplits(trace[i - 1].ledger, trace[i].ledger, |trace[b + 1].ledger|, id);
  }

  /**
   * In a governed run every item stands bound by one step: the last that
   * created or approved it. Its record carries the snapshot and commit of the
   * authority in force at that step, all its actions lie inside that
   * authority's ceiling and none is denied, and the recorded review-required
   * actions are those of its allowed actions that authority wants reviewed.
   */
  lemma {:induction false} RecordIsLastBinding(trace: seq<State>, ops: seq<Op>, i: nat, id: nat)
    requires Run(trace, ops) && i < |trace| && Governed(trace, ops, i) && id < |trace[i].rows|
    ensures exists b: nat :: b < i && LastBinding(trace, b, i, id) && BoundAt(trace, b, i, id)
  {
    hide StepAt;
    if i > 0 {
      StepBinds(trace, ops, i - 1, id);
      RunGrows(trace, ops, i - 1, i);
      if BoundSince(trace[i].ledger, |trace[i - 1].ledger|, id) {
        assert LastBinding(trace, i - 1, i, id) && BoundAt(trace, i - 1, i, id);
      } else {
        RecordIsLastBinding(trace, ops, i - 1, id);
        var b: nat :| b < i - 1 && LastBinding(trace, b, i - 1, id) && BoundAt(trace, b, i - 1, id);
        RunGrows(trace, ops, b + 1, i - 1);
        StaysBound(trace, b, i, id);
      }
    }
  }
}
