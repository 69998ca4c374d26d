/**
 * The invariant every reachable queue state satisfies, and how any later state
 * relates to an earlier one.
 */
module QueueInvariant {
  import opened WorkTypes
  import opened Contracts
  import opened QueueModel
  import opened QueueWrites
  import opened LedgerReplay

  // ----- the invariant -----------------------------------------------------------

  ghost predicate LedgerOk(s: State) {
    && (forall i :: 0 <= i < |s.ledger| ==> s.ledger[i].item < |s.rows| && s.ledger[i].sequence == i + 1)
    && (forall id :: 0 <= id < |s.rows| ==> ItemOk(s.rows[id], History(s, id), s.clock))
  }

  /** A child sits under an earlier item, shares its root and repository, and stays inside its ceiling. */
  predicate LineageOk(rows: seq<Row>, id: nat)
    requires id < |rows|
  {
    match rows[id].def.parent
    case None => rows[id].def.rootId == id
    case Some(p) =>
      && p < id
      && rows[id].def.rootId == rows[p].def.rootId
      && rows[id].repository == rows[p].repository
      && Subset(rows[id].def.allowed, rows[p].def.delegable)
      && Subset(rows[id].def.delegable, rows[p].def.delegable)
  }

  /** The contract holds as approval would judge it. */
  predicate ContractOk(rows: seq<Row>, id: nat)
    requires id < |rows|
  {
    && rows[id].def.target.Some?
    && ContractProblem(TermsOf(rows[id], DelegableOf(rows, rows[id].def.parent))).None?
  }

  ghost predicate LineagesOk(s: State) {
    forall id :: 0 <= id < |s.rows| ==> LineageOk(s.rows, id) && ContractOk(s.rows, id)
  }

  ghost predicate TokensOk(s: State) {
    && (forall i :: 0 <= i < |s.rows| && s.rows[i].lease.Some? ==> s.rows[i].lease.value.token < s.tokens)
    && (forall i, j :: 0 <= i < j < |s.rows| && s.rows[i].lease.Some? && s.rows[j].lease.Some? ==>
          s.rows[i].lease.value.token != s.rows[j].lease.value.token)
  }

  ghost predicate RefsOk(s: State) {
    forall i, j ::
      0 <= i < j < |s.rows| && s.rows[i].repository == s.rows[j].repository && s.rows[i].def.sourceRef.Some? ==>
      s.rows[i].def.sourceRef != s.rows[j].def.sourceRef
  }

  ghost predicate AgesOk(s: State) {
    && (forall i, j :: 0 <= i < j < |s.rows| ==> s.rows[i].def.createdAt <= s.rows[j].def.createdAt)
    && (forall i :: 0 <= i < |s.rows| ==> s.rows[i].def.createdAt <= s.clock)
  }

  ghost predicate Inv(s: State) {
    Shaped(s) && LedgerOk(s) && LineagesOk(s) && TokensOk(s) && RefsOk(s) && AgesOk(s)
  }

  // ----- histories across a write ---------------------------------------------------

  lemma {:induction false} NoEvents(ledger: seq<Event>, id: nat)
    requires forall i :: 0 <= i < |ledger| ==> ledger[i].item < id
    ensures EventsOf(ledger, id) == []
  {
    if ledger != [] { NoEvents(ledger[..|ledger| - 1], id); }
  }

  lemma HistoryAfter(s: State, t: State, e: Event, id: nat)
    requires t.ledger == s.ledger + [e]
    ensures History(t, id) == History(s, id) + if e.item == id then [e] else []
  {
    assert t.ledger[..|t.ledger| - 1] == s.ledger;
  }

  // ----- a write in outline ---------------------------------------------------------------

  /** What a changed row keeps, whatever the event. */
  predicate RowKept(s: State, row: Row, next: Row, body: EventBody) {
    && next.def == row.def
    && next.repository == row.repository
    && SameBinding(row.review, next.review)
    && (next.predecessors == row.predecessors || body.PredecessorsUpdated?)
    && (row.Terminal() ==> next.stored == row.stored)
    && (next.lease.Some? ==>
          || (body.WorkClaimed? && next.lease.value.token == s.tokens)
          || (row.lease.Some? && next.lease.value.token == row.lease.value.token
              && (next.lease == row.lease || row.lease.value.expiresAt > s.clock)))
    && (row.lease.Some? && next.lease.Some? ==> row.stored == Claimed)
    && (if body.WorkPrioritized? then body.was == row.priority else next.priority == row.priority)
    && (next.stored == Claimed ==> row.stored == Claimed || body.WorkClaimed?)
    && (next.stored == Completed ==> row.stored == Claimed || row.stored == Completed)
  }

  /** A lawful write, without the case analysis of its event. */
  ghost predicate Outline(s: State, w: Write, t: State) {
    match w
    case Change(id, row, body, actor) =>
      && id < |s.rows|
      && RowKept(s, s.rows[id], row, body)
      && t == s.(rows := s.rows[id := row], ledger := Append(s, id, body, actor), tokens := t.tokens)
      && t.tokens == s.tokens + (if body.WorkClaimed? then 1 else 0)
    case Add(row) =>
      && NewRow(s, row)
      && (NewRoot(s, row) || NewChild(s, row))
      && t == Insert(s, row, CreationEvent(row))
    case Renaming(from, to) =>
      && from in s.repos && to !in s.repos
      && t == s.(repos := s.repos[to := s.repos[from]] - {from}, rows := Renamed(s.rows, from, to))
    case Environment =>
      && s.clock <= t.clock
      && s.repos.Keys <= t.repos.Keys
      && t == s.(clock := t.clock, repos := t.repos, authorities := t.authorities, eligible := t.eligible)
  }

  lemma FollowsKeepsRow(s: State, row: Row, next: Row, body: EventBody, actor: Principal)
    requires RowShape(row) && Follows(s, row, next, body, actor)
    ensures RowKept(s, row, next, body)
  {
  }

  lemma LawfulOutline(s: State, w: Write, t: State)
    requires Shaped(s) && Lawful(s, w, t)
    ensures Outline(s, w, t)
  {
    if w.Change? {
      FollowsKeepsRow(s, s.rows[w.id], w.row, w.body, w.actor);
    }
  }

  // ----- preservation, part by part ----------------------------------------------------

  /** A write with one event is judged by the one history it extends. */
  lemma OneHistoryGrows(s: State, t: State, e: Event)
    requires LedgerOk(s)
    requires t.ledger == s.ledger + [e] && e.sequence == |t.ledger| && t.clock == s.clock
    requires e.item < |t.rows| && |s.rows| <= |t.rows| <= |s.rows| + 1
    requires |t.rows| == |s.rows| + 1 ==> e.item == |s.rows|
    requires forall j :: 0 <= j < |s.rows| && j != e.item ==> t.rows[j] == s.rows[j]
    requires ItemOk(t.rows[e.item], History(s, e.item) + [e], s.clock)
    ensures LedgerOk(t)
  {
    forall j | 0 <= j < |t.rows|
      ensures ItemOk(t.rows[j], History(t, j), t.clock)
    {
      HistoryAfter(s, t, e, j);
      if j != e.item {
        assert History(t, j) == History(s, j);
        assert ItemOk(s.rows[j], History(s, j), s.clock);
      }
    }
  }

  lemma ChangeKeepsLedger(s: State, id: nat, row: Row, body: EventBody, actor: Principal, t: State)
    requires LedgerOk(s) && Shaped(s) && Lawful(s, Change(id, row, body, actor), t)
    ensures LedgerOk(t)
    ensures forall i :: 0 <= i < |t.rows| ==> RowShape(t.rows[i])
  {
    hide ItemOk;
    var e := t.ledger[|s.ledger|];
    ItemFollows(s, s.rows[id], row, History(s, id), e);
    OneHistoryGrows(s, t, e);
  }

  lemma AddKeepsLedger(s: State, row: Row, t: State)
    requires LedgerOk(s) && Shaped(s)
    requires row.stored == Queued && row.lease.None? && row.result.None? && row.notes == [] && row.previous == []
    requires row.admitted ==> row.predecessors.None?
    requires t == Insert(s, row, CreationEvent(row))
    ensures LedgerOk(t)
    ensures forall i :: 0 <= i < |t.rows| ==> RowShape(t.rows[i])
  {
    hide ItemOk;
    var e := t.ledger[|s.ledger|];
    NoEvents(s.ledger, |s.rows|);
    ItemStarts(row, e, s.clock);
    assert History(s, |s.rows|) + [e] == [e];
    OneHistoryGrows(s, t, e);
  }

  lemma MoveKeepsLedger(s: State, w: Write, t: State)
    requires LedgerOk(s) && Shaped(s) && Outline(s, w, t) && (w.Renaming? || w.Environment?)
    ensures LedgerOk(t)
    ensures forall i :: 0 <= i < |t.rows| ==> RowShape(t.rows[i])
  {
    forall j | 0 <= j < |t.rows|
      ensures ItemOk(t.rows[j], History(t, j), t.clock) && RowShape(t.rows[j])
    {
      assert t.rows[j] == s.rows[j].(repository := t.rows[j].repository);
      assert ViewOf(t.rows[j]) == ViewOf(s.rows[j]);
      assert CarriedBlocks(t.rows[j]) == CarriedBlocks(s.rows[j]);
      assert ItemOk(t.rows[j], History(s, j), s.clock);
      ItemAges(t.rows[j], History(s, j), s.clock, t.clock);
    }
  }

  lemma LedgerKept(s: State, w: Write, t: State)
    requires LedgerOk(s) && Shaped(s) && Lawful(s, w, t)
    ensures LedgerOk(t)
    ensures forall i :: 0 <= i < |t.rows| ==> RowShape(t.rows[i])
  {
    match w
    case Change(id, row, body, actor) => ChangeKeepsLedger(s, id, row, body, actor, t);
    case Add(row) => AddKeepsLedger(s, row, t);
    case Renaming(_, _) => LawfulOutline(s, w, t); MoveKeepsLedger(s, w, t);
    case Environment => LawfulOutline(s, w, t); MoveKeepsLedger(s, w, t);
  }

  /** Rows keep their definition and whether they are bound; only a rename moves them. */
  ghost predicate SameItems(before: seq<Row>, after: seq<Row>) {
    && |before| <= |after|
    && forall i :: 0 <= i < |before| ==>
         after[i].def == before[i].def && after[i].review.Some? == before[i].review.Some?
  }

  lemma OutlineKeepsItems(s: State, w: Write, t: State)
    requires Outline(s, w, t)
    ensures SameItems(s.rows, t.rows)
  {
  }

  lemma OldLineagesKept(s: State, w: Write, t: State)
    requires LineagesOk(s) && Outline(s, w, t)
    ensures forall id :: 0 <= id < |s.rows| ==> LineageOk(t.rows, id) && ContractOk(t.rows, id)
  {
    OutlineKeepsItems(s, w, t);
    forall id | 0 <= id < |s.rows|
      ensures LineageOk(t.rows, id) && ContractOk(t.rows, id)
    {
      assert LineageOk(s.rows, id) && ContractOk(s.rows, id);
      assert TermsOf(t.rows[id], DelegableOf(t.rows, t.rows[id].def.parent))
          == TermsOf(s.rows[id], DelegableOf(s.rows, s.rows[id].def.parent));
    }
  }

  lemma LineagesKept(s: State, w: Write, t: State)
    requires LineagesOk(s) && Outline(s, w, t)
    ensures LineagesOk(t)
  {
    OldLineagesKept(s, w, t);
    if w.Add? {
      var id := |s.rows|;
      assert t.rows[id] == w.row && |t.rows| == id + 1;
      if w.row.def.parent.Some? {
        assert t.rows[w.row.def.parent.value] == s.rows[w.row.def.parent.value];
      }
      assert LineageOk(t.rows, id) && ContractOk(t.rows, id);
    }
  }

  lemma DepthsKept(s: State, w: Write, t: State)
    requires Shaped(s) && Outline(s, w, t)
    ensures forall i :: 0 <= i < |t.rows| ==> Depth(t.rows, i) <= MAX_LINEAGE_DEPTH
    ensures forall i :: 0 <= i < |t.rows| ==> t.rows[i].repository in t.repos
  {
    OutlineKeepsItems(s, w, t);
    forall i | 0 <= i < |t.rows|
      ensures Depth(t.rows, i) <= MAX_LINEAGE_DEPTH
    {
      if i < |s.rows| {
        DepthOfPrefix(s.rows, t.rows, i);
      } else if w.row.def.parent.Some? {
        DepthOfPrefix(s.rows, t.rows, w.row.def.parent.value);
      }
    }
  }

  lemma KeysKept(s: State, w: Write, t: State)
    requires Shaped(s) && RefsOk(s) && AgesOk(s) && Outline(s, w, t)
    ensures RefsOk(t) && AgesOk(t)
  {
    hide CreatedBound;
    if w.Renaming? {
      forall i, j | 0 <= i < j < |t.rows| && t.rows[i].repository == t.rows[j].repository
        && t.rows[i].def.sourceRef.Some?
        ensures t.rows[i].def.sourceRef != t.rows[j].def.sourceRef
      {
        assert s.rows[i].repository != w.to && s.rows[j].repository != w.to;
        assert s.rows[i].repository == s.rows[j].repository;
      }
    }
  }

  lemma TokensKept(s: State, w: Write, t: State)
    requires TokensOk(s) && Outline(s, w, t)
    ensures TokensOk(t)
  {
  }

  lemma WriteKeepsInv(s: State, w: Write, t: State)
    requires Inv(s) && Lawful(s, w, t)
    ensures Inv(t)
  {
    LedgerKept(s, w, t);
    LawfulOutline(s, w, t);
    LineagesKept(s, w, t);
    DepthsKept(s, w, t);
    KeysKept(s, w, t);
    TokensKept(s, w, t);
  }

  // ----- what never goes back -------------------------------------------------------------

  /** The lineage of root `root` still has work that is not completed or cancelled. */
  ghost predicate LineageActive(s: State, root: nat) {
    exists i :: 0 <= i < |s.rows| && s.rows[i].def.rootId == root && !s.rows[i].Terminal()
  }

  /** A predecessor edge of the item was replaced by one of the events. */
  predicate EdgesReplaced(events: seq<Event>, id: nat) {
    exists i :: 0 <= i < |events| && events[i].item == id && events[i].body.PredecessorsUpdated?
  }

  /** Only a lease live before can be live after, for every token already drawn. */
  ghost predicate Fenced(s: State, t: State) {
    forall id: nat, token: nat :: token < s.tokens && Active(t, id, token) ==> Active(s, id, token)
  }

  /** Replaying the longer ledger starts from the same created priority. */
  ghost predicate SameCreatedPriority(s: State, t: State) {
    forall i :: 0 <= i < |s.rows| && i < |t.rows| ==>
      CreatedPriority(History(t, i), t.rows[i].priority) == CreatedPriority(History(s, i), s.rows[i].priority)
  }

  ghost predicate Evolves(s: State, t: State) {
    && SameCreatedPriority(s, t)
    && SameItems(s.rows, t.rows)
    && s.ledger <= t.ledger
    && s.clock <= t.clock
    && s.tokens <= t.tokens
    && Fenced(s, t)
    && (forall i :: 0 <= i < |s.rows| && s.rows[i].Terminal() ==> t.rows[i].stored == s.rows[i].stored)
    && (forall i :: 0 <= i < |s.rows| ==> SameBinding(s.rows[i].review, t.rows[i].review))
    && (forall root :: 0 <= root < |s.rows| && LineageActive(t, root) ==> LineageActive(s, root))
    && (forall i :: 0 <= i < |s.rows| ==>
          t.rows[i].predecessors == s.rows[i].predecessors || EdgesReplaced(t.ledger[|s.ledger|..], i))
  }

  lemma EvolvesOn(s: State, t: State, u: State)
    requires Evolves(s, t) && Evolves(t, u)
    ensures Evolves(s, u)
  {
    forall i | 0 <= i < |s.rows|
      ensures u.rows[i].predecessors == s.rows[i].predecessors || EdgesReplaced(u.ledger[|s.ledger|..], i)
    {
      var all := u.ledger[|s.ledger|..];
      if EdgesReplaced(t.ledger[|s.ledger|..], i) {
        var k :| 0 <= k < |t.ledger[|s.ledger|..]| && t.ledger[|s.ledger|..][k].item == i
                 && t.ledger[|s.ledger|..][k].body.PredecessorsUpdated?;
        assert all[k] == t.ledger[|s.ledger|..][k];
      } else if EdgesReplaced(u.ledger[|t.ledger|..], i) {
        var k :| 0 <= k < |u.ledger[|t.ledger|..]| && u.ledger[|t.ledger|..][k].item == i
                 && u.ledger[|t.ledger|..][k].body.PredecessorsUpdated?;
        assert all[k + |t.ledger| - |s.ledger|] == u.ledger[|t.ledger|..][k];
      }
    }
  }

  lemma WriteFences(s: State, w: Write, t: State)
    requires Outline(s, w, t)
    ensures Fenced(s, t)
  {
    forall id: nat, token: nat | token < s.tokens && Active(t, id, token)
      ensures Active(s, id, token)
    {
      match w
      case Change(changed, row, body, actor) =>
        if id == changed {
          assert t.rows[id] == row;
        } else {
          assert t.rows[id] == s.rows[id];
        }
      case Add(row) => assert id < |s.rows|;
      case Renaming(from, to) => assert t.rows[id].lease == s.rows[id].lease;
      case Environment =>
    }
  }

  lemma WriteKeepsLineages(s: State, w: Write, t: State)
    requires Outline(s, w, t)
    ensures forall root :: 0 <= root < |s.rows| && LineageActive(t, root) ==> LineageActive(s, root)
  {
    forall root | 0 <= root < |s.rows| && LineageActive(t, root)
      ensures LineageActive(s, root)
    {
      var i :| 0 <= i < |t.rows| && t.rows[i].def.rootId == root && !t.rows[i].Terminal();
      if i < |s.rows| {
        assert s.rows[i].def.rootId == root && !s.rows[i].Terminal();
      } else {
        var p := w.row.def.parent.value;
        assert s.rows[p].def.rootId == root && !s.rows[p].Terminal();
      }
    }
  }

  lemma WriteEvolves(s: State, w: Write, t: State)
    requires Inv(s) && Lawful(s, w, t)
    ensures Evolves(s, t)
  {
    LawfulOutline(s, w, t);
    OutlineEvolves(s, w, t);
  }

  lemma WriteKeepsCreatedPriority(s: State, w: Write, t: State)
    requires Outline(s, w, t)
    ensures SameCreatedPriority(s, t)
  {
    if t.ledger != s.ledger {
      var e := t.ledger[|s.ledger|];
      forall i | 0 <= i < |s.rows|
        ensures CreatedPriority(History(t, i), t.rows[i].priority) == CreatedPriority(History(s, i), s.rows[i].priority)
      {
        HistoryAfter(s, t, e, i);
        if w.Change? && i == w.id {
          CreatedPriorityKeeps(History(s, i), e, s.rows[i].priority, t.rows[i].priority);
        } else {
          assert t.rows[i] == s.rows[i] && History(t, i) == History(s, i);
        }
      }
    }
  }

  lemma OutlineEvolves(s: State, w: Write, t: State)
    requires Shaped(s) && Outline(s, w, t)
    ensures Evolves(s, t)
  {
    hide SameCreatedPriority;
    OutlineKeepsItems(s, w, t);
    WriteFences(s, w, t);
    WriteKeepsLineages(s, w, t);
    WriteKeepsCreatedPriority(s, w, t);
    if w.Change? {
      var e := t.ledger[|s.ledger|];
      assert t.ledger[|s.ledger|..] == [e];
      assert w.body.PredecessorsUpdated? ==> EdgesReplaced([e], w.id) by {
        assert [e][0] == e;
      }
    }
  }

  // ----- chains, steps, runs ----------------------------------------------------------------

  lemma {:induction false} ChainKeeps(states: seq<State>, writes: seq<Write>)
    requires Chain(states, writes) && Inv(states[0])
    ensures Inv(states[|writes|]) && Evolves(states[0], states[|writes|])
    decreases |writes|
  {
    hide Inv, Evolves, Lawful;
    if writes == [] {
      EvolvesHere(states[0]);
    } else {
      var n := |writes| - 1;
      assert Chain(states[..n + 1], writes[..n]);
      ChainKeeps(states[..n + 1], writes[..n]);
      WriteKeepsInv(states[n], writes[n], states[n + 1]);
      WriteEvolves(states[n], writes[n], states[n + 1]);
      EvolvesOn(states[0], states[n], states[n + 1]);
    }
  }

  /** Every state of a chain satisfies the invariant and evolves into the last one. */
  lemma ChainSuffix(states: seq<State>, writes: seq<Write>, k: nat)
    requires Chain(states, writes) && Inv(states[0]) && k <= |writes|
    ensures Inv(states[k]) && Evolves(states[k], states[|writes|])
  {
    hide Inv, Evolves, Lawful;
    assert Chain(states[..k + 1], writes[..k]);
    ChainKeeps(states[..k + 1], writes[..k]);
    var rest, left := states[k..], writes[k..];
    forall i | 0 <= i < |left|
      ensures Lawful(rest[i], left[i], rest[i + 1])
    {
      assert Lawful(states[k + i], writes[k + i], states[k + i + 1]);
    }
    ChainKeeps(rest, left);
    assert rest[|left|] == states[|writes|];
  }

  lemma EvolvesHere(s: State)
    ensures Evolves(s, s)
  {
  }

  lemma LeadsKeeps(s: State, t: State)
    requires Inv(s) && Leads(s, t)
    ensures Inv(t) && Evolves(s, t)
  {
    hide Inv, Evolves, Chain;
    var states, writes :| ChainBetween(s, states, writes, t);
    ChainKeeps(states, writes);
  }

  /** Every transaction, committed or refused, keeps the invariant. */
  lemma StepKeeps(s: State, op: Op, t: State)
    requires Inv(s) && Step(s, op, t)
    ensures Inv(t) && Evolves(s, t)
  {
    hide Step, Perform;
    StepLeads(s, op, t);
    LeadsKeeps(s, t);
  }

  lemma EmptyHolds()
    ensures Inv(EMPTY)
  {
  }

  lemma OneStep(trace: seq<State>, ops: seq<Op>, k: nat)
    requires Run(trace, ops) && k < |ops| && Inv(trace[k])
    ensures Inv(trace[k + 1]) && Evolves(trace[k], trace[k + 1])
  {
    hide Inv, Evolves, Perform, Step;
    assert StepAt(trace, ops, k);
    StepKeeps(trace[k], ops[k], trace[k + 1]);
  }

  lemma {:induction false} RunHolds(trace: seq<State>, ops: seq<Op>, i: nat)
    requires Run(trace, ops) && i < |trace|
    ensures Inv(trace[i])
  {
    hide Inv, Evolves, Step, Perform;
    if i == 0 {
      EmptyHolds();
    } else {
      RunHolds(trace, ops, i - 1);
      OneStep(trace, ops, i - 1);
    }
  }

  /** Each state of the sequence evolves into the next. */
  ghost predicate Steady(trace: seq<State>) {
    forall k :: 0 <= k < |trace| - 1 ==> Evolves(trace[k], trace[k + 1])
  }

  lemma RunIsSteady(trace: seq<State>, ops: seq<Op>)
    requires Run(trace, ops)
    ensures Steady(trace)
  {
    hide StepAt;
    forall k | 0 <= k < |trace| - 1
      ensures Evolves(trace[k], trace[k + 1])
    {
      RunHolds(trace, ops, k);
      OneStep(trace, ops, k);
    }
  }

  lemma {:induction false} SteadyEvolves(trace: seq<State>, i: nat, j: nat)
    requires Steady(trace) && i <= j < |trace|
    ensures Evolves(trace[i], trace[j])
    decreases j
  {
    if i == j {
      EvolvesHere(trace[i]);
    } else {
      SteadyEvolves(trace, i, j - 1);
      assert Evolves(trace[j - 1], trace[j - 1 + 1]);
      EvolvesOn(trace[i], trace[j - 1], trace[j]);
    }
  }

  /** In every run the invariant holds throughout, and each state evolves into every later one. */
  lemma RunKeeps(trace: seq<State>, ops: seq<Op>, i: nat, j: nat)
    requires Run(trace, ops) && i <= j < |trace|
    ensures Inv(trace[i]) && Inv(trace[j]) && Evolves(trace[i], trace[j])
  {
    hide Inv, Evolves, Run, Steady;
    RunHolds(trace, ops, i);
    RunHolds(trace, ops, j);
    RunIsSteady(trace, ops);
    SteadyEvolves(trace, i, j);
  }

  /** Ledgers only grow, and rows keep their definitions. */
  lemma RunGrows(trace: seq<State>, ops: seq<Op>, i: nat, j: nat)
    requires Run(trace, ops) && i <= j < |trace|
    ensures trace[i].ledger <= trace[j].ledger && SameItems(trace[i].rows, trace[j].rows)
  {
    hide Inv, Run;
    RunKeeps(trace, ops, i, j);
  }

  /** Each step of a run is a chain of lawful writes. */
  lemma RunLeads(trace: seq<State>, ops: seq<Op>, i: nat)
    requires Run(trace, ops) && i < |ops|
    ensures Inv(trace[i]) && Leads(trace[i], trace[i + 1])
  {
    hide Step, Perform;
    RunHolds(trace, ops, i);
    assert StepAt(trace, ops, i);
    StepLeads(trace[i], ops[i], trace[i + 1]);
  }

  /** What every item of every reachable state satisfies on its own. */
  lemma RunItem(trace: seq<State>, ops: seq<Op>, i: nat, id: nat)
    requires Run(trace, ops) && i < |trace| && id < |trace[i].rows|
    ensures RowShape(trace[i].rows[id]) && ItemOk(trace[i].rows[id], History(trace[i], id), trace[i].clock)
  {
    hide Run;
    RunHolds(trace, ops, i);
  }

  // ----- reachable states --------------------------------------------------------------------

  /** Some run from the empty database ends in the state. */
  ghost predicate Reached(s: State) {
    exists trace, ops :: RunTo(trace, ops, s)
  }

  ghost predicate RunTo(trace: seq<State>, ops: seq<Op>, s: State) {
    Run(trace, ops) && trace[|ops|] == s
  }

  lemma EmptyReached()
    ensures Reached(EMPTY)
  {
    assert RunTo([EMPTY], [], EMPTY);
  }

  lemma ReachedHolds(s: State)
    requires Reached(s)
    ensures Inv(s)
  {
    var trace, ops :| RunTo(trace, ops, s);
    RunHolds(trace, ops, |ops|);
  }

  lemma ReachedOn(s: State, op: Op, t: State)
    requires Reached(s) && Step(s, op, t)
    ensures Reached(t)
  {
    hide Step, Perform;
    var trace, ops :| RunTo(trace, ops, s);
    var longer, more := trace + [t], ops + [op];
    forall i: nat | i < |more|
      ensures StepAt(longer, more, i)
    {
      if i < |ops| {
        assert StepAt(trace, ops, i);
      }
    }
    assert RunTo(longer, more, t);
  }
}
