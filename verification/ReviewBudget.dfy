/** The review budget: how often one pull request is reviewed and fixed, whatever its author pushes. */
module ReviewBudget {
  import opened WorkTypes
  import opened QueueModel
  import opened QueueWrites
  import opened QueueInvariant
  import opened ReviewGate
  import opened OpEvents

  // ----- verdicts in completion order --------------------------------------------------

  /** The reviews of the pull request in the order the ledger completed them. */
  function Verdicts(ledger: seq<Event>, rows: seq<Row>, repository: string, number: nat): seq<nat> {
    if ledger == [] then []
    else
      var e := ledger[|ledger| - 1];
      Verdicts(ledger[..|ledger| - 1], rows, repository, number)
        + if e.body.WorkCompleted? && e.item < |rows| && ReviewItem(rows[e.item], repository, number) then [e.item]
          else []
  }

  function VerdictsOf(s: State, repository: string, number: nat): seq<nat> {
    Verdicts(s.ledger, s.rows, repository, number)
  }

  // ----- the invariant of one pull request -----------------------------------------------

  /** Nothing of the pull request is queued or claimed. */
  predicate Quiescent(rows: seq<Row>, repository: string, number: nat) {
    forall i :: 0 <= i < |rows| && GateItem(rows[i], repository, number) ==> !InFlight(rows[i])
  }

  /** The verdicts are completed reviews, numbered 1, 2, ... in completion order. */
  predicate Numbered(rows: seq<Row>, verdicts: seq<nat>, repository: string, number: nat) {
    && |verdicts| <= MAX_REVIEW_ROUNDS
    && (forall k :: 0 <= k < |verdicts| ==>
          && verdicts[k] < |rows|
          && Judges(rows[verdicts[k]], repository, number)
          && rows[verdicts[k]].review.value.round == k + 1)
    && (forall i :: 0 <= i < |rows| && ReviewItem(rows[i], repository, number) && rows[i].stored == Completed ==>
          i in verdicts)
  }

  /** The record addresses the verdict of its own round, at that verdict's head. */
  predicate Addresses(rows: seq<Row>, verdicts: seq<nat>, fix: Review) {
    && 1 <= fix.round <= |verdicts|
    && fix.round < MAX_REVIEW_ROUNDS
    && fix.reviewItem == Some(verdicts[fix.round - 1])
    && verdicts[fix.round - 1] < |rows|
    && rows[verdicts[fix.round - 1]].review.Some?
    && fix.headSha == rows[verdicts[fix.round - 1]].review.value.headSha
  }

  function HeadAt(rows: seq<Row>, i: nat): Option<string> {
    if i < |rows| && rows[i].review.Some? then Some(rows[i].review.value.headSha) else None
  }

  /** The heads the verdicts judged, in order. */
  function Heads(rows: seq<Row>, verdicts: seq<nat>): seq<Option<string>> {
    seq(|verdicts|, k requires 0 <= k < |verdicts| => HeadAt(rows, verdicts[k]))
  }

  /** Each verdict judged another head than the one before. */
  predicate Moving(heads: seq<Option<string>>) {
    forall j, k :: 0 <= j < |heads| && 0 <= k < |heads| && k == j + 1 ==> heads[j] != heads[k]
  }

  /** The last verdict, if there is one, judged another head. */
  predicate FreshHead(heads: seq<Option<string>>, head: string) {
    heads != [] ==> heads[|heads| - 1] != Some(head)
  }

  predicate GateRow(rows: seq<Row>, verdicts: seq<nat>, i: nat, repository: string, number: nat)
    requires i < |rows| && GateItem(rows[i], repository, number)
  {
    && rows[i].admitted
    && (rows[i].def.kind == REVIEW_KIND && InFlight(rows[i]) ==>
          && rows[i].review.value.round == |verdicts| + 1 <= MAX_REVIEW_ROUNDS
          && FreshHead(Heads(rows, verdicts), rows[i].review.value.headSha))
    && (rows[i].def.kind == REVIEW_FIX_KIND ==>
          && Addresses(rows, verdicts, rows[i].review.value)
          && rows[i].def.sourceRef ==
             Some(BoundHead(REVIEW_FIX_KIND, rows[i].review.value.url, rows[i].review.value.headSha)))
  }

  predicate PlanOk(rows: seq<Row>, verdicts: seq<nat>, plan: Plan, repository: string, number: nat) {
    && Quiescent(rows, repository, number)
    && (plan.root.kind == REVIEW_KIND ==>
          plan.review.round == |verdicts| + 1 <= MAX_REVIEW_ROUNDS
            && FreshHead(Heads(rows, verdicts), plan.review.headSha))
    && (plan.root.kind == REVIEW_FIX_KIND ==>
          && Addresses(rows, verdicts, plan.review)
          && plan.ref == BoundHead(REVIEW_FIX_KIND, plan.review.url, plan.review.headSha))
  }

  predicate GateRows(rows: seq<Row>, verdicts: seq<nat>, repository: string, number: nat) {
    forall i :: 0 <= i < |rows| && GateItem(rows[i], repository, number) ==>
      GateRow(rows, verdicts, i, repository, number)
  }

  /** At most one review or fix of the pull request is queued or claimed. */
  predicate OneInFlight(rows: seq<Row>, repository: string, number: nat) {
    forall i, j ::
      0 <= i < j < |rows| && GateItem(rows[i], repository, number) && GateItem(rows[j], repository, number) ==>
      !(InFlight(rows[i]) && InFlight(rows[j]))
  }

  predicate PlanStands(rows: seq<Row>, verdicts: seq<nat>, pending: Option<Plan>, repository: string, number: nat) {
    pending.Some? && pending.value.repository == repository && pending.value.review.url.number == number ==>
      PlanOk(rows, verdicts, pending.value, repository, number)
  }

  predicate RowsBudgeted(rows: seq<Row>, verdicts: seq<nat>, pending: Option<Plan>, repository: string, number: nat) {
    && Numbered(rows, verdicts, repository, number)
    && GateRows(rows, verdicts, repository, number)
    && Moving(Heads(rows, verdicts))
    && OneInFlight(rows, repository, number)
    && PlanStands(rows, verdicts, pending, repository, number)
  }

  ghost predicate BudgetOk(s: State, pending: Option<Plan>, repository: string, number: nat) {
    RowsBudgeted(s.rows, VerdictsOf(s, repository, number), pending, repository, number)
  }

  ghost predicate BudgetsOk(s: State, pending: Option<Plan>) {
    forall repository, number: nat :: BudgetOk(s, pending, repository, number)
  }

  // ----- one write ---------------------------------------------------------------------------

  /** Verdicts depend only on which rows are reviews of the pull request. */
  lemma {:induction false} SameVerdicts(ledger: seq<Event>, rows: seq<Row>, repository: string,
    more: seq<Row>, moved: string, number: nat)
    requires |rows| <= |more|
    requires forall k :: 0 <= k < |ledger| ==> ledger[k].item < |rows|
    requires forall i :: 0 <= i < |rows| ==>
      (ReviewItem(more[i], moved, number) <==> ReviewItem(rows[i], repository, number))
    ensures Verdicts(ledger, more, moved, number) == Verdicts(ledger, rows, repository, number)
  {
    if ledger != [] { SameVerdicts(ledger[..|ledger| - 1], rows, repository, more, moved, number); }
  }

  lemma VerdictsAfter(s: State, t: State, e: Event, repository: string, number: nat)
    requires ItemsExist(s) && t.ledger == s.ledger + [e] && |s.rows| <= |t.rows|
    requires forall i :: 0 <= i < |s.rows| ==>
      (ReviewItem(t.rows[i], repository, number) <==> ReviewItem(s.rows[i], repository, number))
    ensures VerdictsOf(t, repository, number) == VerdictsOf(s, repository, number)
              + if e.body.WorkCompleted? && e.item < |t.rows| && ReviewItem(t.rows[e.item], repository, number) then
                [e.item] else []
  {
    assert t.ledger[..|t.ledger| - 1] == s.ledger;
    SameVerdicts(s.ledger, s.rows, repository, t.rows, repository, number);
  }

  /** How the row of a gate item moves, when nobody requeues or defers it. */
  lemma GateRowMoves(s: State, row: Row, next: Row, body: EventBody, actor: Principal)
    requires Follows(s, row, next, body, actor) && row.admitted && !body.WorkRequeued? && !body.WorkDeferred?
    ensures next.admitted && next.def == row.def && next.repository == row.repository
    ensures SameBinding(row.review, next.review)
    ensures InFlight(next) ==> InFlight(row)
    ensures body.WorkCompleted? ==> InFlight(row) && next.stored == Completed
    ensures body.WorkCompleted? && row.def.kind == REVIEW_KIND && row.review.Some? ==> next.review.value.decision.Some?
    ensures !body.WorkCompleted? ==>
      next.review == row.review && (next.stored == Completed <==> row.stored == Completed)
  {
  }

  lemma ChangeKeepsBudget(s: State, pending: Option<Plan>, id: nat, row: Row, body: EventBody, actor: Principal,
    t: State, repository: string, number: nat)
    requires ItemsExist(s) && Lawful(s, Change(id, row, body, actor), t) && BudgetOk(s, pending, repository, number)
    requires RowShape(s.rows[id])
    requires s.rows[id].review.Some? ==> !body.WorkRequeued? && !body.WorkDeferred?
    ensures BudgetOk(t, pending, repository, number)
  {
    hide Follows, RowsBudgeted, RowShape;
    var verdicts := VerdictsOf(s, repository, number);
    FollowsKeepsRow(s, s.rows[id], row, body, actor);
    VerdictsAfter(s, t, t.ledger[|s.ledger|], repository, number);
    if GateItem(s.rows[id], repository, number) {
      GateRowAdmitted(s.rows, verdicts, pending, id, repository, number);
      GateRowMoves(s, s.rows[id], row, body, actor);
    }
    if body.WorkCompleted? && ReviewItem(s.rows[id], repository, number) {
      VerdictAdded(s.rows, verdicts, pending, id, row, repository, number);
    } else {
      assert VerdictsOf(t, repository, number) == verdicts;
      VerdictsStand(s.rows, verdicts, pending, id, row, repository, number);
    }
  }

  lemma GateRowAdmitted(rows: seq<Row>, verdicts: seq<nat>, pending: Option<Plan>, i: nat, repository: string,
    number: nat)
    requires RowsBudgeted(rows, verdicts, pending, repository, number)
    requires i < |rows| && GateItem(rows[i], repository, number)
    ensures rows[i].admitted
  {
    assert GateRow(rows, verdicts, i, repository, number);
  }

  /** The row keeps what binds it to its pull request. */
  predicate SameItem(row: Row, next: Row) {
    next.def == row.def && next.repository == row.repository && SameBinding(row.review, next.review)
  }

  /** A review in flight completes: its verdict is the next one. */
  lemma VerdictAdded(rows: seq<Row>, verdicts: seq<nat>, pending: Option<Plan>, id: nat, next: Row,
    repository: string, number: nat)
    requires RowsBudgeted(rows, verdicts, pending, repository, number)
    requires id < |rows| && SameItem(rows[id], next) && ReviewItem(rows[id], repository, number) && InFlight(rows[id])
    requires next.admitted && next.stored == Completed && next.review.value.decision.Some?
    ensures RowsBudgeted(rows[id := next], verdicts + [id], pending, repository, number)
  {
    hide Numbered, GateRows, Moving, FreshHead, Heads, Addresses;
    assert GateRow(rows, verdicts, id, repository, number) by { GateRowOf(rows, verdicts, id, repository, number); }
    NumberedAdds(rows, verdicts, id, next, repository, number);
    GateRowsAdd(rows, verdicts, id, next, repository, number);
    HeadsAdd(rows, verdicts, id, next);
  }

  lemma GateRowOf(rows: seq<Row>, verdicts: seq<nat>, i: nat, repository: string, number: nat)
    requires GateRows(rows, verdicts, repository, number) && i < |rows| && GateItem(rows[i], repository, number)
    ensures GateRow(rows, verdicts, i, repository, number)
  {
  }

  lemma NumberedAdds(rows: seq<Row>, verdicts: seq<nat>, id: nat, next: Row, repository: string, number: nat)
    requires Numbered(rows, verdicts, repository, number) && id < |rows| && SameItem(rows[id], next)
    requires ReviewItem(rows[id], repository, number) && InFlight(rows[id])
    requires rows[id].review.value.round == |verdicts| + 1 <= MAX_REVIEW_ROUNDS
    requires next.stored == Completed && next.review.value.decision.Some?
    ensures Numbered(rows[id := next], verdicts + [id], repository, number) && id !in verdicts
  {
    forall k | 0 <= k < |verdicts|
      ensures verdicts[k] != id && Judges(rows[verdicts[k]], repository, number)
    {
      assert Judges(rows[verdicts[k]], repository, number);
    }
  }

  lemma HeadsAdd(rows: seq<Row>, verdicts: seq<nat>, id: nat, next: Row)
    requires id < |rows| && id !in verdicts && next.review.Some?
    requires Moving(Heads(rows, verdicts)) && FreshHead(Heads(rows, verdicts), next.review.value.headSha)
    ensures Moving(Heads(rows[id := next], verdicts + [id]))
  {
    assert Heads(rows[id := next], verdicts + [id]) == Heads(rows, verdicts) + [Some(next.review.value.headSha)];
  }

  /** Nothing else was in flight, so only the fixes speak of verdicts, and theirs stand. */
  lemma GateRowsAdd(rows: seq<Row>, verdicts: seq<nat>, id: nat, next: Row, repository: string, number: nat)
    requires GateRows(rows, verdicts, repository, number) && OneInFlight(rows, repository, number)
    requires id < |rows| && id !in verdicts && SameItem(rows[id], next)
    requires ReviewItem(rows[id], repository, number) && InFlight(rows[id])
    requires next.admitted && next.stored == Completed
    ensures GateRows(rows[id := next], verdicts + [id], repository, number)
  {
    var after := rows[id := next];
    forall i | 0 <= i < |after| && GateItem(after[i], repository, number)
      ensures GateRow(after, verdicts + [id], i, repository, number)
    {
      assert GateRow(rows, verdicts, i, repository, number);
      assert !InFlight(after[i]);
    }
  }

  /** The changed row, if it is a gate item, neither comes into flight nor changes its verdict. */
  predicate Settles(row: Row, next: Row, repository: string, number: nat) {
    && SameItem(row, next)
    && (GateItem(row, repository, number) ==>
          && next.admitted
          && (InFlight(next) ==> InFlight(row))
          && (row.def.kind == REVIEW_KIND ==>
             next.review == row.review && (next.stored == Completed <==> row.stored == Completed)))
  }

  lemma NumberedStands(rows: seq<Row>, id: nat, next: Row, verdicts: seq<nat>, repository: string, number: nat)
    requires id < |rows| && Settles(rows[id], next, repository, number) && Numbered(rows, verdicts, repository, number)
    ensures Numbered(rows[id := next], verdicts, repository, number)
    ensures forall k :: 0 <= k < |verdicts| ==> rows[id := next][verdicts[k]].review == rows[verdicts[k]].review
    ensures Heads(rows[id := next], verdicts) == Heads(rows, verdicts)
  {
    forall k | 0 <= k < |verdicts|
      ensures Judges(rows[id := next][verdicts[k]], repository, number)
      ensures rows[id := next][verdicts[k]].review == rows[verdicts[k]].review
    {
      assert Judges(rows[verdicts[k]], repository, number);
    }
  }

  lemma GateRowsStand(rows: seq<Row>, id: nat, next: Row, verdicts: seq<nat>, repository: string, number: nat)
    requires id < |rows| && Settles(rows[id], next, repository, number) && Numbered(rows, verdicts, repository, number)
    requires GateRows(rows, verdicts, repository, number)
    ensures GateRows(rows[id := next], verdicts, repository, number)
  {
    hide Numbered;
    NumberedStands(rows, id, next, verdicts, repository, number);
    var after := rows[id := next];
    forall i | 0 <= i < |after| && GateItem(after[i], repository, number)
      ensures GateRow(after, verdicts, i, repository, number)
    {
      assert GateRow(rows, verdicts, i, repository, number);
    }
  }

  /** Nothing of the pull request completes a review, and nothing comes back into flight. */
  lemma VerdictsStand(rows: seq<Row>, verdicts: seq<nat>, pending: Option<Plan>, id: nat, next: Row,
    repository: string, number: nat)
    requires RowsBudgeted(rows, verdicts, pending, repository, number)
    requires id < |rows| && Settles(rows[id], next, repository, number)
    ensures RowsBudgeted(rows[id := next], verdicts, pending, repository, number)
  {
    NumberedStands(rows, id, next, verdicts, repository, number);
    GateRowsStand(rows, id, next, verdicts, repository, number);
  }

  /** A new row that carries no review record is no gate item. */
  lemma AddKeepsBudget(s: State, pending: Option<Plan>, row: Row, t: State, repository: string, number: nat)
    requires ItemsExist(s) && Lawful(s, Add(row), t) && row.review.None? && BudgetOk(s, pending, repository, number)
    ensures BudgetOk(t, pending, repository, number)
  {
    var e := t.ledger[|s.ledger|];
    VerdictsAfter(s, t, e, repository, number);
    var verdicts := VerdictsOf(s, repository, number);
    RowsExtended(s, t, pending, repository, number);
  }

  lemma NumberedExtends(rows: seq<Row>, more: seq<Row>, verdicts: seq<nat>, repository: string, number: nat)
    requires rows <= more && Numbered(rows, verdicts, repository, number)
    requires forall i :: |rows| <= i < |more| ==> more[i].stored != Completed || more[i].review.None?
    ensures Numbered(more, verdicts, repository, number)
    ensures Heads(more, verdicts) == Heads(rows, verdicts)
  {
    forall k | 0 <= k < |verdicts|
      ensures verdicts[k] < |more| && Judges(more[verdicts[k]], repository, number)
    {
      assert Judges(rows[verdicts[k]], repository, number);
    }
  }

  lemma GateRowsExtend(rows: seq<Row>, more: seq<Row>, verdicts: seq<nat>, repository: string, number: nat)
    requires rows <= more && GateRows(rows, verdicts, repository, number)
    requires Heads(more, verdicts) == Heads(rows, verdicts)
    requires forall i :: |rows| <= i < |more| && GateItem(more[i], repository, number) ==>
      GateRow(more, verdicts, i, repository, number)
    ensures GateRows(more, verdicts, repository, number)
  {
    forall i | 0 <= i < |more| && GateItem(more[i], repository, number)
      ensures GateRow(more, verdicts, i, repository, number)
    {
      if i < |rows| {
        assert GateRow(rows, verdicts, i, repository, number);
      }
    }
  }

  lemma RowsExtended(s: State, t: State, pending: Option<Plan>, repository: string, number: nat)
    requires BudgetOk(s, pending, repository, number)
    requires s.rows <= t.rows && forall i :: |s.rows| <= i < |t.rows| ==> t.rows[i].review.None?
    requires VerdictsOf(t, repository, number) == VerdictsOf(s, repository, number)
    ensures BudgetOk(t, pending, repository, number)
  {
    var verdicts := VerdictsOf(s, repository, number);
    NumberedExtends(s.rows, t.rows, verdicts, repository, number);
    GateRowsExtend(s.rows, t.rows, verdicts, repository, number);
  }

  /** The planned root is enqueued: while it was pending nothing of its pull request moved. */
  lemma MintKeepsBudget(s: State, plan: Plan, row: Row, t: State, repository: string, number: nat)
    requires ItemsExist(s) && t == Insert(s, row, WorkQueued) && BudgetOk(s, Some(plan), repository, number)
    requires Planned(plan, row)
    ensures BudgetOk(t, None, repository, number)
  {
    var verdicts := VerdictsOf(s, repository, number);
    assert VerdictsOf(t, repository, number) == verdicts by {
      VerdictsAfter(s, t, t.ledger[|s.ledger|], repository, number);
    }
    PlannedRows(s.rows, verdicts, plan, row, repository, number);
    assert t.rows == s.rows + [row];
  }

  /** The row is the plan's root, as enqueued. */
  predicate Planned(plan: Plan, row: Row) {
    && row.repository == plan.repository && row.def.kind == plan.root.kind && row.review == Some(plan.review)
    && row.def.sourceRef == Some(plan.ref) && row.admitted && row.stored == Queued
  }

  lemma PlannedRows(rows: seq<Row>, verdicts: seq<nat>, plan: Plan, row: Row, repository: string, number: nat)
    requires RowsBudgeted(rows, verdicts, Some(plan), repository, number) && Planned(plan, row)
    ensures RowsBudgeted(rows + [row], verdicts, None, repository, number)
  {
    NumberedExtends(rows, rows + [row], verdicts, repository, number);
    if GateItem(row, repository, number) {
      PlannedRow(rows, verdicts, plan, row, repository, number);
    }
    GateRowsExtend(rows, rows + [row], verdicts, repository, number);
    PlannedFlight(rows, verdicts, plan, row, repository, number);
  }

  lemma PlannedRow(rows: seq<Row>, verdicts: seq<nat>, plan: Plan, row: Row, repository: string, number: nat)
    requires PlanStands(rows, verdicts, Some(plan), repository, number) && GateItem(row, repository, number)
      && Planned(plan, row)
    requires Heads(rows + [row], verdicts) == Heads(rows, verdicts)
    ensures GateRow(rows + [row], verdicts, |rows|, repository, number)
  {
  }

  lemma PlannedFlight(rows: seq<Row>, verdicts: seq<nat>, plan: Plan, row: Row, repository: string, number: nat)
    requires PlanStands(rows, verdicts, Some(plan), repository, number) && OneInFlight(rows, repository, number)
      && Planned(plan, row)
    ensures OneInFlight(rows + [row], repository, number)
  {
  }

  /** Moving a repository moves its pull requests with all their items. */
  lemma RenameKeepsBudgets(s: State, from: string, to: string, t: State)
    requires Inv(s) && BudgetsOk(s, None) && Lawful(s, Renaming(from, to), t)
    ensures BudgetsOk(t, None)
  {
    hide BudgetOk, RowsBudgeted, LineagesOk;
    forall repository, number: nat
      ensures BudgetOk(t, None, repository, number)
    {
      var was := if repository == to then from else repository;
      assert BudgetOk(s, None, was, number);
      if repository == from {
        NothingUnderOldName(t, from, number);
      } else {
        ItemsMove(s.rows, from, to, repository, was, number);
        assert ItemsExist(s);
        MovedVerdicts(s, t, was, repository, number);
        SameBudget(s, t, was, repository, number);
      }
    }
  }

  lemma NothingUnderOldName(t: State, from: string, number: nat)
    requires forall i :: 0 <= i < |t.rows| ==> t.rows[i].repository != from
    ensures BudgetOk(t, None, from, number)
  {
    NoVerdicts(t.ledger, t.rows, from, number);
  }

  /** A rename to an unused name moves exactly the items of the old one. */
  lemma ItemsMove(rows: seq<Row>, from: string, to: string, repository: string, was: string, number: nat)
    requires forall i :: 0 <= i < |rows| ==> rows[i].repository != to
    requires repository != from && was == if repository == to then from else repository
    ensures forall i :: 0 <= i < |rows| ==>
              && Renamed(rows, from, to)[i] == rows[i].(repository := Renamed(rows, from, to)[i].repository)
              && (GateItem(Renamed(rows, from, to)[i], repository, number) <==> GateItem(rows[i], was, number))
  {
  }

  lemma MovedVerdicts(s: State, t: State, was: string, repository: string, number: nat)
    requires ItemsExist(s) && t.ledger == s.ledger && |t.rows| == |s.rows|
    requires forall i :: 0 <= i < |t.rows| ==> t.rows[i] == s.rows[i].(repository := t.rows[i].repository)
    requires forall i :: 0 <= i < |t.rows| ==>
      (GateItem(t.rows[i], repository, number) <==> GateItem(s.rows[i], was, number))
    ensures VerdictsOf(t, repository, number) == VerdictsOf(s, was, number)
  {
    SameVerdicts(s.ledger, s.rows, was, t.rows, repository, number);
  }

  lemma {:induction false} NoVerdicts(ledger: seq<Event>, rows: seq<Row>, repository: string, number: nat)
    requires forall i :: 0 <= i < |rows| ==> !GateItem(rows[i], repository, number)
    ensures Verdicts(ledger, rows, repository, number) == []
  {
    if ledger != [] { NoVerdicts(ledger[..|ledger| - 1], rows, repository, number); }
  }

  lemma SameBudget(s: State, t: State, was: string, repository: string, number: nat)
    requires BudgetOk(s, None, was, number) && |t.rows| == |s.rows|
    requires forall i :: 0 <= i < |t.rows| ==> t.rows[i] == s.rows[i].(repository := t.rows[i].repository)
    requires forall i :: 0 <= i < |t.rows| ==>
      (GateItem(t.rows[i], repository, number) <==> GateItem(s.rows[i], was, number))
    requires VerdictsOf(t, repository, number) == VerdictsOf(s, was, number)
    ensures BudgetOk(t, None, repository, number)
  {
    MovedBudget(s.rows, t.rows, VerdictsOf(s, was, number), was, repository, number);
  }

  lemma MovedBudget(rows: seq<Row>, moved: seq<Row>, verdicts: seq<nat>, was: string, repository: string, number: nat)
    requires RowsBudgeted(rows, verdicts, None, was, number) && |moved| == |rows|
    requires forall i :: 0 <= i < |moved| ==> moved[i] == rows[i].(repository := moved[i].repository)
    requires forall i :: 0 <= i < |moved| ==>
      (GateItem(moved[i], repository, number) <==> GateItem(rows[i], was, number))
    ensures RowsBudgeted(moved, verdicts, None, repository, number)
  {
    forall k | 0 <= k < |verdicts|
      ensures Judges(moved[verdicts[k]], repository, number)
    {
      assert Judges(rows[verdicts[k]], was, number);
    }
    assert Heads(moved, verdicts) == Heads(rows, verdicts);
    forall i | 0 <= i < |moved| && GateItem(moved[i], repository, number)
      ensures GateRow(moved, verdicts, i, repository, number)
    {
      assert GateRow(rows, verdicts, i, was, number);
    }
  }

  // ----- one transaction --------------------------------------------------------------------------

  /** Adds no item with a review record, and requeues or defers none. */
  ghost predicate Quiet(s: State, t: State) {
    && |s.rows| <= |t.rows| && |s.ledger| <= |t.ledger|
    && (forall i :: |s.rows| <= i < |t.rows| ==> t.rows[i].review.None?)
    && (forall k :: |s.ledger| <= k < |t.ledger| ==>
          && t.ledger[k].item < |t.rows|
          && (t.ledger[k].body.WorkRequeued? || t.ledger[k].body.WorkDeferred? ==>
             t.rows[t.ledger[k].item].review.None?))
  }

  lemma ChangeIsQuiet(s: State, id: nat, row: Row, body: EventBody, actor: Principal, t: State, final: State)
    requires Shaped(s) && Lawful(s, Change(id, row, body, actor), t)
    requires SameItems(t.rows, final.rows) && t.ledger <= final.ledger && Quiet(s, final)
    ensures s.rows[id].review.Some? ==> !body.WorkRequeued? && !body.WorkDeferred?
  {
    assert final.ledger[|s.ledger|] == t.ledger[|s.ledger|];
    FollowsKeepsRow(s, s.rows[id], row, body, actor);
  }

  lemma MovesKeepBudget(s: State, pending: Option<Plan>, t: State, repository: string, number: nat)
    requires t.rows == s.rows && t.ledger == s.ledger && BudgetOk(s, pending, repository, number)
    ensures BudgetOk(t, pending, repository, number)
  {
  }

  lemma WriteKeepsBudgets(s: State, pending: Option<Plan>, w: Write, t: State, final: State)
    requires Inv(s) && Lawful(s, w, t) && !w.Renaming? && BudgetsOk(s, pending)
    requires SameItems(t.rows, final.rows) && t.ledger <= final.ledger && Quiet(s, final)
    ensures BudgetsOk(t, pending)
  {
    hide BudgetOk, Follows, NewRow, NewRoot, NewChild;
    forall repository, number: nat
      ensures BudgetOk(t, pending, repository, number)
    {
      assert BudgetOk(s, pending, repository, number);
      match w
      case Change(id, row, body, actor) =>
        ChangeIsQuiet(s, id, row, body, actor, t, final);
        ChangeKeepsBudget(s, pending, id, row, body, actor, t, repository, number);
      case Add(row) =>
        assert t.rows[|s.rows|] == row;
        AddKeepsBudget(s, pending, row, t, repository, number);
      case Environment => MovesKeepBudget(s, pending, t, repository, number);
    }
  }

  /** What is quiet from the start is quiet from a later state on. */
  lemma QuietFromThere(s: State, u: State, final: State)
    requires Quiet(s, final) && |s.rows| <= |u.rows| <= |final.rows| && |s.ledger| <= |u.ledger| <= |final.ledger|
    ensures Quiet(u, final)
  {
  }

  lemma {:induction false} ChainKeepsBudgets(states: seq<State>, writes: seq<Write>, n: nat, final: State,
    pending: Option<Plan>)
    requires Chain(states, writes) && Inv(states[0]) && BudgetsOk(states[0], pending) && n <= |writes|
    requires forall i :: 0 <= i < |writes| ==> !writes[i].Renaming?
    requires Evolves(states[|writes|], final) && Quiet(states[0], final)
    ensures BudgetsOk(states[n], pending)
  {
    hide Inv, Quiet, BudgetsOk, Lawful;
    if n > 0 {
      ChainKeepsBudgets(states, writes, n - 1, final, pending);
      ChainSuffix(states, writes, n - 1);
      ChainSuffix(states, writes, n);
      assert Chain(states[..n], writes[..n - 1]);
      ChainKeeps(states[..n], writes[..n - 1]);
      EvolvesOn(states[n], states[|writes|], final);
      QuietFromThere(states[0], states[n - 1], final);
      WriteKeepsBudgets(states[n - 1], pending, writes[n - 1], states[n], final);
    }
  }

  /** A chain that leaves the repositories alone renames none. */
  lemma LeadsKeepsBudgets(s: State, t: State, pending: Option<Plan>)
    requires Inv(s) && Leads(s, t) && t.repos == s.repos && Quiet(s, t) && BudgetsOk(s, pending)
    ensures BudgetsOk(t, pending)
  {
    var states: seq<State>, writes: seq<Write> :| ChainBetween(s, states, writes, t);
    forall i | 0 <= i < |writes|
      ensures !writes[i].Renaming?
    {
      assert Lawful(states[i], writes[i], states[i + 1]);
      assert states[i].repos == s.repos && states[i + 1].repos == s.repos;
      NoRenaming(states[i], writes[i], states[i + 1]);
    }
    EvolvesHere(t);
    ChainKeepsBudgets(states, writes, |writes|, t, pending);
  }

  // ----- which transactions are quiet -----------------------------------------------------------

  /** A transaction the protocol permits is quiet. */
  lemma PermittedIsQuiet(g: Gate, op: Op)
    requires Permitted(g, op) && ItemsExist(g.queue) && Perform(g.queue, op).Accepted?
    ensures Quiet(g.queue, Perform(g.queue, op).value)
    ensures Perform(g.queue, op).value.ledger != g.queue.ledger ==> Perform(g.queue, op).value.repos == g.queue.repos
  {
    OpRecords(g.queue, op);
    var s, t := g.queue, Perform(g.queue, op).value;
    forall k | |s.ledger| <= k < |t.ledger| && (t.ledger[k].body.WorkRequeued? || t.ledger[k].body.WorkDeferred?)
      ensures t.rows[t.ledger[k].item].review.None?
    {
      assert Records(op, t.ledger[k].item, t.ledger[k].body);
      DecisionKeepsReview(s, op);
    }
  }

  lemma DecisionKeepsReview(s: State, op: Op)
    requires op.OpRequeue? || op.OpDefer?
    requires Perform(s, op).Accepted?
    ensures op.id < |s.rows| && Perform(s, op).value.rows[op.id].review == s.rows[op.id].review
  {
    hide Complete;
  }

  lemma SettingKeepsBudgets(s: State, op: Op, pending: Option<Plan>)
    requires Inv(s) && BudgetsOk(s, pending) && Perform(s, op).Accepted?
    requires op.OpTick? || op.OpEligible? || op.OpAuthorities? || op.OpEnable? || (op.OpRename? && pending.None?)
    ensures BudgetsOk(Perform(s, op).value, pending)
  {
    hide Complete, CompleteUnderLease, Inv;
    var t := Perform(s, op).value;
    if op.OpRename? {
      RenameKeepsBudgets(s, op.from, op.to, t);
    } else {
      assert t.rows == s.rows && t.ledger == s.ledger;
      forall repository, number: nat ensures BudgetOk(t, pending, repository, number) {
        assert BudgetOk(s, pending, repository, number);
      }
    }
  }

  lemma TransactionKeepsBudgets(g: Gate, op: Op, t: State)
    requires Inv(g.queue) && BudgetsOk(g.queue, g.pending) && Permitted(g, op) && Step(g.queue, op, t)
    ensures BudgetsOk(t, g.pending)
  {
    hide Perform;
    var s := g.queue;
    if Perform(s, op).Refused? {
    } else if op.OpTick? || op.OpEligible? || op.OpAuthorities? || op.OpEnable? || op.OpRename? {
      SettingKeepsBudgets(s, op, g.pending);
    } else {
      PermittedIsQuiet(g, op);
      OpKeepsRepos(s, op);
      StepLeads(s, op, t);
      LeadsKeepsBudgets(s, t, g.pending);
    }
  }

  // ----- what the sweep decides ----------------------------------------------------------------------

  /** The reviews the sweep finds completed are exactly the verdicts, and its latest is the last of them. */
  lemma SweepSeesVerdicts(rows: seq<Row>, verdicts: seq<nat>, repository: string, number: nat)
    requires Numbered(rows, verdicts, repository, number)
    ensures var found := CompletedReviews(rows, repository, number, |rows|);
            && |found| == |verdicts|
            && (found != [] ==> LatestOf(rows, found) == Some(verdicts[|verdicts| - 1]))
  {
    hide CompletedReviews, LatestOf;
    var found := CompletedReviews(rows, repository, number, |rows|);
    FoundAreVerdicts(rows, verdicts, repository, number);
    VerdictsDiffer(rows, verdicts, repository, number);
    SameLength(found, verdicts);
    if found != [] {
      var latest, last := LatestOf(rows, found).value, verdicts[|verdicts| - 1];
      assert last in verdicts && latest in verdicts;
      assert rows[last].review.value.round <= rows[latest].review.value.round;
    }
  }

  lemma FoundAreVerdicts(rows: seq<Row>, verdicts: seq<nat>, repository: string, number: nat)
    requires Numbered(rows, verdicts, repository, number)
    ensures forall i :: i in CompletedReviews(rows, repository, number, |rows|) <==> i in verdicts
  {
    hide CompletedReviews;
    forall i
      ensures i in CompletedReviews(rows, repository, number, |rows|) <==> i in verdicts
    {
      if i in verdicts {
        assert Judges(rows[i], repository, number);
      }
    }
  }

  lemma VerdictsDiffer(rows: seq<Row>, verdicts: seq<nat>, repository: string, number: nat)
    requires Numbered(rows, verdicts, repository, number)
    ensures forall j, k :: 0 <= j < k < |verdicts| ==> verdicts[j] != verdicts[k]
  {
  }

  /** Sequences without repetition and with the same members are equally long. */
  lemma SameLength(a: seq<nat>, b: seq<nat>)
    requires forall j, k :: 0 <= j < k < |a| ==> a[j] != a[k]
    requires forall j, k :: 0 <= j < k < |b| ==> b[j] != b[k]
    requires forall i :: i in a <==> i in b
    ensures |a| == |b|
  {
    Distinct(a);
    Distinct(b);
    assert Members(a) == Members(b);
  }

  function Members(a: seq<nat>): set<nat> {
    set i | i in a
  }

  lemma {:induction false} Distinct(a: seq<nat>)
    requires forall j, k :: 0 <= j < k < |a| ==> a[j] != a[k]
    ensures |Members(a)| == |a|
  {
    if a == [] {
      assert Members(a) == {};
    } else {
      var rest, last := a[..|a| - 1], a[|a| - 1];
      Distinct(rest);
      assert a == rest + [last];
      assert last !in Members(rest) && Members(a) == Members(rest) + {last};
    }
  }

  /** A fix is decided only for a block at exactly the head just read, below the last round. */
  lemma BlockDecision(rows: seq<Row>, verdicts: seq<nat>, repository: string, url: PullUrl, head: string)
    requires Numbered(rows, verdicts, repository, url.number) && verdicts != []
    requires rows[verdicts[|verdicts| - 1]].review.value.headSha == head
    ensures var decision := AfterBlock(rows, repository, url, head, verdicts[|verdicts| - 1]);
            && !decision.MintReview?
            && (decision.MintFix? ==>
                  Addresses(rows, verdicts, decision.fix) && decision.fix.url == url && decision.fix.headSha == head)
  {
    var last := |verdicts| - 1;
    assert Judges(rows[verdicts[last]], repository, url.number) && rows[verdicts[last]].review.value.round == last + 1;
  }

  /** The decision, told by the verdicts. */
  lemma DecisionByVerdicts(rows: seq<Row>, verdicts: seq<nat>, repository: string, url: PullUrl, head: string)
    requires Numbered(rows, verdicts, repository, url.number)
    ensures Decide(rows, repository, url, head) ==
            if !Quiescent(rows, repository, url.number) then AlreadyInFlight
            else
              DecideFrom(rows, repository, url, head,
                if verdicts == [] then None else Some(verdicts[|verdicts| - 1]), |verdicts|)
  {
    SweepSeesVerdicts(rows, verdicts, repository, url.number);
  }

  predicate Fits(rows: seq<Row>, verdicts: seq<nat>, decision: GateDecision, url: PullUrl, head: string) {
    match decision
    case MintReview(review) =>
      && review.url == url && review.headSha == head && review.round == |verdicts| + 1 <= MAX_REVIEW_ROUNDS
      && FreshHead(Heads(rows, verdicts), head)
    case MintFix(fix) => Addresses(rows, verdicts, fix) && fix.url == url && fix.headSha == head
    case _ => true
  }

  lemma ChoiceFits(rows: seq<Row>, verdicts: seq<nat>, repository: string, url: PullUrl, head: string,
    latest: Option<nat>)
    requires Numbered(rows, verdicts, repository, url.number)
    requires latest == if verdicts == [] then None else Some(verdicts[|verdicts| - 1])
    ensures Fits(rows, verdicts, DecideFrom(rows, repository, url, head, latest, |verdicts|), url, head)
  {
    if latest.Some? && rows[latest.value].review.value.headSha == head {
      BlockDecision(rows, verdicts, repository, url, head);
    }
  }

  /** Whatever head it read, what the sweep decides to mint fits the budget, and nothing else is in flight. */
  lemma DecisionFits(rows: seq<Row>, verdicts: seq<nat>, repository: string, url: PullUrl, head: string)
    requires Numbered(rows, verdicts, repository, url.number)
    ensures var decision := Decide(rows, repository, url, head);
            && Fits(rows, verdicts, decision, url, head)
            && (decision.MintReview? || decision.MintFix? ==> Quiescent(rows, repository, url.number))
  {
    DecisionByVerdicts(rows, verdicts, repository, url, head);
    ChoiceFits(rows, verdicts, repository, url, head, if verdicts == [] then None else Some(verdicts[|verdicts| - 1]));
  }

  lemma PlanFits(rows: seq<Row>, verdicts: seq<nat>, repository: string, url: PullUrl, head: string, brief: Brief,
    priority: int)
    requires Numbered(rows, verdicts, repository, url.number)
    ensures PlanStands(rows, verdicts, PlanFor(repository, Decide(rows, repository, url, head), brief, priority),
      repository, url.number)
  {
    DecisionFits(rows, verdicts, repository, url, head);
  }

  lemma LookKeepsBudgets(s: State, repository: string, url: PullUrl, head: string, brief: Brief, priority: int)
    requires BudgetsOk(s, None)
    ensures BudgetsOk(s, PlanFor(repository, Decide(s.rows, repository, url, head), brief, priority))
  {
    var pending := PlanFor(repository, Decide(s.rows, repository, url, head), brief, priority);
    forall other, number: nat
      ensures BudgetOk(s, pending, other, number)
    {
      assert BudgetOk(s, None, other, number);
      var verdicts := VerdictsOf(s, other, number);
      if other == repository && number == url.number {
        PlanFits(s.rows, verdicts, repository, url, head, brief, priority);
      } else if pending.Some? {
        PlanIsFor(s, repository, url, head, brief, priority);
      }
    }
  }

  lemma PlanIsFor(s: State, repository: string, url: PullUrl, head: string, brief: Brief, priority: int)
    ensures var plan := PlanFor(repository, Decide(s.rows, repository, url, head), brief, priority);
            plan.Some? ==> plan.value.repository == repository && plan.value.review.url == url
  {
  }

  /** Enqueueing the plan either changes nothing or adds exactly the planned row. */
  lemma MintAddsPlan(s: State, plan: Plan, t: State)
    requires EnqueueReview(s, plan.repository, plan.root, plan.ref, plan.review) == Accepted(t) && t != s
    ensures |t.rows| == |s.rows| + 1 && Planned(plan, t.rows[|s.rows|])
    ensures t == Insert(s, t.rows[|s.rows|], WorkQueued)
  {
  }

  lemma MintStepKeepsBudgets(s: State, plan: Plan, t: State)
    requires ItemsExist(s) && BudgetsOk(s, Some(plan))
    requires t == s || EnqueueReview(s, plan.repository, plan.root, plan.ref, plan.review) == Accepted(t)
    ensures BudgetsOk(t, None)
  {
    forall repository, number: nat
      ensures BudgetOk(t, None, repository, number)
    {
      assert BudgetOk(s, Some(plan), repository, number);
      if t != s {
        MintAddsPlan(s, plan, t);
        MintKeepsBudget(s, plan, t.rows[|s.rows|], t, repository, number);
      }
    }
  }

  // ----- whole runs ------------------------------------------------------------------------------------

  lemma MoveKeepsBudgets(g: Gate, step: GateStep, h: Gate)
    requires Inv(g.queue) && BudgetsOk(g.queue, g.pending) && Moves(g, step, h)
    ensures BudgetsOk(h.queue, h.pending)
  {
    hide Complete, EnqueueBatch, EnqueueReview;
    match step
    case Transact(op) => TransactionKeepsBudgets(g, op, h.queue);
    case Look(repository, url, head, brief, priority) =>
      LookKeepsBudgets(g.queue, repository, url, head, brief, priority);
    case Mint => MintStepKeepsBudgets(g.queue, g.pending.value, h.queue);
    case Abandon =>
      forall repository, number: nat ensures BudgetOk(h.queue, None, repository, number) {
        assert BudgetOk(g.queue, g.pending, repository, number);
      }
  }

  lemma MoveKeepsQueue(g: Gate, step: GateStep, h: Gate)
    requires Inv(g.queue) && Moves(g, step, h)
    ensures Inv(h.queue)
  {
    hide Step;
    match step
    case Transact(op) => StepKeeps(g.queue, op, h.queue);
    case Look(_, _, _, _, _) =>
    case Mint =>
      var p := g.pending.value;
      StepKeeps(g.queue, OpReview(p.repository, p.root, p.ref, p.review), h.queue);
    case Abandon =>
  }

  lemma {:induction false} GateRunHolds(trace: seq<Gate>, steps: seq<GateStep>, i: nat)
    requires GateRun(trace, steps) && i < |trace|
    ensures Inv(trace[i].queue) && BudgetsOk(trace[i].queue, trace[i].pending)
  {
    hide Moves, Step;
    if i == 0 {
      EmptyHolds();
      assert forall repository, number: nat :: VerdictsOf(EMPTY, repository, number) == [];
    } else {
      GateRunHolds(trace, steps, i - 1);
      assert MovesAt(trace, steps, i - 1);
      MoveKeepsQueue(trace[i - 1], steps[i - 1], trace[i]);
      MoveKeepsBudgets(trace[i - 1], steps[i - 1], trace[i]);
    }
  }

  /**
   * However often the head moves, reviewers decline, leases lapse, or work
   * blocks: a pull request never has two reviews or fixes queued or claimed at
   * once, and its verdicts are numbered 1, 2, 3 in the order they were
   * completed, with no fourth.
   */
  lemma AtMostThreeVerdicts(trace: seq<Gate>, steps: seq<GateStep>, i: nat, repository: string, number: nat)
    requires GateRun(trace, steps) && i < |trace|
    ensures OneInFlight(trace[i].queue.rows, repository, number)
    ensures var rows, verdicts := trace[i].queue.rows, VerdictsOf(trace[i].queue, repository, number);
            && |verdicts| <= MAX_REVIEW_ROUNDS
            && (forall k :: 0 <= k < |verdicts| ==>
                  verdicts[k] < |rows| && Judges(rows[verdicts[k]], repository, number)
                  && rows[verdicts[k]].review.value.round == k + 1)
            && (forall j :: 0 <= j < |rows| && Judges(rows[j], repository, number) ==> j in verdicts)
  {
    hide GateRun;
    GateRunHolds(trace, steps, i);
    assert BudgetOk(trace[i].queue, trace[i].pending, repository, number);
  }

  // ----- what a decision rests on ---------------------------------------------------------------------

  lemma BlockSpelling(rows: seq<Row>, repository: string, url: PullUrl, other: PullUrl, head: string, latest: nat)
    requires other.number == url.number && latest < |rows| && rows[latest].review.Some?
    ensures var one, two := AfterBlock(rows, repository, url, head, latest),
      AfterBlock(rows, repository, other, head, latest);
            && !one.MintReview? && !two.MintReview?
            && (one.MintFix? <==> two.MintFix?) && (one.MintFix? ==> two.fix == one.fix.(url := other))
            && (!one.MintFix? ==> one == two)
  {
  }

  /**
   * The decision does not look at how the URL is spelled: two spellings of one
   * pull request lead to the same round or fix.
   */
  lemma SpellingDoesNotMatter(rows: seq<Row>, repository: string, url: PullUrl, other: PullUrl, head: string)
    requires other.number == url.number
    ensures var one, two := Decide(rows, repository, url, head), Decide(rows, repository, other, head);
            && (one.MintFix? <==> two.MintFix?) && (one.MintFix? ==> two.fix == one.fix.(url := other))
            && (one.MintReview? <==> two.MintReview?) && (one.MintReview? ==> two.review == one.review.(url := other))
            && (!one.MintFix? && !one.MintReview? ==> one == two)
  {
    var completed := CompletedReviews(rows, repository, url.number, |rows|);
    DecisionSpelling(rows, repository, url, other, head, LatestOf(rows, completed), |completed|);
  }

  lemma DecisionSpelling(rows: seq<Row>, repository: string, url: PullUrl, other: PullUrl, head: string,
    latest: Option<nat>, count: nat)
    requires other.number == url.number && (latest.Some? ==> latest.value < |rows| && rows[latest.value].review.Some?)
    ensures var one, two := DecideFrom(rows, repository, url, head, latest, count),
      DecideFrom(rows, repository, other, head, latest, count);
            && (one.MintFix? <==> two.MintFix?) && (one.MintFix? ==> two.fix == one.fix.(url := other))
            && (one.MintReview? <==> two.MintReview?) && (one.MintReview? ==> two.review == one.review.(url := other))
            && (!one.MintFix? && !one.MintReview? ==> one == two)
  {
    if latest.Some? {
      BlockSpelling(rows, repository, url, other, head, latest.value);
    }
  }

  /** Why the budget excludes requeues: requeueing blocked gate work leaves one in flight only if none was. */
  lemma RequeueKeepsOneInFlightIff(s: State, pending: Option<Plan>, id: nat, actor: Principal, reason: string,
    seen: Option<Precondition>, repository: string, number: nat)
    requires BudgetOk(s, pending, repository, number) && id < |s.rows| && GateItem(s.rows[id], repository, number)
    requires Requeue(s, id, actor, reason, seen).Accepted?
    ensures OneInFlight(Requeue(s, id, actor, reason, seen).value.rows, repository, number) <==>
      Quiescent(s.rows, repository, number)
  {
    var verdicts := VerdictsOf(s, repository, number);
    assert GateRow(s.rows, verdicts, id, repository, number);
    RequeuedFlight(s.rows, id, Requeue(s, id, actor, reason, seen).value.rows[id], repository, number);
  }

  /** Why it excludes deferrals: gate work approved again leaves one in flight only if none was. */
  lemma ReapprovalKeepsOneInFlightIff(s: State, id: nat, actor: Principal, seen: Option<Precondition>,
    repository: string, number: nat)
    requires id < |s.rows| && GateItem(s.rows[id], repository, number) && Approve(s, id, actor, seen).Accepted?
    ensures OneInFlight(Approve(s, id, actor, seen).value.rows, repository, number) <==>
              Quiescent(s.rows, repository, number)
  {
    RequeuedFlight(s.rows, id, Approve(s, id, actor, seen).value.rows[id], repository, number);
  }

  lemma RequeuedFlight(rows: seq<Row>, id: nat, next: Row, repository: string, number: nat)
    requires id < |rows| && GateItem(next, repository, number) && InFlight(next) && !InFlight(rows[id])
    ensures OneInFlight(rows[id := next], repository, number) <==> Quiescent(rows, repository, number)
  {
    var after := rows[id := next];
    if OneInFlight(after, repository, number) {
      forall i | 0 <= i < |rows| && GateItem(rows[i], repository, number)
        ensures !InFlight(rows[i])
      {
        if i != id {
          var first, second := if i < id then i else id, if i < id then id else i;
          assert !(InFlight(after[first]) && InFlight(after[second]));
        }
      }
    }
  }

  /**
   * Why the budget excludes renames while a plan is pending: the pull
   * request's items move to the new name, so under the old one the plan still
   * fits only if it is a first review.
   */
  lemma RenameKeepsPlanIff(s: State, plan: Plan, to: string, actor: Principal)
    requires Rename(s, plan.repository, to, actor).Accepted?
    requires plan.root.kind == REVIEW_KIND || plan.root.kind == REVIEW_FIX_KIND
    ensures var t, number := Rename(s, plan.repository, to, actor).value, plan.review.url.number;
            BudgetOk(t, Some(plan), plan.repository, number) <==>
              plan.root.kind == REVIEW_KIND && plan.review.round == 1
  {
    var t := Rename(s, plan.repository, to, actor).value;
    forall i | 0 <= i < |t.rows|
      ensures t.rows[i].repository != plan.repository
    {
      assert Lower(plan.repository) != Lower(to);
    }
    NoVerdicts(t.ledger, t.rows, plan.repository, plan.review.url.number);
    assert |REVIEW_KIND| != |REVIEW_FIX_KIND|;
  }
}
