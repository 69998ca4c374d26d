/** How often one pull request is fixed: two rounds, once per spelling of its URL. */
module FixBudget {
  import opened WorkTypes
  import opened QueueModel
  import opened QueueInvariant
  import opened ReviewGate
  import opened ReviewBudget

  // ----- the bound -----------------------------------------------------------------------

  /** The fixes ever created for the pull request. */
  function AllFixes(rows: seq<Row>, repository: string, number: nat): set<nat> {
    set i | 0 <= i < |rows| && FixItem(rows[i], repository, number)
  }

  /** The ways the records of its fixes spell its URL. */
  function Spellings(rows: seq<Row>, repository: string, number: nat): set<PullUrl> {
    set i | i in AllFixes(rows, repository, number) :: rows[i].review.value.url
  }

  /** The fixes of the pull request whose record spells its URL this way. */
  function FixesSpelled(rows: seq<Row>, repository: string, url: PullUrl): set<nat> {
    set i | 0 <= i < |rows| && FixItem(rows[i], repository, url.number) && rows[i].review.value.url == url
  }

  /** One spelling of the URL gets at most one fix per round, and none in the last. */
  lemma FixRoundsDiffer(s: State, pending: Option<Plan>, repository: string, url: PullUrl, i: nat, j: nat)
    requires RefsOk(s) && BudgetOk(s, pending, repository, url.number)
    requires i in FixesSpelled(s.rows, repository, url) && j in FixesSpelled(s.rows, repository, url)
    ensures 1 <= s.rows[i].review.value.round < MAX_REVIEW_ROUNDS
    ensures i != j ==> s.rows[i].review.value.round != s.rows[j].review.value.round
  {
    var verdicts := VerdictsOf(s, repository, url.number);
    assert GateRow(s.rows, verdicts, i, repository, url.number) && GateRow(s.rows, verdicts, j, repository, url.number);
    if i != j {
      assert s.rows[i].repository == s.rows[j].repository;
      assert s.rows[i].def.sourceRef != s.rows[j].def.sourceRef;
    }
  }

  /** The records lie in the rounds before the last, and no two of a round spell the URL the same way. */
  predicate OncePerRound(rows: seq<Row>, fixes: set<nat>)
    requires forall a :: a in fixes ==> a < |rows| && rows[a].review.Some?
  {
    && (forall a :: a in fixes ==> 1 <= rows[a].review.value.round < MAX_REVIEW_ROUNDS)
    && (forall a, b :: a in fixes && b in fixes && a != b && rows[a].review.value.url == rows[b].review.value.url ==>
          rows[a].review.value.round != rows[b].review.value.round)
  }

  /** Two rounds leave room for two items. */
  lemma OnePerRound(items: set<nat>, round: map<nat, int>)
    requires forall a :: a in items ==> a in round && 1 <= round[a] <= 2
    requires forall a, b :: a in items && b in items && a != b ==> round[a] != round[b]
    ensures |items| <= 2
  {
    if a :| a in items {
      var rest := items - {a};
      assert |items| == |rest| + 1;
      if b :| b in rest {
        forall c | c in rest - {b} ensures false {
        }
        assert items == {a, b};
      } else {
        assert rest == {};
      }
    }
  }

  lemma TwoPerSpelling(s: State, pending: Option<Plan>, repository: string, url: PullUrl)
    requires RefsOk(s) && BudgetOk(s, pending, repository, url.number)
    ensures |FixesSpelled(s.rows, repository, url)| <= 2
  {
    var fixes := FixesSpelled(s.rows, repository, url);
    forall a, b | a in fixes && b in fixes
      ensures 1 <= s.rows[a].review.value.round <= 2
      ensures a != b ==> s.rows[a].review.value.round != s.rows[b].review.value.round
    {
      FixRoundsDiffer(s, pending, repository, url, a, b);
    }
    OnePerRound(fixes, map a | a in fixes :: s.rows[a].review.value.round);
  }

  /** At most two fixes are ever created for a pull request under one spelling of its URL. */
  lemma AtMostTwoFixes(trace: seq<Gate>, steps: seq<GateStep>, i: nat, repository: string, url: PullUrl)
    requires GateRun(trace, steps) && i < |trace|
    ensures |FixesSpelled(trace[i].queue.rows, repository, url)| <= MAX_REVIEW_ROUNDS - 1
  {
    hide GateRun;
    GateRunHolds(trace, steps, i);
    assert BudgetOk(trace[i].queue, trace[i].pending, repository, url.number);
    TwoPerSpelling(trace[i].queue, trace[i].pending, repository, url);
  }

  /** The fixes that spell the URL in one of the given ways. */
  function FixesSpelledIn(rows: seq<Row>, repository: string, number: nat, urls: set<PullUrl>): set<nat> {
    set i | i in AllFixes(rows, repository, number) && rows[i].review.value.url in urls
  }

  lemma {:induction false} TwoForEach(s: State, pending: Option<Plan>, repository: string, number: nat,
    urls: set<PullUrl>)
    requires RefsOk(s) && BudgetOk(s, pending, repository, number)
    requires forall url :: url in urls ==> url.number == number
    ensures |FixesSpelledIn(s.rows, repository, number, urls)| <= 2 * |urls|
  {
    if url :| url in urls {
      var rest := urls - {url};
      TwoForEach(s, pending, repository, number, rest);
      TwoPerSpelling(s, pending, repository, url);
      assert FixesSpelledIn(s.rows, repository, number, urls)
          == FixesSpelledIn(s.rows, repository, number, rest) + FixesSpelled(s.rows, repository, url);
    } else {
      assert FixesSpelledIn(s.rows, repository, number, urls) == {};
    }
  }

  /**
   * In every run of the gate, the fixes ever created for a pull request lie in
   * rounds 1 and 2, no two of a round spell its URL the same way, and there
   * are at most two for each way its URL was spelled.
   */
  lemma AtMostTwoFixesPerSpelling(trace: seq<Gate>, steps: seq<GateStep>, i: nat, repository: string, number: nat)
    requires GateRun(trace, steps) && i < |trace|
    ensures var rows := trace[i].queue.rows;
            && OncePerRound(rows, AllFixes(rows, repository, number))
            && |AllFixes(rows, repository, number)| <= (MAX_REVIEW_ROUNDS - 1) * |Spellings(rows, repository, number)|
  {
    hide GateRun, Inv, OncePerRound;
    GateRunHolds(trace, steps, i);
    InvHasRefs(trace[i].queue);
    assert BudgetOk(trace[i].queue, trace[i].pending, repository, number);
    FixesOncePerRound(trace[i].queue, trace[i].pending, repository, number);
    TwoForEach(trace[i].queue, trace[i].pending, repository, number,
      Spellings(trace[i].queue.rows, repository, number));
    EveryFixIsSpelled(trace[i].queue.rows, repository, number);
  }

  lemma InvHasRefs(s: State)
    requires Inv(s)
    ensures RefsOk(s)
  {
  }

  lemma EveryFixIsSpelled(rows: seq<Row>, repository: string, number: nat)
    ensures FixesSpelledIn(rows, repository, number, Spellings(rows, repository, number)) ==
              AllFixes(rows, repository, number)
  {
  }

  lemma FixesOncePerRound(s: State, pending: Option<Plan>, repository: string, number: nat)
    requires RefsOk(s) && BudgetOk(s, pending, repository, number)
    ensures OncePerRound(s.rows, AllFixes(s.rows, repository, number))
  {
    hide RefsOk, BudgetOk;
    var rows := s.rows;
    forall a, b | a in AllFixes(rows, repository, number) && b in AllFixes(rows, repository, number)
                  && rows[a].review.value.url == rows[b].review.value.url
      ensures 1 <= rows[a].review.value.round < MAX_REVIEW_ROUNDS
      ensures a != b ==> rows[a].review.value.round != rows[b].review.value.round
    {
      var url := rows[a].review.value.url;
      assert a in FixesSpelled(rows, repository, url) && b in FixesSpelled(rows, repository, url);
      FixRoundsDiffer(s, pending, repository, url, a, b);
    }
  }

  // ----- when a pending fix is created -------------------------------------------------------

  /** Some fix of the plan's round spells the URL as the plan does. */
  predicate SpelledInRound(rows: seq<Row>, plan: Plan) {
    exists j :: 0 <= j < |rows| && FixItem(rows[j], plan.repository, plan.review.url.number)
      && rows[j].review.value.round == plan.review.round && rows[j].review.value.url == plan.review.url
  }

  /** Something that is not a fix of the pull request carries the plan's reference. */
  predicate CarriedElsewhere(rows: seq<Row>, plan: Plan) {
    exists j :: 0 <= j < |rows| && rows[j].repository == plan.repository && rows[j].def.sourceRef == Some(plan.ref)
      && !FixItem(rows[j], plan.repository, plan.review.url.number)
  }

  /** Two records that address verdicts of their rounds share a head exactly when they share a round. */
  lemma SameHeadSameRound(rows: seq<Row>, verdicts: seq<nat>, one: Review, two: Review)
    requires Addresses(rows, verdicts, one) && Addresses(rows, verdicts, two) && Moving(Heads(rows, verdicts))
    ensures one.headSha == two.headSha <==> one.round == two.round
  {
    if one.round != two.round {
      var heads := Heads(rows, verdicts);
      assert heads[0] == HeadAt(rows, verdicts[0]) && heads[1] == HeadAt(rows, verdicts[1]) && heads[0] != heads[1];
    }
  }

  lemma TakenMeans(s: State, plan: Plan)
    requires BudgetOk(s, Some(plan), plan.repository, plan.review.url.number) && plan.root.kind == REVIEW_FIX_KIND
    ensures SourceRefExists(s, plan.repository, plan.ref) <==>
              SpelledInRound(s.rows, plan) || CarriedElsewhere(s.rows, plan)
  {
    var number := plan.review.url.number;
    var verdicts := VerdictsOf(s, plan.repository, number);
    assert PlanOk(s.rows, verdicts, plan, plan.repository, number);
    forall j | 0 <= j < |s.rows| && FixItem(s.rows[j], plan.repository, number)
      ensures s.rows[j].def.sourceRef == Some(plan.ref) <==>
                s.rows[j].review.value.round == plan.review.round && s.rows[j].review.value.url == plan.review.url
    {
      assert GateRow(s.rows, verdicts, j, plan.repository, number);
      SameHeadSameRound(s.rows, verdicts, s.rows[j].review.value, plan.review);
    }
  }

  lemma EnqueueAddsFix(s: State, plan: Plan)
    requires EnqueueReview(s, plan.repository, plan.root, plan.ref, plan.review).Accepted?
      && plan.root.kind == REVIEW_FIX_KIND
    ensures var t := EnqueueReview(s, plan.repository, plan.root, plan.ref, plan.review).value;
            var number := plan.review.url.number;
            AllFixes(t.rows, plan.repository, number) ==
              if SourceRefExists(s, plan.repository, plan.ref) then AllFixes(s.rows, plan.repository, number)
              else AllFixes(s.rows, plan.repository, number) + {|s.rows|}
  {
    var t := EnqueueReview(s, plan.repository, plan.root, plan.ref, plan.review).value;
    if !SourceRefExists(s, plan.repository, plan.ref) {
      assert |t.rows| == |s.rows| + 1;
      MintAddsPlan(s, plan, t);
    }
  }

  /**
   * What keeps a pending fix from being created once more is its source
   * reference, and that carries the URL as spelled: an enqueue the store
   * accepts adds a fix exactly when every fix of that round so far spells the
   * URL differently and nothing but fixes carries the reference.
   */
  lemma FixAddedIff(trace: seq<Gate>, steps: seq<GateStep>, i: nat)
    requires GateRun(trace, steps) && i < |trace|
    requires trace[i].pending.Some? && trace[i].pending.value.root.kind == REVIEW_FIX_KIND
    requires var p := trace[i].pending.value;
             EnqueueReview(trace[i].queue, p.repository, p.root, p.ref, p.review).Accepted?
    ensures var s, p := trace[i].queue, trace[i].pending.value;
            var t := EnqueueReview(s, p.repository, p.root, p.ref, p.review).value;
            var number := p.review.url.number;
            AllFixes(t.rows, p.repository, number) ==
              if SpelledInRound(s.rows, p) || CarriedElsewhere(s.rows, p) then AllFixes(s.rows, p.repository, number)
              else AllFixes(s.rows, p.repository, number) + {|s.rows|}
  {
    hide GateRun;
    GateRunHolds(trace, steps, i);
    var s, p := trace[i].queue, trace[i].pending.value;
    assert BudgetOk(s, Some(p), p.repository, p.review.url.number);
    TakenMeans(s, p);
    EnqueueAddsFix(s, p);
  }
}
