/** What a repeating feeder's batch creates, told from the tables it starts on. */
module BatchRules {
  import opened WorkTypes
  import opened QueueModel
  import opened RootCreation
  import Cooldown

  // ----- the kinds at rest and at work ---------------------------------------------------

  /** Work neither completed nor cancelled belongs to a root of the kind. */
  predicate AtWork(rows: seq<Row>, repository: string, kind: string) {
    exists i :: 0 <= i < |rows| && rows[i].repository == repository
      && rows[i].stored != Completed && rows[i].stored != Cancelled
      && rows[i].def.rootId < |rows| && rows[rows[i].def.rootId].def.kind == kind
  }

  predicate IsRoot(rows: seq<Row>, repository: string, kind: string, i: nat) {
    i < |rows| && rows[i].repository == repository && rows[i].def.kind == kind && rows[i].def.parent.None?
  }

  /** The root completed, and nothing was ever proposed under it. */
  predicate CameToNothing(rows: seq<Row>, i: nat)
    requires i < |rows|
  {
    rows[i].stored == Completed && forall c :: 0 <= c < |rows| ==> rows[c].def.parent != Some(i)
  }

  predicate NothingSince(rows: seq<Row>, repository: string, kind: string, i: nat, n: nat)
    requires n <= |rows|
  {
    forall j :: i <= j < n && IsRoot(rows, repository, kind, j) ==> CameToNothing(rows, j)
  }

  /** The roots of the kind since the last that led to anything. */
  function Fruitless(rows: seq<Row>, repository: string, kind: string, n: nat): set<nat>
    requires n <= |rows|
  {
    set i: nat | i < n && IsRoot(rows, repository, kind, i) && NothingSince(rows, repository, kind, i, n)
  }

  lemma {:induction false} StreakCounts(rows: seq<Row>, repository: string, kind: string, n: nat)
    requires n <= |rows|
    ensures Streak(rows, repository, kind, n) == |Fruitless(rows, repository, kind, n)|
  {
    var whole := Fruitless(rows, repository, kind, n);
    if n == 0 {
      assert whole == {};
    } else {
      var before := Fruitless(rows, repository, kind, n - 1);
      StreakCounts(rows, repository, kind, n - 1);
      NoFindingMeans(rows, n - 1);
      if !IsRoot(rows, repository, kind, n - 1) {
        forall i: nat | i < n - 1
          ensures NothingSince(rows, repository, kind, i, n) <==> NothingSince(rows, repository, kind, i, n - 1)
        {
        }
        assert whole == before;
      } else if CameToNothing(rows, n - 1) {
        forall i: nat | i < n - 1
          ensures NothingSince(rows, repository, kind, i, n) <==> NothingSince(rows, repository, kind, i, n - 1)
        {
        }
        assert whole == before + {n - 1};
      } else {
        forall i: nat | i < n
          ensures !NothingSince(rows, repository, kind, i, n)
        {
        }
        assert whole == {};
      }
    }
  }

  lemma NoFindingMeans(rows: seq<Row>, i: nat)
    requires i < |rows|
    ensures NoFinding(rows, i) <==> CameToNothing(rows, i)
  {
  }

  predicate IsNewestRoot(rows: seq<Row>, repository: string, kind: string, i: nat) {
    IsRoot(rows, repository, kind, i) && forall j :: i < j < |rows| ==> !IsRoot(rows, repository, kind, j)
  }

  lemma {:induction false} NewestFound(rows: seq<Row>, repository: string, kind: string, n: nat)
    requires n <= |rows|
    ensures match NewestRoot(rows, repository, kind, n)
            case None => forall j :: 0 <= j < n ==> !IsRoot(rows, repository, kind, j)
            case Some(i) =>
              && i < n && IsRoot(rows, repository, kind, i)
              && forall j :: i < j < n ==> !IsRoot(rows, repository, kind, j)
  {
    if n > 0 { NewestFound(rows, repository, kind, n - 1); }
  }

  // ----- when a root was finished ----------------------------------------------------------

  predicate CompletedIn(ledger: seq<Event>, id: nat, k: nat) {
    k < |ledger| && ledger[k].item == id && ledger[k].body.WorkCompleted?
  }

  /** The last instant a completion of the item was recorded; of one never recorded, the row's last update. */
  ghost predicate FinishedAt(s: State, id: nat, at: int)
    requires id < |s.rows|
  {
    if exists k: nat :: CompletedIn(s.ledger, id, k) then
      && (exists k: nat :: CompletedIn(s.ledger, id, k) && s.ledger[k].at == at)
      && (forall k: nat :: CompletedIn(s.ledger, id, k) ==> s.ledger[k].at <= at)
    else
      at == s.rows[id].updatedAt
  }

  lemma {:induction false} LastCompletionMeans(ledger: seq<Event>, id: nat)
    ensures match LastCompletion(EventsOf(ledger, id))
            case None => forall k: nat :: !CompletedIn(ledger, id, k)
            case Some(at) =>
              && (exists k: nat :: CompletedIn(ledger, id, k) && ledger[k].at == at)
              && (forall k: nat :: CompletedIn(ledger, id, k) ==> ledger[k].at <= at)
  {
    if ledger != [] {
      var n := |ledger| - 1;
      var before, e := ledger[..n], ledger[n];
      LastCompletionMeans(before, id);
      forall k: nat
        ensures CompletedIn(ledger, id, k) <==>
                CompletedIn(before, id, k) || (k == n && e.item == id && e.body.WorkCompleted?)
      {
      }
      var h := EventsOf(before, id);
      if e.item == id {
        assert EventsOf(ledger, id) == h + [e] && (h + [e])[..|h|] == h;
        if LastCompletion(h).Some? {
          var k: nat :| CompletedIn(before, id, k) && before[k].at == LastCompletion(h).value;
          assert CompletedIn(ledger, id, k) && ledger[k].at == before[k].at;
        }
        if e.body.WorkCompleted? { assert CompletedIn(ledger, id, n); }
      } else {
        assert EventsOf(ledger, id) == h;
        if LastCompletion(h).Some? {
          var k: nat :| CompletedIn(before, id, k) && before[k].at == LastCompletion(h).value;
          assert CompletedIn(ledger, id, k) && ledger[k].at == before[k].at;
        }
      }
    }
  }

  lemma FinishedAtMeans(s: State, id: nat, at: int)
    requires id < |s.rows|
    ensures FinishedAt(s, id, at) <==> at == CompletedAt(s, id)
  {
    LastCompletionMeans(s.ledger, id);
  }

  // ----- cooling ------------------------------------------------------------------------------

  /** Seconds a kind rests: each fruitless root after the first doubles them, up to fourteen days. */
  function RestingTime(base: int, fruitless: nat): int {
    if fruitless <= 1 then base
    else
      var doubled := 2 * RestingTime(base, fruitless - 1);
      var capped := if doubled <= 1209600 then doubled else 1209600;
      if capped <= base then base else capped
  }

  lemma {:induction false} RestingTimeIsCooldown(base: int, n: nat)
    requires base >= 0
    ensures if base == 0 then RestingTime(base, n) >= 0 else RestingTime(base, n) == BackedOffCooldown(base, n)
  {
    if n > 1 {
      RestingTimeIsCooldown(base, n - 1);
      if base > 0 {
        Cooldown.CooldownIsCappedDoubling(base, n);
        Cooldown.CooldownIsCappedDoubling(base, n - 1);
        Cooldown.Doubled(base, n - 2);
        Cooldown.Pow2Grows(0, n - 2);
        Cooldown.Monotone(base, 1, Pow2(n - 2));
      }
    }
  }

  /** The kind's newest root came to nothing, and its resting time is not over. */
  ghost predicate Resting(s: State, repository: string, kind: string, base: int) {
    var fruitless := Fruitless(s.rows, repository, kind, |s.rows|);
    && base > 0 && fruitless != {}
    && exists newest: nat, at: int ::
         && IsNewestRoot(s.rows, repository, kind, newest)
         && FinishedAt(s, newest, at)
         && s.clock <= at + RestingTime(base, |fruitless|) * 1000
  }

  lemma RestingIff(s: State, repository: string, kind: string, base: int)
    requires base >= 0
    ensures Cooled(s, repository, kind, base) <==> Resting(s, repository, kind, base)
  {
    hide CompletedAt, FinishedAt, Fruitless, BackedOffCooldown, RestingTime;
    StreakCounts(s.rows, repository, kind, |s.rows|);
    NewestFound(s.rows, repository, kind, |s.rows|);
    var fruitless := Fruitless(s.rows, repository, kind, |s.rows|);
    RestingTimeIsCooldown(base, |fruitless|);
    BaseZeroNeverCools(|fruitless|);
    if base > 0 && fruitless != {} {
      BaseCools(base, |fruitless|);
      var newest := NewestRoot(s.rows, repository, kind, |s.rows|);
      if newest.Some? {
        FinishedAtMeans(s, newest.value, CompletedAt(s, newest.value));
        forall other: nat, at | IsNewestRoot(s.rows, repository, kind, other) && FinishedAt(s, other, at)
          ensures other == newest.value && at == CompletedAt(s, newest.value)
        {
          FinishedAtMeans(s, other, at);
        }
      }
    }
  }

  lemma BaseZeroNeverCools(n: nat)
    ensures BackedOffCooldown(0, n) == 0
  {
  }

  lemma BaseCools(base: int, n: nat)
    requires base > 0 && n >= 1
    ensures BackedOffCooldown(base, n) > 0
  {
    Cooldown.CooldownGrows(base, n);
  }

  // ----- the candidates that are due --------------------------------------------------------------

  function BaseOf(c: Candidate, override: Option<int>): int {
    match override
    case Some(seconds) => seconds
    case None => if c.cooldown.Some? then c.cooldown.value else 0
  }

  /** The kind is neither at work nor resting, and no earlier candidate of it was due. */
  ghost predicate Due(s: State, repository: string, candidates: seq<Candidate>, override: Option<int>, k: nat)
    requires k < |candidates|
    decreases k, 1
  {
    var kind := candidates[k].root.kind;
    && !AtWork(s.rows, repository, kind)
    && !DueBefore(s, repository, candidates, override, k, kind)
    && !Resting(s, repository, kind, BaseOf(candidates[k], override))
  }

  ghost predicate DueBefore(s: State, repository: string, candidates: seq<Candidate>, override: Option<int>, k: nat,
    kind: string)
    requires k <= |candidates|
    decreases k, 0
  {
    k > 0 && (DueBefore(s, repository, candidates, override, k - 1, kind)
              || (candidates[k - 1].root.kind == kind && Due(s, repository, candidates, override, k - 1)))
  }

  ghost function DueAmong(s: State, repository: string, candidates: seq<Candidate>, override: Option<int>,
    n: nat): nat
    requires n <= |candidates|
  {
    if n == 0 then 0
    else
      DueAmong(s, repository, candidates, override, n - 1)
        + if Due(s, repository, candidates, override, n - 1) then 1 else 0
  }

  /** What became of candidate `k`: created when due, else passed over for work under way, else resting. */
  ghost predicate FateOf(s: State, repository: string, candidates: seq<Candidate>, override: Option<int>, k: nat,
    fate: Fate)
    requires k < |candidates|
  {
    var kind := candidates[k].root.kind;
    if Due(s, repository, candidates, override, k) then
      fate == Created(|s.rows| + DueAmong(s, repository, candidates, override, k))
    else if AtWork(s.rows, repository, kind) || DueBefore(s, repository, candidates, override, k, kind) then
      fate == Skipped
    else fate == CooledDown
  }

  ghost predicate CandidateAllowed(s: State, repository: string, candidates: seq<Candidate>, override: Option<int>,
    k: nat)
    requires k < |candidates|
  {
    && Described(candidates[k].root, false) && candidates[k].root.predecessors.None?
    && (Due(s, repository, candidates, override, k) ==> Vouched(s, repository, candidates[k].root, true))
  }

  /** Candidate `k` is the admitted root of its place, with its event. */
  ghost predicate Planted(s: State, t: State, repository: string, candidates: seq<Candidate>, override: Option<int>,
    k: nat)
    requires k < |candidates|
  {
    var root, at := candidates[k].root, DueAmong(s, repository, candidates, override, k);
    var id := |s.rows| + at;
    && id < |t.rows| && |s.ledger| + at < |t.ledger|
    && RootStored(t.rows[id], id, s.clock, repository, root, true, None, None, None)
    && t.ledger[|s.ledger| + at] == Event(|s.ledger| + at + 1, id, root.createdBy, s.clock, WorkQueued)
  }

  ghost predicate PlantedUpTo(s: State, t: State, repository: string, candidates: seq<Candidate>,
    override: Option<int>, n: nat)
    requires n <= |candidates|
  {
    && t == s.(rows := t.rows, ledger := t.ledger)
    && s.rows <= t.rows && |t.rows| == |s.rows| + DueAmong(s, repository, candidates, override, n)
    && s.ledger <= t.ledger && |t.ledger| == |s.ledger| + DueAmong(s, repository, candidates, override, n)
    && forall k :: 0 <= k < n && Due(s, repository, candidates, override, k) ==>
         Planted(s, t, repository, candidates, override, k)
  }

  ghost predicate FatesUpTo(s: State, fates: seq<Fate>, repository: string, candidates: seq<Candidate>,
    override: Option<int>, n: nat)
    requires n <= |candidates|
  {
    |fates| == n && forall k :: 0 <= k < n ==> FateOf(s, repository, candidates, override, k, fates[k])
  }

  ghost predicate WorkedUpTo(s: State, active: set<string>, repository: string, candidates: seq<Candidate>,
    override: Option<int>, n: nat)
    requires n <= |candidates|
  {
    forall kind :: kind in active <==>
                   AtWork(s.rows, repository, kind) || DueBefore(s, repository, candidates, override, n, kind)
  }

  ghost predicate BatchUpTo(s: State, b: Batch, repository: string, candidates: seq<Candidate>, override: Option<int>,
    n: nat)
    requires n <= |candidates|
  {
    && PlantedUpTo(s, b.state, repository, candidates, override, n)
    && FatesUpTo(s, b.fates, repository, candidates, override, n)
    && WorkedUpTo(s, b.active, repository, candidates, override, n)
  }

  lemma StillPlanted(s: State, b: State, c: State, repository: string, candidates: seq<Candidate>,
    override: Option<int>, k: nat)
    requires k < |candidates| && Planted(s, b, repository, candidates, override, k)
    requires b.rows <= c.rows && b.ledger <= c.ledger
    ensures Planted(s, c, repository, candidates, override, k)
  {
    hide RootStored, DueAmong;
  }

  lemma NowPlanted(s: State, b: State, c: State, repository: string, candidates: seq<Candidate>,
    override: Option<int>, n: nat)
    requires n < |candidates| && b == s.(rows := b.rows, ledger := b.ledger)
    requires |b.rows| == |s.rows| + DueAmong(s, repository, candidates, override, n)
    requires |b.ledger| == |s.ledger| + DueAmong(s, repository, candidates, override, n)
    requires RootCreated(b, repository, candidates[n].root, true, None, None, None, c)
    ensures Planted(s, c, repository, candidates, override, n)
  {
    hide RootStored, DueAmong;
  }

  lemma OnePlanted(s: State, b: State, c: State, repository: string, candidates: seq<Candidate>, override: Option<int>,
    n: nat)
    requires n < |candidates| && PlantedUpTo(s, b, repository, candidates, override, n)
    requires if Due(s, repository, candidates, override, n) then
               RootCreated(b, repository, candidates[n].root, true, None, None, None, c)
             else c == b
    ensures PlantedUpTo(s, c, repository, candidates, override, n + 1)
  {
    hide Due, RootStored, Planted;
    assert b.rows <= c.rows && b.ledger <= c.ledger;
    forall k | 0 <= k < n + 1 && Due(s, repository, candidates, override, k)
      ensures Planted(s, c, repository, candidates, override, k)
    {
      if k < n {
        StillPlanted(s, b, c, repository, candidates, override, k);
      } else {
        NowPlanted(s, b, c, repository, candidates, override, n);
      }
    }
  }

  lemma OneCandidate(s: State, b: Batch, repository: string, candidates: seq<Candidate>, override: Option<int>, n: nat)
    requires n < |candidates| && BatchUpTo(s, b, repository, candidates, override, n)
    requires BaseOf(candidates[n], override) >= 0
    ensures var r := BatchOne(s, b, repository, candidates[n], override);
            && (r.Accepted? <==> CandidateAllowed(s, repository, candidates, override, n))
            && (r.Accepted? ==> BatchUpTo(s, r.value, repository, candidates, override, n + 1))
  {
    hide RootProblem, Described, InsertRoot, Vouched, RootCreated, Cooled, Resting, AtWork, PlantedUpTo, DueAmong;
    var root := candidates[n].root;
    DescribedIff(root, false);
    RestingIff(s, repository, root.kind, BaseOf(candidates[n], override));
    SameAuthority(s, b.state, repository, candidates, override, n);
    if root.predecessors.None? {
      InsertRootCreates(b.state, repository, root, true, None, None, None, None);
      var r := BatchOne(s, b, repository, candidates[n], override);
      if r.Accepted? {
        OnePlanted(s, b.state, r.value.state, repository, candidates, override, n);
      }
    }
  }

  lemma SameAuthority(s: State, b: State, repository: string, candidates: seq<Candidate>, override: Option<int>, n: nat)
    requires n < |candidates| && PlantedUpTo(s, b, repository, candidates, override, n)
    ensures Vouched(b, repository, candidates[n].root, true) == Vouched(s, repository, candidates[n].root, true)
    ensures |b.rows| == |s.rows| + DueAmong(s, repository, candidates, override, n)
  {
  }

  lemma {:induction false} CandidatesFrom(s: State, b: Batch, repository: string, candidates: seq<Candidate>,
    override: Option<int>, n: nat)
    requires n <= |candidates| && BatchUpTo(s, b, repository, candidates, override, n)
    requires forall k :: 0 <= k < |candidates| ==> BaseOf(candidates[k], override) >= 0
    ensures var r := BatchFrom(s, b, repository, candidates[n..], override);
            && (r.Accepted? <==>
                  forall k :: n <= k < |candidates| ==> CandidateAllowed(s, repository, candidates, override, k))
            && (r.Accepted? ==> BatchUpTo(s, r.value, repository, candidates, override, |candidates|))
    decreases |candidates| - n
  {
    hide BatchUpTo, CandidateAllowed, BatchOne;
    if n < |candidates| {
      assert candidates[n..][0] == candidates[n] && candidates[n..][1..] == candidates[n + 1..];
      OneCandidate(s, b, repository, candidates, override, n);
      var next := BatchOne(s, b, repository, candidates[n], override);
      if next.Accepted? {
        CandidatesFrom(s, next.value, repository, candidates, override, n + 1);
      }
    }
  }

  predicate CooldownsFit(candidates: seq<Candidate>, override: Option<int>) {
    forall k :: 0 <= k < |candidates| ==> 0 <= BaseOf(candidates[k], override) <= 0x1F_FFFF_FFFF_FFFF
  }

  /**
   * A batch is taken whole exactly when its cooldowns are in range, the
   * repository is opted in, every candidate is described and waits for
   * nothing, and the policy lets in each that is due. Then exactly the due
   * candidates become admitted roots, in order, each with its event, and the
   * fates say which were passed over and which rest.
   */
  lemma BatchCreatesIff(s: State, repository: string, candidates: seq<Candidate>, override: Option<int>)
    ensures var r := EnqueueBatch(s, repository, candidates, override);
            && (r.Accepted? <==>
                  && CooldownsFit(candidates, override) && OptedIn(s, repository)
                  && forall k :: 0 <= k < |candidates| ==> CandidateAllowed(s, repository, candidates, override, k))
            && (r.Accepted? ==>
                  && PlantedUpTo(s, r.value.state, repository, candidates, override, |candidates|)
                  && FatesUpTo(s, r.value.fates, repository, candidates, override, |candidates|))
  {
    hide CandidateAllowed, Planted, FateOf, AtWork;
    forall k | 0 <= k < |candidates|
      ensures CooldownOf(candidates[k], override) == BaseOf(candidates[k], override)
    {
    }
    if CooldownsFit(candidates, override) {
      assert candidates[0..] == candidates;
      var b := Batch(s, ActiveRootKinds(s.rows, repository), []);
      StartsAtWork(s, repository, candidates, override);
      CandidatesFrom(s, b, repository, candidates, override, 0);
    }
  }

  lemma StartsAtWork(s: State, repository: string, candidates: seq<Candidate>, override: Option<int>)
    ensures WorkedUpTo(s, ActiveRootKinds(s.rows, repository), repository, candidates, override, 0)
  {
    forall kind
      ensures kind in ActiveRootKinds(s.rows, repository) <==> AtWork(s.rows, repository, kind)
    {
    }
  }
}
