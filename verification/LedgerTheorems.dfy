/** What the ledger of every run tells about its rows, and what it does not. */
module LedgerTheorems {
  import opened WorkTypes
  import opened QueueModel
  import opened QueueWrites
  import opened LedgerReplay
  import opened QueueInvariant
  import opened SampleRuns

  /**
   * In every reachable state, replaying an item's events gives its row; its
   * claims and lease ends alternate, and the last claim is open exactly while
   * the row is claimed.
   */
  lemma LedgerReplaysEveryRow(trace: seq<State>, ops: seq<Op>, i: nat, id: nat)
    requires Run(trace, ops) && i < |trace| && id < |trace[i].rows|
    ensures var row, h := trace[i].rows[id], History(trace[i], id);
            && Replay(CreatedPriority(h, row.priority), h) == ViewOf(row)
            && Alternates(h)
            && (OpenClaim(h) <==> row.stored == Claimed)
  {
    RunItem(trace, ops, i, id);
  }

  /** The priority the replay starts from is the one the row was created with, however often it changed since. */
  lemma ReplayStartsAtCreatedPriority(trace: seq<State>, ops: seq<Op>, born: nat, i: nat, id: nat)
    requires Run(trace, ops) && born <= i < |trace| && id < |trace[born].rows|
    requires |History(trace[born], id)| == 1
    ensures id < |trace[i].rows|
    ensures CreatedPriority(History(trace[i], id), trace[i].rows[id].priority) == trace[born].rows[id].priority
  {
    hide Run;
    RunKeeps(trace, ops, born, i);
    var first := History(trace[born], id);
    assert ItemOk(trace[born].rows[id], first, trace[born].clock);
    assert first[1..] == [];
    assert CreatedPriority(first, trace[born].rows[id].priority) == trace[born].rows[id].priority;
  }

  // ----- block results ---------------------------------------------------------------

  /** At some point of its history the item was cancelled while it stood blocked. */
  ghost predicate CancelledWhileBlocked(h: seq<Event>) {
    exists k :: 0 <= k < |h| && h[k].body.WorkCancelled? && StandsOn(h[..k]).Some?
  }

  lemma {:induction false} OverwrittenIff(h: seq<Event>)
    ensures Overwritten(h) != [] <==> CancelledWhileBlocked(h)
  {
    if h != [] {
      var before, last := h[..|h| - 1], |h| - 1;
      OverwrittenIff(before);
      if CancelledWhileBlocked(before) {
        var k :| 0 <= k < |before| && before[k].body.WorkCancelled? && StandsOn(before[..k]).Some?;
        assert before[..k] == h[..k] && before[k] == h[k];
      }
      if CancelledWhileBlocked(h) {
        var k :| 0 <= k < |h| && h[k].body.WorkCancelled? && StandsOn(h[..k]).Some?;
        if k < last {
          assert before[..k] == h[..k] && before[k] == h[k];
        }
      }
    }
  }

  /**
   * The row carries the result of every block its item ever had, in order,
   * exactly when the item was not cancelled out of a block; the cancellation's
   * own result takes that one's place.
   */
  lemma BlocksCarriedIff(trace: seq<State>, ops: seq<Op>, i: nat, id: nat)
    requires Run(trace, ops) && i < |trace| && id < |trace[i].rows|
    ensures var h := History(trace[i], id);
            CarriedBlocks(trace[i].rows[id]) == BlockResults(h) <==> !CancelledWhileBlocked(h)
  {
    RunItem(trace, ops, i, id);
    var h := History(trace[i], id);
    OverwrittenIff(h);
    assert |CarriedBlocks(trace[i].rows[id]) + Overwritten(h)| == |BlockResults(h)|;
  }

  /** One call decides it: a cancellation or retirement keeps what the row carries iff it was not blocked. */
  lemma CancellationOverwritesIff(s: State, op: Op)
    requires Inv(s) && (op.OpCancel? || op.OpRetire?) && Perform(s, op).Accepted?
    ensures var before, after := s.rows[op.id], Perform(s, op).value.rows[op.id];
            CarriedBlocks(after) == CarriedBlocks(before) <==> before.stored != Blocked
  {
    hide Complete, LedgerOk;
    var before := s.rows[op.id];
    if before.stored == Blocked {
      assert |CarriedBlocks(before)| == |before.previous| + 1;
    }
  }

  const STUCK: string := "stuck"

  lemma BlockedOnce() returns (s: State)
    ensures Reached(s) && |s.rows| == 1 && s.rows[0].stored == Blocked
    ensures s.rows[0].previous == [] && s.rows[0].result == Some(ReasonResult(STUCK))
  {
    hide Reached, Step;
    BriefStated();
    var claimed := SeedClaimed("fix");
    assert !Blank(STUCK) by { assert STUCK[0] == 's'; }
    BlockHeld(claimed, 0, 0, STUCK);
    s := BlockWork(claimed, 0, 0, WORKER, STUCK).value;
    ReachedOn(claimed, OpBlock(0, 0, WORKER, STUCK), s);
  }

  /** A run that loses a block result: the item is claimed, blocks, and is cancelled. */
  lemma BlockResultCanBeLost()
    ensures exists s: State :: Reached(s) && |s.rows| == 1
              && BlockResults(History(s, 0)) == [ReasonResult(STUCK)] && CarriedBlocks(s.rows[0]) == []
  {
    hide Complete;
    var blocked := BlockedOnce();
    StandingBlocks(blocked);
    assert !Blank(STUCK) by { assert STUCK[0] == 's'; }
    var s := Cancel(blocked, 0, OPERATOR, STUCK, None).value;
    ReachedOn(blocked, OpCancel(0, OPERATOR, STUCK, None), s);
    HistoryAfter(blocked, s, s.ledger[|blocked.ledger|], 0);
    Snoc(History(blocked, 0), s.ledger[|blocked.ledger|]);
  }

  lemma StandingBlocks(s: State)
    requires Reached(s) && |s.rows| == 1 && s.rows[0].stored == Blocked && s.rows[0].previous == []
    ensures s.rows[0].result.Some? && BlockResults(History(s, 0)) == [s.rows[0].result.value]
  {
    hide RunTo;
    ReachedHolds(s);
    assert ItemOk(s.rows[0], History(s, 0), s.clock);
  }

  // ----- admission -----------------------------------------------------------------------

  predicate Decision(e: Event) {
    e.body.WorkQueued? || e.body.WorkApproved? || e.body.WorkProposed? || e.body.WorkDeferred?
  }

  /** Event `d` admits, and no later event before `k` takes admission back. */
  predicate LastAdmission(h: seq<Event>, d: int, k: nat)
    requires k <= |h|
  {
    && 0 <= d < k
    && (h[d].body.WorkQueued? || h[d].body.WorkApproved?)
    && forall m :: d < m < k ==> !Decision(h[m])
  }

  lemma {:induction false} AdmittingMeans(h: seq<Event>, k: nat)
    requires k <= |h|
    ensures Admitting(h[..k]) <==> exists d :: LastAdmission(h, d, k)
  {
    if k > 0 {
      AdmittingMeans(h, k - 1);
      assert h[..k][..k - 1] == h[..k - 1];
      var e, j := h[k - 1], k - 1;
      if Decision(e) {
        assert Admitting(h[..k]) ==> LastAdmission(h, k - 1, k);
        assert !Admitting(h[..k]) ==> forall d :: !LastAdmission(h, d, k);
      } else {
        if d :| LastAdmission(h, d, k) {
          assert LastAdmission(h, d, j);
        }
        if d :| LastAdmission(h, d, j) {
          assert LastAdmission(h, d, k);
        }
      }
    }
  }

  lemma {:induction false} ClaimsFollowAdmission(h: seq<Event>, k: nat)
    requires ClaimsAdmitted(h) && k < |h| && h[k].body.WorkClaimed?
    ensures Admitting(h[..k])
  {
    var before := h[..|h| - 1];
    if k < |before| {
      ClaimsFollowAdmission(before, k);
      assert before[..k] == h[..k];
    }
  }

  /**
   * Every claim in every run is preceded by an admission of its item - a root's
   * creation as queued, or an approval - that no deferral undid.
   */
  lemma EveryClaimIsAdmitted(trace: seq<State>, ops: seq<Op>, i: nat, id: nat, k: nat)
    requires Run(trace, ops) && i < |trace| && id < |trace[i].rows|
    requires k < |History(trace[i], id)| && History(trace[i], id)[k].body.WorkClaimed?
    ensures exists d :: LastAdmission(History(trace[i], id), d, k)
  {
    RunItem(trace, ops, i, id);
    var h := History(trace[i], id);
    ClaimsFollowAdmission(h, k);
    AdmittingMeans(h, k);
  }
}
