/** An item's attempts: one per lease, read from a bounded slice of its ledger. */
module Attempts {
  import opened WorkTypes
  import opened QueueModel
  import opened QueueWrites
  import opened LedgerReplay
  import opened QueueInvariant

  const MAX_ITEM_ATTEMPTS := 10

  datatype Outcome = WasCompleted | WasBlocked | WasReleased | WasExpired

  datatype Ending = Ending(outcome: Outcome, at: int, endedBy: Principal)

  datatype Attempt = Attempt(sequence: nat, claimedAt: int, worker: Principal, ending: Option<Ending>)

  /** How an end event closes the open attempt; an expiry ended when the lease did. */
  function EndingOf(e: Event): Ending {
    match e.body
    case WorkCompleted(_) => Ending(WasCompleted, e.at, e.actor)
    case WorkBlocked(_) => Ending(WasBlocked, e.at, e.actor)
    case LeaseExpired(_, expiredAt) => Ending(WasExpired, expiredAt, e.actor)
    case _ => Ending(WasReleased, e.at, e.actor)
  }

  function Opened(e: Event): Attempt {
    Attempt(e.sequence, e.at, e.actor, None)
  }

  /** One lifecycle event read into the attempts so far. */
  function ReadEvent(attempts: seq<Attempt>, e: Event): seq<Attempt> {
    if e.body.WorkClaimed? then attempts + [Opened(e)]
    else if attempts == [] || attempts[|attempts| - 1].ending.Some? then attempts
    else attempts[|attempts| - 1 := attempts[|attempts| - 1].(ending := Some(EndingOf(e)))]
  }

  function ReadEvents(events: seq<Event>): seq<Attempt> {
    if events == [] then []
    else ReadEvent(ReadEvents(events[..|events| - 1]), events[|events| - 1])
  }

  function Lifecycle(h: seq<Event>): seq<Event> {
    if h == [] then []
    else Lifecycle(h[..|h| - 1]) + if h[|h| - 1].body.Lifecycle() then [h[|h| - 1]] else []
  }

  function Newest<T>(s: seq<T>, n: nat): seq<T> {
    if |s| <= n then s else s[|s| - n..]
  }

  /** An open newest attempt whose lease is over reads as expired, from the row and the clock. */
  function Repair(attempts: seq<Attempt>, row: Row, now: int): seq<Attempt> {
    if attempts == [] || attempts[|attempts| - 1].ending.Some? then attempts
    else if row.stored != Claimed || (row.lease.Some? && row.lease.value.expiresAt <= now) then
      attempts[|attempts| - 1 := attempts[|attempts| - 1].(
        ending := Some(Ending(WasExpired, if row.lease.Some? then row.lease.value.expiresAt else now, System)))]
    else attempts
  }

  /** The read over the whole ledger. */
  function FullRead(row: Row, h: seq<Event>, now: int): seq<Attempt> {
    Repair(ReadEvents(Lifecycle(h)), row, now)
  }

  /** The read the store does: only the newest `2 * limit + 1` lifecycle events. */
  function BoundedRead(row: Row, h: seq<Event>, now: int, limit: nat): seq<Attempt> {
    Newest(Repair(ReadEvents(Newest(Lifecycle(h), 2 * limit + 1)), row, now), limit)
  }

  // ----- the shape of a lifecycle ------------------------------------------------------

  /** Claims and ends in pairs, the last claim perhaps still open. */
  predicate TakesTurns(events: seq<Event>) {
    events != [] ==>
      && events[0].body.WorkClaimed?
      && (|events| > 1 ==> events[1].body.EndsLease() && TakesTurns(events[2..]))
  }

  predicate EndsOpen(events: seq<Event>) {
    events != [] && (|events| == 1 || EndsOpen(events[2..]))
  }

  lemma {:induction false} OneMoreTurn(events: seq<Event>, e: Event)
    requires TakesTurns(events)
    requires if EndsOpen(events) then e.body.EndsLease() else e.body.WorkClaimed?
    ensures TakesTurns(events + [e])
    ensures EndsOpen(events + [e]) <==> !EndsOpen(events)
  {
    if |events| > 1 {
      OneMoreTurn(events[2..], e);
      assert (events + [e])[2..] == events[2..] + [e];
    } else if |events| == 1 {
      assert (events + [e])[2..] == [];
    }
  }

  lemma {:induction false} LifecycleTakesTurns(h: seq<Event>)
    requires Alternates(h)
    ensures TakesTurns(Lifecycle(h))
    ensures OpenClaim(h) <==> EndsOpen(Lifecycle(h))
  {
    if h != [] {
      var before, e := h[..|h| - 1], h[|h| - 1];
      LifecycleTakesTurns(before);
      if e.body.Lifecycle() {
        OneMoreTurn(Lifecycle(before), e);
        assert Lifecycle(h) == Lifecycle(before) + [e];
      } else {
        assert Lifecycle(h) == Lifecycle(before);
      }
    }
  }

  /** A lease taken and ended, read as one attempt. */
  function Closed(claim: Event, end: Event): Attempt {
    Opened(claim).(ending := Some(EndingOf(end)))
  }

  lemma {:induction false} PairReadsFirst(claim: Event, end: Event, rest: seq<Event>)
    requires claim.body.WorkClaimed? && end.body.EndsLease() && TakesTurns(rest)
    ensures ReadEvents([claim, end] + rest) == [Closed(claim, end)] + ReadEvents(rest)
  {
    ReadsAfter([claim, end], rest);
    var one := [claim];
    assert one[..0] == [] && [claim, end][..1] == one;
    assert ReadEvents(one) == ReadEvent(ReadEvents([]), claim);
  }

  /** Events read after a closed prefix do not touch the prefix's attempts. */
  lemma {:induction false} ReadsAfter(prefix: seq<Event>, rest: seq<Event>)
    requires ReadEvents(prefix) != [] && ReadEvents(prefix)[|ReadEvents(prefix)| - 1].ending.Some?
    requires rest != [] ==> rest[0].body.WorkClaimed?
    ensures ReadEvents(prefix + rest) == ReadEvents(prefix) + ReadEvents(rest)
    ensures rest != [] ==> ReadEvents(rest) != []
    decreases |rest|
  {
    if rest == [] {
      assert prefix + rest == prefix;
    } else {
      var before, e := rest[..|rest| - 1], rest[|rest| - 1];
      ReadsAfter(prefix, before);
      assert (prefix + rest)[..|prefix + rest| - 1] == prefix + before;
      ReadAfterPrefix(ReadEvents(prefix), ReadEvents(before), e);
    }
  }

  lemma ReadAfterPrefix(done: seq<Attempt>, attempts: seq<Attempt>, e: Event)
    requires done != [] && done[|done| - 1].ending.Some?
    requires attempts == [] ==> e.body.WorkClaimed?
    ensures ReadEvent(done + attempts, e) == done + ReadEvent(attempts, e)
    ensures ReadEvent(attempts, e) != []
  {
    if attempts != [] {
      assert (done + attempts)[|done + attempts| - 1] == attempts[|attempts| - 1];
    }
  }

  lemma TurnsReadInPairs(events: seq<Event>)
    requires TakesTurns(events) && |events| > 1
    ensures ReadEvents(events) == [Closed(events[0], events[1])] + ReadEvents(events[2..])
    ensures ReadEvents(events[1..]) == ReadEvents(events[2..])
  {
    hide ReadEvents;
    assert events == [events[0], events[1]] + events[2..];
    PairReadsFirst(events[0], events[1], events[2..]);
    assert events[1..][1..] == events[2..];
    LeadingEndIsDropped(events[1..]);
  }

  /** An end event read before any claim is dropped. */
  lemma {:induction false} LeadingEndIsDropped(events: seq<Event>)
    requires events != [] && !events[0].body.WorkClaimed?
    ensures ReadEvents(events) == ReadEvents(events[1..])
  {
    if |events| == 1 {
      assert events[..0] == [] && events[1..] == [];
      assert ReadEvents(events) == ReadEvent(ReadEvents(events[..0]), events[0]);
    } else {
      LeadingEndIsDropped(events[..|events| - 1]);
      assert events[..|events| - 1][1..] == events[1..][..|events[1..]| - 1];
    }
  }

  lemma {:induction false} HowManyAttempts(events: seq<Event>)
    requires TakesTurns(events)
    ensures |events| <= 2 * |ReadEvents(events)|
    ensures EndsOpen(events) <==> ReadEvents(events) != [] && ReadEvents(events)[|ReadEvents(events)| - 1].ending.None?
  {
    if |events| > 1 {
      HowManyAttempts(events[2..]);
      TurnsReadInPairs(events);
    } else if |events| == 1 {
      assert events[..0] == [];
      assert ReadEvents(events) == ReadEvent(ReadEvents([]), events[0]);
    }
  }

  /** The newest `2 * limit + 1` events close the newest `limit` attempts. */
  lemma {:induction false} SliceReadsSameNewest(events: seq<Event>, limit: nat) returns (dropped: nat)
    requires TakesTurns(events) && limit >= 1
    ensures dropped <= |ReadEvents(events)|
    ensures ReadEvents(Newest(events, 2 * limit + 1)) == ReadEvents(events)[dropped..]
    ensures dropped == 0 || |ReadEvents(events)| - dropped >= limit
    decreases |events|
  {
    hide ReadEvents, ReadEvent, Closed, EndsOpen;
    if |events| <= 2 * limit + 1 {
      dropped := 0;
    } else {
      TurnsReadInPairs(events);
      HowManyAttempts(events[2..]);
      var n := 2 * limit + 1;
      if |events| == n + 1 {
        assert Newest(events, n) == events[1..];
        dropped := 1;
      } else {
        var later := SliceReadsSameNewest(events[2..], limit);
        assert events[|events| - n..] == events[2..][|events[2..]| - n..];
        dropped := later + 1;
        assert ReadEvents(events)[dropped..] == ReadEvents(events[2..])[later..];
      }
    }
  }

  /** Repairing and cutting a tail gives the tail of the repaired whole. */
  lemma RepairedTail(full: seq<Attempt>, pairs: nat, row: Row, now: int, limit: nat)
    requires pairs <= |full| && limit >= 1 && (pairs == 0 || |full| - pairs >= limit)
    ensures Newest(Repair(full[pairs..], row, now), limit) == Newest(Repair(full, row, now), limit)
  {
    var whole, tail := Repair(full, row, now), Repair(full[pairs..], row, now);
    assert |tail| == |whole| - pairs;
    if |full| > pairs {
      assert full[pairs..][|full| - pairs - 1] == full[|full| - 1];
    }
    assert tail == whole[pairs..];
  }

  // ----- what the bounded read means -----------------------------------------------------

  lemma BoundedIsFull(row: Row, h: seq<Event>, now: int, limit: nat)
    requires Alternates(h) && 1 <= limit
    ensures BoundedRead(row, h, now, limit) == Newest(FullRead(row, h, now), limit)
  {
    LifecycleTakesTurns(h);
    var dropped := SliceReadsSameNewest(Lifecycle(h), limit);
    RepairedTail(ReadEvents(Lifecycle(h)), dropped, row, now, limit);
  }

  /** The bounded read gives the last `limit` attempts of the whole ledger. */
  lemma BoundedReadIsFullRead(trace: seq<State>, ops: seq<Op>, i: nat, id: nat, limit: nat)
    requires Run(trace, ops) && i < |trace| && id < |trace[i].rows| && 1 <= limit
    ensures var s := trace[i];
            BoundedRead(s.rows[id], History(s, id), s.clock, limit)
              == Newest(FullRead(s.rows[id], History(s, id), s.clock), limit)
  {
    RunItem(trace, ops, i, id);
    BoundedIsFull(trace[i].rows[id], History(trace[i], id), trace[i].clock, limit);
  }

  lemma OpenClaimIsOpenAttempt(h: seq<Event>)
    requires Alternates(h)
    ensures var attempts := ReadEvents(Lifecycle(h));
            OpenClaim(h) <==> attempts != [] && attempts[|attempts| - 1].ending.None?
  {
    LifecycleTakesTurns(h);
    HowManyAttempts(Lifecycle(h));
  }

  /** In a reachable state an open newest attempt is a claimed item: the other repair never applies. */
  lemma OpenAttemptIsClaimed(trace: seq<State>, ops: seq<Op>, i: nat, id: nat)
    requires Run(trace, ops) && i < |trace| && id < |trace[i].rows|
    ensures var attempts := ReadEvents(Lifecycle(History(trace[i], id)));
            trace[i].rows[id].stored == Claimed <==>
              attempts != [] && attempts[|attempts| - 1].ending.None?
  {
    RunItem(trace, ops, i, id);
    OpenClaimIsOpenAttempt(History(trace[i], id));
  }

  lemma LifecycleOn(h: seq<Event>, e: Event)
    ensures Lifecycle(h + [e]) == Lifecycle(h) + if e.body.Lifecycle() then [e] else []
    ensures e.body.Lifecycle() ==> ReadEvents(Lifecycle(h + [e])) == ReadEvent(ReadEvents(Lifecycle(h)), e)
  {
    Snoc(h, e);
    Snoc(Lifecycle(h), e);
  }

  /** Striking an open attempt's lapsed lease and claiming again, read event by event. */
  lemma ReclaimReads(h: seq<Event>, strike: Event, claim: Event, row: Row, now: int)
    requires ReadEvents(Lifecycle(h)) != []
    requires ReadEvents(Lifecycle(h))[|ReadEvents(Lifecycle(h))| - 1].ending.None?
    requires Lapsed(row, now) && strike.actor == System
    requires strike.body == LeaseExpired(row.lease.value.owner, row.lease.value.expiresAt) && claim.body.WorkClaimed?
    ensures ReadEvents(Lifecycle(h + [strike] + [claim])) == FullRead(row, h, now) + [Opened(claim)]
  {
    LifecycleOn(h, strike);
    LifecycleOn(h + [strike], claim);
  }

  /**
   * The expiry an observer reads from the clock is what the ledger says once
   * the lapsed lease is reclaimed: the reclaim only adds its own attempt.
   */
  lemma DerivedExpiryAgreesWithReclaim(trace: seq<State>, ops: seq<Op>, i: nat, id: nat)
    requires Run(trace, ops) && i < |ops| && id < |trace[i].rows| && Lapsed(trace[i].rows[id], trace[i].clock)
    requires ops[i].OpClaim? && ops[i].choice == Some(id) && Perform(trace[i], ops[i]).Accepted?
    ensures var s, t := trace[i], trace[i + 1];
            && t.ledger != []
            && ReadEvents(Lifecycle(History(t, id)))
                 == FullRead(s.rows[id], History(s, id), s.clock) + [Opened(t.ledger[|t.ledger| - 1])]
  {
    hide Complete;
    OpenAttemptIsClaimed(trace, ops, i, id);
    var s, t := trace[i], trace[i + 1];
    assert StepAt(trace, ops, i);
    var seconds := LeaseSeconds(ops[i].q.leaseSeconds).value;
    var struck := Strike(s, id);
    assert t == Take(struck, id, ops[i].q.worker, seconds);
    var strike, claim := struck.ledger[|s.ledger|], t.ledger[|struck.ledger|];
    HistoryAfter(s, struck, strike, id);
    HistoryAfter(struck, t, claim, id);
    ReclaimReads(History(s, id), strike, claim, s.rows[id], s.clock);
  }
}
