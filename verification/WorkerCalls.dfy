/** What a worker may do under its lease, and what each call leaves of the item. */
module WorkerCalls {
  import opened WorkTypes
  import opened QueueModel
  import opened ClaimRules

  /** The item is claimed by this worker, under this token, and there is time left. */
  predicate HeldUnder(s: State, id: nat, token: nat, worker: Principal) {
    && (worker.Member? || worker.Worker?)
    && id < |s.rows|
    && s.rows[id].stored == Claimed
    && s.rows[id].lease.Some?
    && s.rows[id].lease.value.owner == worker
    && s.rows[id].lease.value.token == token
    && s.clock < s.rows[id].lease.value.expiresAt
  }

  lemma HeldIff(s: State, id: nat, token: nat, worker: Principal)
    ensures LeaseRefusal(s, id, token, worker).None? <==> HeldUnder(s, id, token, worker)
  {
  }

  /** One item is changed, and one event says so. */
  ghost predicate Changed(s: State, id: nat, row: Row, body: EventBody, actor: Principal, t: State)
    requires id < |s.rows|
  {
    t == s.(rows := s.rows[id := row], ledger := s.ledger + [Event(|s.ledger| + 1, id, actor, s.clock, body)])
  }

  /** The item without its lease, at a new instant. */
  function Freed(row: Row, stored: Stored, now: int): Row {
    row.(stored := stored, lease := None, updatedAt := now)
  }

  /** A heartbeat under a lease of the worker gives it the seconds asked for, counted from now. */
  lemma HeartbeatExtendsIff(s: State, id: nat, token: nat, worker: Principal, seconds: Option<int>)
    ensures var r := Heartbeat(s, id, token, worker, seconds);
            && (r.Accepted? <==> HeldUnder(s, id, token, worker) && LeaseAsked(seconds))
            && (r.Accepted? ==>
                  var until := s.clock + LeaseLength(seconds) * 1000;
                  Changed(s, id, s.rows[id].(lease := Some(Lease(worker, token, until)), updatedAt := s.clock),
                    LeaseRenewed(until), worker, r.value))
  {
    HeldIff(s, id, token, worker);
  }

  /** A block under a lease of the worker needs a reason, and leaves it as the item's result. */
  lemma BlockStopsIff(s: State, id: nat, token: nat, worker: Principal, reason: string)
    ensures var r := BlockWork(s, id, token, worker, reason);
            && (r.Accepted? <==> HeldUnder(s, id, token, worker) && !Blank(reason))
            && (r.Accepted? ==>
                  Changed(s, id,
                    Freed(s.rows[id], Blocked, s.clock).(result := Some(WorkResult(reason, [], []))),
                    WorkBlocked(reason), worker, r.value))
  {
    HeldIff(s, id, token, worker);
  }

  /** A release under a lease of the worker returns the item to the queue as it was. */
  lemma ReleaseReturnsIff(s: State, id: nat, token: nat, worker: Principal, reason: string)
    ensures var r := ReleaseWork(s, id, token, worker, reason);
            && (r.Accepted? <==> HeldUnder(s, id, token, worker))
            && (r.Accepted? ==>
                  Changed(s, id, Freed(s.rows[id], Queued, s.clock), WorkReleased(reason, None), worker, r.value))
  {
    HeldIff(s, id, token, worker);
  }
}
