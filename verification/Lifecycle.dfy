/** The life of one item: which statuses follow which, who may bring them about, and what never changes. */
module Lifecycle {
  import opened WorkTypes
  import opened QueueModel
  import opened QueueWrites
  import opened QueueInvariant

  /** The only ways an item's status changes, each with the event that records it and who may cause it. */
  predicate Allowed(was: WorkStatus, becomes: WorkStatus, body: EventBody, actor: Principal) {
    match (was, becomes)
    case (Proposed, Stands(Queued)) => body.WorkApproved? && actor.Decides()
    case (Proposed, Stands(Cancelled)) => body.WorkRejected? && actor.Decides()
    case (Stands(Queued), Proposed) => body.WorkDeferred? && actor.Decides()
    case (Stands(Queued), Stands(Claimed)) => body.WorkClaimed? && actor.Works()
    case (Stands(Queued), Stands(Cancelled)) => body.WorkCancelled? && actor.Decides()
    case (Stands(Claimed), Stands(Completed)) => body.WorkCompleted? && actor.Works()
    case (Stands(Claimed), Stands(Blocked)) => body.WorkBlocked? && actor.Works()
    case (Stands(Claimed), Stands(Queued)) =>
      || (body.LeaseExpired? && actor == System)
      || (body.WorkReleased? && (if body.taken.Some? then actor.Decides() else actor.Works()))
    case (Stands(Blocked), Stands(Queued)) => body.WorkRequeued? && actor.Decides()
    case (Stands(Blocked), Proposed) => body.WorkRequeued? && actor.Decides()
    case (Stands(Blocked), Stands(Cancelled)) => body.WorkCancelled? && actor.Decides()
    case _ => false
  }

  lemma FollowsIsAllowed(s: State, row: Row, next: Row, body: EventBody, actor: Principal)
    requires RowShape(row) && Follows(s, row, next, body, actor)
    ensures next.Status() == row.Status() || Allowed(row.Status(), next.Status(), body, actor)
  {
    match body {
      case WorkCompleted(_) => assert row.lease.value.owner == actor;
      case WorkBlocked(_) => assert row.lease.value.owner == actor;
      case WorkReleased(_, taken) => assert taken.None? ==> row.lease.value.owner == actor;
      case _ =>
    }
  }

  /**
   * Every write of every run moves an item's status, if at all, along one of
   * the allowed edges, and the ledger's newest event names it.
   */
  lemma StatusMovesAlongEdges(s: State, w: Write, t: State, id: nat)
    requires Inv(s) && Lawful(s, w, t) && id < |s.rows|
    ensures id < |t.rows|
    ensures t.rows[id].Status() != s.rows[id].Status() ==>
              && |t.ledger| == |s.ledger| + 1 && t.ledger[|s.ledger|].item == id
              && Allowed(s.rows[id].Status(), t.rows[id].Status(), t.ledger[|s.ledger|].body,
                 t.ledger[|s.ledger|].actor)
  {
    LawfulOutline(s, w, t);
    if w.Change? && w.id == id {
      FollowsIsAllowed(s, s.rows[id], w.row, w.body, w.actor);
    }
  }

  /**
   * Over any stretch of a run an item keeps its definition and its review
   * binding, a completed or cancelled one keeps its status, and the ledger
   * only grows.
   */
  lemma WhatNeverChanges(trace: seq<State>, ops: seq<Op>, i: nat, j: nat, id: nat)
    requires Run(trace, ops) && i <= j < |trace| && id < |trace[i].rows|
    ensures id < |trace[j].rows|
    ensures trace[j].rows[id].def == trace[i].rows[id].def
    ensures SameBinding(trace[i].rows[id].review, trace[j].rows[id].review)
    ensures trace[i].rows[id].Terminal() ==> trace[j].rows[id].stored == trace[i].rows[id].stored
    ensures trace[i].ledger <= trace[j].ledger
  {
    hide Run;
    RunKeeps(trace, ops, i, j);
  }
}
