/**
 * One item's ledger read as a history: the state it replays to, the leases it
 * opens and closes, the decisions that admit it, and the releases it counts.
 */
module LedgerReplay {
  import opened WorkTypes
  import opened QueueModel
  import opened QueueWrites

  // ----- replay -------------------------------------------------------------------

  /** What the ledger determines of a row. `stopped` is the result of the block it stands on. */
  datatype View = View(
    stored: Stored,
    admitted: bool,
    owner: Option<Principal>,
    expiresAt: Option<int>,
    priority: int,
    notes: seq<Note>,
    previous: seq<WorkResult>,
    stopped: Option<WorkResult>,
    predecessors: Option<set<SourceRef>>)

  function ViewOf(row: Row): View {
    View(row.stored, row.admitted,
      if row.lease.Some? then Some(row.lease.value.owner) else None,
      if row.lease.Some? then Some(row.lease.value.expiresAt) else None,
      row.priority, row.notes, row.previous,
      if row.stored == Blocked then row.result else None,
      row.predecessors)
  }

  function WithNote(v: View, e: Event, action: NoteAction, reason: string): View {
    v.(notes := v.notes + [Note(e.at, e.actor, action, reason)])
  }

  function Apply(v: View, e: Event): View {
    match e.body
    case WorkQueued => v.(admitted := true)
    case WorkProposed(edges) => v.(admitted := false, predecessors := edges)
    case WorkApproved => v.(admitted := true)
    case WorkDeferred(reason) => WithNote(v, e, DeferNote, reason).(admitted := false)
    case WorkNoted(reason) => WithNote(v, e, PlainNote, reason)
    case WorkPrioritized(_, priority, reason) => WithNote(v, e, PrioritizeNote, reason).(priority := priority)
    case WorkRejected(_) => v.(stored := Cancelled)
    case WorkRequeued(reason) =>
      WithNote(v, e, RequeueNote, reason).(
        stored := Queued,
        previous := if v.stopped.Some? then v.previous + [v.stopped.value] else v.previous,
        stopped := None)
    case WorkClaimed(expiresAt) => v.(stored := Claimed, owner := Some(e.actor), expiresAt := Some(expiresAt))
    case LeaseRenewed(expiresAt) => v.(expiresAt := Some(expiresAt))
    case LeaseExpired(_, _) => v.(stored := Queued, owner := None, expiresAt := None)
    case WorkCompleted(_) => v.(stored := Completed, owner := None, expiresAt := None)
    case WorkReviewed(_, _, _) => v
    case WorkBlocked(reason) =>
      v.(stored := Blocked, owner := None, expiresAt := None, stopped := Some(ReasonResult(reason)))
    case WorkReleased(reason, taken) =>
      var noted := if taken.Some? then WithNote(v, e, ReleaseLeaseNote, reason) else v;
      noted.(stored := Queued, owner := None, expiresAt := None)
    case WorkCancelled(_) => v.(stored := Cancelled, stopped := None)
    case PredecessorsUpdated(now, _) => v.(predecessors := EdgesFrom(now))
    case ArtifactVerified(_) => v
    case ArtifactAttached(_) => v
    case ArtifactReady(_, _, _) => v
  }

  function Replay(priority: int, h: seq<Event>): View {
    if h == [] then View(Queued, false, None, None, priority, [], [], None, None)
    else Apply(Replay(priority, h[..|h| - 1]), h[|h| - 1])
  }

  /** The priority the item was created with: what its first reprioritization replaced. */
  function CreatedPriority(h: seq<Event>, now: int): int {
    if h == [] then now
    else if h[0].body.WorkPrioritized? then h[0].body.was
    else CreatedPriority(h[1..], now)
  }

  predicate Replays(row: Row, h: seq<Event>) {
    Replay(CreatedPriority(h, row.priority), h) == ViewOf(row)
  }

  // ----- leases ---------------------------------------------------------------------

  /** The last claim has not been ended. */
  predicate OpenClaim(h: seq<Event>) {
    h != [] && var e := h[|h| - 1];
      if e.body.WorkClaimed? then true
      else if e.body.EndsLease() then false
      else OpenClaim(h[..|h| - 1])
  }

  /** Claims and lease ends take turns, a claim first. */
  predicate Alternates(h: seq<Event>) {
    h == [] ||
    var before, e := h[..|h| - 1], h[|h| - 1];
    && Alternates(before)
    && (e.body.WorkClaimed? ==> !OpenClaim(before))
    && (e.body.EndsLease() ==> OpenClaim(before))
  }

  // ----- admission --------------------------------------------------------------------

  /** The latest creation or decision event admits the item. */
  predicate Admitting(h: seq<Event>) {
    h != [] && var e := h[|h| - 1];
      if e.body.WorkQueued? || e.body.WorkApproved? then true
      else if e.body.WorkProposed? || e.body.WorkDeferred? then false
      else Admitting(h[..|h| - 1])
  }

  predicate ClaimsAdmitted(h: seq<Event>) {
    h == [] ||
    var before, e := h[..|h| - 1], h[|h| - 1];
    ClaimsAdmitted(before) && (e.body.WorkClaimed? ==> Admitting(before))
  }

  lemma {:induction false} AdmittedIsAdmitting(priority: int, h: seq<Event>)
    ensures Replay(priority, h).admitted <==> Admitting(h)
  {
    if h != [] { AdmittedIsAdmitting(priority, h[..|h| - 1]); }
  }

  // ----- instants and counted releases ---------------------------------------------------

  predicate InOrder(h: seq<Event>, now: int) {
    && (forall i, j :: 0 <= i < j < |h| ==> h[i].at <= h[j].at)
    && (forall i :: 0 <= i < |h| ==> h[i].at <= now)
  }

  /** Counted releases recorded after `after` and no later than `upto`. */
  function ReleasesWithin(h: seq<Event>, after: int, upto: int): nat {
    if h == [] then 0
    else
      var e := h[|h| - 1];
      ReleasesWithin(h[..|h| - 1], after, upto) + if CountedRelease(e) && after < e.at <= upto then 1 else 0
  }

  /** When a counted release is recorded, at most three lie in the window that ends with it. */
  predicate ReleasesBounded(h: seq<Event>) {
    h == [] ||
    var before, e := h[..|h| - 1], h[|h| - 1];
    && ReleasesBounded(before)
    && (CountedRelease(e) ==> ReleasesAfter(h, e.at - CLAIM_BACKOFF_WINDOW) <= CLAIM_BACKOFF_RELEASES)
  }

  lemma {:induction false} LaterCountsFewer(h: seq<Event>, after: int, later: int)
    requires after <= later
    ensures ReleasesAfter(h, later) <= ReleasesAfter(h, after)
  {
    if h != [] { LaterCountsFewer(h[..|h| - 1], after, later); }
  }

  lemma {:induction false} WithinIsAfter(h: seq<Event>, after: int, upto: int)
    ensures ReleasesWithin(h, after, upto) <= ReleasesAfter(h, after)
    ensures InOrder(h, upto) ==> ReleasesWithin(h, after, upto) == ReleasesAfter(h, after)
  {
    if h != [] { WithinIsAfter(h[..|h| - 1], after, upto); }
  }

  /** No thirty-minute window, wherever it ends, holds more than three counted releases. */
  lemma {:induction false} EveryWindowBounded(h: seq<Event>, end: int)
    requires ReleasesBounded(h)
    ensures ReleasesWithin(h, end - CLAIM_BACKOFF_WINDOW, end) <= CLAIM_BACKOFF_RELEASES
  {
    if h != [] {
      var before, e := h[..|h| - 1], h[|h| - 1];
      var after := end - CLAIM_BACKOFF_WINDOW;
      if CountedRelease(e) && after < e.at <= end {
        LaterCountsFewer(h, e.at - CLAIM_BACKOFF_WINDOW, after);
        WithinIsAfter(h, after, end);
      } else {
        EveryWindowBounded(before, end);
      }
    }
  }

  // ----- block results ------------------------------------------------------------------

  /** The results the item's blocks stored, oldest first. */
  function BlockResults(h: seq<Event>): seq<WorkResult> {
    if h == [] then []
    else
      var e := h[|h| - 1];
      BlockResults(h[..|h| - 1]) + if e.body.WorkBlocked? then [ReasonResult(e.body.reason)] else []
  }

  /** The result of the block the item stands on, if it stands blocked. */
  function StandsOn(h: seq<Event>): Option<WorkResult> {
    if h == [] then None
    else
      var before, e := h[..|h| - 1], h[|h| - 1];
      if e.body.WorkBlocked? then Some(ReasonResult(e.body.reason))
      else if e.body.WorkRequeued? || e.body.WorkCancelled? then None
      else StandsOn(before)
  }

  /** The block result a cancellation of the blocked item overwrote, if one did. */
  function Overwritten(h: seq<Event>): seq<WorkResult> {
    if h == [] then []
    else
      var before, e := h[..|h| - 1], h[|h| - 1];
      if e.body.WorkCancelled? && StandsOn(before).Some? then [StandsOn(before).value] else Overwritten(before)
  }

  /** What the row itself still carries of its blocks. */
  function CarriedBlocks(row: Row): seq<WorkResult> {
    row.previous + if row.stored == Blocked && row.result.Some? then [row.result.value] else []
  }

  predicate BlocksAccounted(row: Row, h: seq<Event>) {
    && BlockResults(h) == CarriedBlocks(row) + Overwritten(h)
    && (Overwritten(h) != [] ==> row.stored == Cancelled)
  }

  // ----- one write on one history ------------------------------------------------------------

  /** The first event of an item is the one its creation recorded. */
  predicate StartsWithCreation(h: seq<Event>) {
    h != [] && (h[0].body.WorkQueued? || h[0].body.WorkProposed?)
  }

  predicate ItemOk(row: Row, h: seq<Event>, now: int) {
    && StartsWithCreation(h)
    && Replays(row, h)
    && Alternates(h) && (OpenClaim(h) <==> row.stored == Claimed)
    && ClaimsAdmitted(h)
    && InOrder(h, now)
    && ReleasesBounded(h)
    && (row.stored == Claimed ==> ReleasesAfter(h, now - CLAIM_BACKOFF_WINDOW) < CLAIM_BACKOFF_RELEASES)
    && BlocksAccounted(row, h)
  }

  lemma Snoc(h: seq<Event>, e: Event)
    ensures (h + [e])[..|h + [e]| - 1] == h && (h + [e])[|h + [e]| - 1] == e
  {
  }

  lemma {:induction false} CreatedPriorityKeeps(h: seq<Event>, e: Event, now: int, next: int)
    requires e.body.WorkPrioritized? ==> e.body.was == now
    requires !e.body.WorkPrioritized? ==> next == now
    ensures CreatedPriority(h + [e], next) == CreatedPriority(h, now)
  {
    if h == [] {
      assert (h + [e])[1..] == [];
    } else {
      assert (h + [e])[1..] == h[1..] + [e];
      CreatedPriorityKeeps(h[1..], e, now, next);
    }
  }

  lemma ReplayFollows(s: State, row: Row, next: Row, h: seq<Event>, e: Event)
    requires Replays(row, h) && RowShape(row) && e.at == s.clock
    requires Follows(s, row, next, e.body, e.actor)
    ensures Replays(next, h + [e]) && RowShape(next)
  {
    Snoc(h, e);
    CreatedPriorityKeeps(h, e, row.priority, next.priority);
    var p := CreatedPriority(h, row.priority);
    assert Replay(p, h + [e]) == Apply(ViewOf(row), e);
  }

  lemma {:induction false} ReplayStandsOn(priority: int, h: seq<Event>)
    ensures Replay(priority, h).stopped == StandsOn(h)
  {
    if h != [] { ReplayStandsOn(priority, h[..|h| - 1]); }
  }

  lemma BlocksFollow(s: State, row: Row, next: Row, h: seq<Event>, e: Event)
    requires Replays(row, h) && RowShape(row) && BlocksAccounted(row, h)
    requires Follows(s, row, next, e.body, e.actor)
    ensures BlocksAccounted(next, h + [e])
  {
    Snoc(h, e);
    ReplayStandsOn(CreatedPriority(h, row.priority), h);
    assert StandsOn(h) == if row.stored == Blocked then row.result else None;
    if e.body.WorkBlocked? {
      assert BlockResults(h + [e]) == BlockResults(h) + [ReasonResult(e.body.reason)];
    } else {
      assert BlockResults(h + [e]) == BlockResults(h);
    }
  }

  lemma LeasesFollow(s: State, row: Row, next: Row, h: seq<Event>, e: Event)
    requires RowShape(row) && Alternates(h) && (OpenClaim(h) <==> row.stored == Claimed)
    requires Follows(s, row, next, e.body, e.actor)
    ensures Alternates(h + [e]) && (OpenClaim(h + [e]) <==> next.stored == Claimed)
  {
    Snoc(h, e);
  }

  lemma ReleasesFollow(s: State, row: Row, next: Row, h: seq<Event>, e: Event)
    requires RowShape(row) && InOrder(h, s.clock) && ReleasesBounded(h) && e.at == s.clock
    requires row.stored == Claimed ==> ReleasesAfter(h, s.clock - CLAIM_BACKOFF_WINDOW) < CLAIM_BACKOFF_RELEASES
    requires e.body.WorkClaimed? ==> ReleasesAfter(h, s.clock - CLAIM_BACKOFF_WINDOW) < CLAIM_BACKOFF_RELEASES
    requires Follows(s, row, next, e.body, e.actor)
    ensures InOrder(h + [e], s.clock) && ReleasesBounded(h + [e])
    ensures next.stored == Claimed ==>
              ReleasesAfter(h + [e], s.clock - CLAIM_BACKOFF_WINDOW) < CLAIM_BACKOFF_RELEASES
  {
    Snoc(h, e);
  }

  lemma ItemFollows(s: State, row: Row, next: Row, h: seq<Event>, e: Event)
    requires ItemOk(row, h, s.clock) && RowShape(row) && e.at == s.clock
    requires Follows(s, row, next, e.body, e.actor)
    requires e.body.WorkClaimed? ==> ReleasesAfter(h, s.clock - CLAIM_BACKOFF_WINDOW) < CLAIM_BACKOFF_RELEASES
    ensures ItemOk(next, h + [e], s.clock) && RowShape(next)
  {
    ReplayFollows(s, row, next, h, e);
    BlocksFollow(s, row, next, h, e);
    LeasesFollow(s, row, next, h, e);
    ReleasesFollow(s, row, next, h, e);
    Snoc(h, e);
    if e.body.WorkClaimed? {
      AdmittedIsAdmitting(CreatedPriority(h, row.priority), h);
    }
  }

  lemma ItemStarts(row: Row, e: Event, now: int)
    requires row.stored == Queued && row.lease.None? && row.notes == [] && row.previous == []
    requires e.body == CreationEvent(row) && e.at == now && (row.admitted ==> row.predecessors.None?)
    ensures ItemOk(row, [e], now)
  {
    assert [e][..|[e]| - 1] == [] && [e][1..] == [];
    assert Alternates([]) && ClaimsAdmitted([]) && ReleasesBounded([]);
    assert Replay(row.priority, [e]) == Apply(Replay(row.priority, []), e);
  }

  lemma ItemAges(row: Row, h: seq<Event>, now: int, later: int)
    requires ItemOk(row, h, now) && now <= later
    ensures ItemOk(row, h, later)
  {
    LaterCountsFewer(h, now - CLAIM_BACKOFF_WINDOW, later - CLAIM_BACKOFF_WINDOW);
  }
}
