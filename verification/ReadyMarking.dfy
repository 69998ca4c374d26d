/**
 * The pass consequence: marking a judged draft ready while its author may push
 * at any moment. GitHub is an object that moves on its own between calls, and
 * whose answers may be missing.
 */
module ReadyMarking {
  import opened WorkTypes

  datatype PullState = OpenPull | ClosedPull | MergedPull

  /** The pull request as GitHub has it; `present` is false once it is gone or targets another repository. */
  datatype World = World(present: bool, state: PullState, head: string, draft: bool)
  {
    /** Open at another head than the one that was judged. */
    predicate OpenBeyond(judged: string) {
      present && state == OpenPull && head != judged
    }

    predicate OpenAndReady() {
      present && state == OpenPull && !draft
    }
  }

  /** One read of the head: what it says, that it could not be read, or that there is no such pull request. */
  datatype HeadCheck = HeadIs(state: PullState, head: string, draft: bool) | CannotRead | Rejected

  predicate Truthful(check: HeadCheck, w: World) {
    match check
    case HeadIs(state, head, draft) => w.present && w.state == state && w.head == head && w.draft == draft
    case CannotRead => true
    case Rejected => !w.present
  }

  /** One call on the pull request: what it was just after, and what the call answered. */
  datatype Call =
    | HeadRead(at: World, check: HeadCheck)
    | ReadyMark(at: World, confirmed: bool)
    | DraftConversion(at: World, confirmed: bool)

  /** `calls` are the calls made so far, oldest first. */
  class GitHubPull {
    var world: World
    ghost var calls: seq<Call>

    /** Anything may happen to the pull request between two calls. */
    method Drift()
      modifies `world
    {
      world := *;
    }

    method ReadHead() returns (check: HeadCheck)
      modifies this
      ensures calls == old(calls) + [HeadRead(world, check)]
      ensures Truthful(check, world)
    {
      Drift();
      if * {
        check := CannotRead;
      } else if world.present {
        check := HeadIs(world.state, world.head, world.draft);
      } else {
        check := Rejected;
      }
      calls := calls + [HeadRead(world, check)];
    }

    /** Leaves draft, perhaps; a confirmation is true when it is given, silence proves nothing. */
    method MarkReady() returns (confirmed: bool)
      modifies this
      ensures calls == old(calls) + [ReadyMark(world, confirmed)]
      ensures confirmed ==> world.present && !world.draft
    {
      Drift();
      if * { world := world.(draft := false); }
      confirmed := *;
      confirmed := confirmed && world.present && !world.draft;
      calls := calls + [ReadyMark(world, confirmed)];
    }

    method ConvertToDraft() returns (confirmed: bool)
      modifies this
      ensures calls == old(calls) + [DraftConversion(world, confirmed)]
      ensures confirmed ==> world.present && world.draft
    {
      Drift();
      if * { world := world.(draft := true); }
      confirmed := *;
      confirmed := confirmed && world.present && world.draft;
      calls := calls + [DraftConversion(world, confirmed)];
    }
  }

  // ----- the consequence, from the answers -------------------------------------------------

  datatype BoundaryCheck = Untouched | Touched | FilesUnreadable

  /** Everything the sweep is told on the way: only what was asked matters. */
  datatype Answers = Answers(
    boundaries: BoundaryCheck,
    writes: bool,
    hasNode: bool,
    marked: bool,
    after: HeadCheck,
    reverted: bool)

  datatype HumanCause = TouchesBoundary | ConvertedBack

  datatype UnavailableCause = BoundariesUnchecked | NoNode | MarkFailed | LeftReady

  datatype Outcome = ReadyToMark | MarkedReady | ToHuman(cause: HumanCause, head: string)
    | Unavailable(why: UnavailableCause)

  /** The re-read found the pull request open at another head. */
  predicate Moved(after: HeadCheck, judged: string) {
    after.HeadIs? && after.state == OpenPull && after.head != judged
  }

  /** The sweep tried to convert the pull request back. */
  predicate Compensated(a: Answers, judged: string) {
    a.after.CannotRead? || Moved(a.after, judged)
  }

  function OutcomeOf(a: Answers, judged: string): Outcome {
    if a.boundaries == FilesUnreadable then Unavailable(BoundariesUnchecked)
    else if a.boundaries == Touched then ToHuman(TouchesBoundary, judged)
    else if !a.writes then ReadyToMark
    else if !a.hasNode then Unavailable(NoNode)
    else if !a.marked then Unavailable(MarkFailed)
    else if Compensated(a, judged) then
      if a.reverted then ToHuman(ConvertedBack, if Moved(a.after, judged) then a.after.head else judged)
      else Unavailable(LeftReady)
    else MarkedReady
  }

  /** The sweep went as far as reading the head again. */
  predicate Reread(a: Answers) {
    Marks(a) && a.marked
  }

  /** The sweep marks the pull request ready: nothing of what it knows before stops it. */
  predicate Marks(a: Answers) {
    a.boundaries == Untouched && a.writes && a.hasNode
  }

  /** The pull request just after the mark, after the re-read, and after the conversion back. */
  datatype Instants = Instants(atMark: World, atReread: World, atRevert: World)

  /** Exactly the calls the answers were given to: the mark, the re-read once it is confirmed, the conversion back. */
  function CallsOf(a: Answers, judged: string, w: Instants): seq<Call> {
    if !Marks(a) then []
    else if !a.marked then [ReadyMark(w.atMark, false)]
    else if !Compensated(a, judged) then [ReadyMark(w.atMark, true), HeadRead(w.atReread, a.after)]
    else
      [ReadyMark(w.atMark, true), HeadRead(w.atReread, a.after), DraftConversion(w.atRevert, a.reverted)]
  }

  /** Every answer that was asked for was true when it was given. */
  predicate Honest(a: Answers, judged: string, w: Instants) {
    && (Marks(a) && a.marked ==> w.atMark.present && !w.atMark.draft)
    && (Reread(a) ==> Truthful(a.after, w.atReread))
    && (Reread(a) && Compensated(a, judged) && a.reverted ==> w.atRevert.present && w.atRevert.draft)
  }

  /** The pull request after the last of the calls. */
  function AfterCalls(a: Answers, judged: string, w: Instants): World {
    if !a.marked then w.atMark else if Compensated(a, judged) then w.atRevert else w.atReread
  }

  /**
   * Whatever was pushed in between: marked ready is reported exactly when the
   * mark was confirmed and the re-read found no open pull request at another
   * head; and a pull request that was open at another head by the re-read, and
   * is still out of draft after the last call, is always reported unavailable.
   */
  lemma ReadyIsHonest(a: Answers, judged: string, w: Instants)
    requires Honest(a, judged, w)
    ensures OutcomeOf(a, judged).MarkedReady? <==>
              && Reread(a) && !a.after.CannotRead?
              && (w.atReread.present && w.atReread.state == OpenPull ==> w.atReread.head == judged)
    ensures Reread(a) && w.atReread.OpenBeyond(judged) && AfterCalls(a, judged, w).OpenAndReady() ==>
            OutcomeOf(a, judged) == Unavailable(LeftReady)
  {
    match a.after
    case HeadIs(state, head, draft) =>
    case CannotRead =>
    case Rejected =>
  }
}
