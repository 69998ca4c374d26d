/**
 * What operators and policies decide about stored work: exactly when each
 * decision is taken, and what it writes. A decision made from a stale view is
 * refused.
 */
module Decisions {
  import opened WorkTypes
  import opened QueueModel
  import opened QueueWrites
  import opened QueueInvariant
  import opened Governance
  import opened WorkerCalls
  import RootCreation

  // ----- who may decide, and from what view ---------------------------------------------

  predicate IsProposed(row: Row) {
    row.stored == Queued && !row.admitted
  }

  /** The view the decision was made from, if it names one, still shows the item as it is. */
  predicate StillShown(row: Row, seen: Option<Precondition>) {
    seen.Some? ==>
      && seen.value.updatedAt == row.updatedAt
      && if IsProposed(row) then seen.value.status == Proposed else seen.value.status == Stands(row.stored)
  }

  predicate MayDecide(s: State, id: nat, actor: Principal, seen: Option<Precondition>) {
    && (actor.Operator? || actor.Policy? || actor.Member?)
    && id < |s.rows|
    && StillShown(s.rows[id], seen)
  }

  lemma MayDecideIff(s: State, id: nat, actor: Principal, seen: Option<Precondition>)
    ensures DecisionRefusal(s, id, actor, seen).None? <==> MayDecide(s, id, actor, seen)
  {
  }

  /** The view a decision names. */
  function SeenBy(op: Op): Option<Precondition> {
    match op
    case OpApprove(_, _, seen) => seen
    case OpDefer(_, _, _, seen) => seen
    case OpNote(_, _, _, seen) => seen
    case OpPrioritize(_, _, _, _, seen) => seen
    case OpReject(_, _, _, seen) => seen
    case OpRequeue(_, _, _, seen) => seen
    case OpReleaseLease(_, _, _, seen) => seen
    case OpCancel(_, _, _, seen) => seen
    case OpAttach(_, _, _, seen) => seen
    case _ => None
  }

  function DecidedOn(op: Op): nat {
    match op
    case OpApprove(id, _, _) => id
    case OpDefer(id, _, _, _) => id
    case OpNote(id, _, _, _) => id
    case OpPrioritize(id, _, _, _, _) => id
    case OpReject(id, _, _, _) => id
    case OpRequeue(id, _, _, _) => id
    case OpReleaseLease(id, _, _, _) => id
    case OpCancel(id, _, _, _) => id
    case OpAttach(id, _, _, _) => id
    case _ => 0
  }

  /** A decision whose view has gone stale changes nothing, whatever it decides. */
  lemma StaleDecisionChangesNothing(s: State, op: Op, t: State)
    requires Step(s, op, t) && SeenBy(op).Some? && DecidedOn(op) < |s.rows|
    requires !StillShown(s.rows[DecidedOn(op)], SeenBy(op))
    ensures t == s
  {
    hide Complete, EnqueueBatch, EnqueueProposed, EnqueueReview, EnqueueCure, EnqueueSeed, Claim;
  }

  // ----- admission and scheduling ----------------------------------------------------------

  /** The bound record of an approval: what the authority says now, and the approval itself. */
  predicate Rebound(s: State, row: Row, actor: Principal, policy: Option<PolicyRecord>) {
    if s.authorities.None? || row.repository !in s.authorities.value then policy == row.policy
    else
      var authority := s.authorities.value[row.repository];
      && policy.Some?
      && policy.value.snapshot == authority.snapshot && policy.value.commit == authority.commit
      && policy.value.authorization == Some(ByDecision(actor, policy.value.reviewRequired, s.clock))
      && (forall a :: a in policy.value.reviewRequired <==>
            a in row.def.allowed
            && (if a in authority.decisions then authority.decisions[a] else authority.defaultDecision)
                 == ReviewRequired)
  }

  /**
   * An approval is taken of proposed work exactly when the policy still
   * permits the item's actions: its contract never stands in the way. It
   * admits the item and binds it to the policy of the moment.
   */
  lemma ApprovesIff(s: State, id: nat, actor: Principal, seen: Option<Precondition>)
    requires Inv(s)
    ensures var r := Approve(s, id, actor, seen);
            && (r.Accepted? <==>
                  && MayDecide(s, id, actor, seen) && IsProposed(s.rows[id])
                  && RootCreation.PolicyPermits(s, s.rows[id].repository, s.rows[id].def.allowed,
                       s.rows[id].def.delegable))
            && (r.Accepted? ==>
                  && |r.value.rows| == |s.rows|
                  && Rebound(s, s.rows[id], actor, r.value.rows[id].policy)
                  && Changed(s, id,
                       s.rows[id].(admitted := true, policy := r.value.rows[id].policy, updatedAt := s.clock),
                       WorkApproved, actor, r.value))
  {
    hide BindPolicy;
    MayDecideIff(s, id, actor, seen);
    if id < |s.rows| {
      assert ContractOk(s.rows, id);
      BoundIff(s, s.rows[id]);
    }
  }

  lemma BoundIff(s: State, row: Row)
    ensures var r := BindPolicy(s, row.repository, row.def.kind, row.def.allowed, row.def.delegable,
              row.def.createdBy, false);
            && (r.Accepted? <==> RootCreation.PolicyPermits(s, row.repository, row.def.allowed, row.def.delegable))
            && (r.Accepted? ==> r.value.Some? == s.authorities.Some?)
            && (r.Accepted? && r.value.Some? ==>
                  forall actor :: Rebound(s, row, actor,
                    Some(r.value.value.(
                      authorization := Some(ByDecision(actor, r.value.value.reviewRequired, s.clock))))))
  {
    if s.authorities.Some? {
      BindingAcceptedIff(s, row.repository, row.def, false);
      if row.repository in s.authorities.value {
        forall a {
          ReviewRequiredMeans(s.authorities.value[row.repository], row.def.allowed, a);
        }
      }
    }
  }

  /** A note's text: not blank, and no longer than the bound. */
  predicate NoteText(text: string) {
    !Blank(text) && |text| <= 4000
  }

  /** Admission of queued work is withdrawn, with the reason as a note. */
  lemma DefersIff(s: State, id: nat, actor: Principal, reason: string, seen: Option<Precondition>)
    ensures var r := Defer(s, id, actor, reason, seen);
            && (r.Accepted? <==>
                  && MayDecide(s, id, actor, seen) && NoteText(reason)
                  && s.rows[id].stored == Queued && s.rows[id].admitted)
            && (r.Accepted? ==>
                  var row := s.rows[id];
                  Changed(s, id,
                    row.(admitted := false, notes := row.notes + [Note(s.clock, actor, DeferNote, reason)],
                         updatedAt := s.clock),
                    WorkDeferred(reason), actor, r.value))
  {
  }

  /** A note may be left on any item. */
  lemma NotesIff(s: State, id: nat, actor: Principal, reason: string, seen: Option<Precondition>)
    ensures var r := AddNote(s, id, actor, reason, seen);
            && (r.Accepted? <==> MayDecide(s, id, actor, seen) && NoteText(reason))
            && (r.Accepted? ==>
                  var row := s.rows[id];
                  Changed(s, id,
                    row.(notes := row.notes + [Note(s.clock, actor, PlainNote, reason)], updatedAt := s.clock),
                    WorkNoted(reason), actor, r.value))
  {
  }

  /** The priority of proposed, queued or blocked work becomes the one given; the event keeps the old one. */
  lemma PrioritizesIff(s: State, id: nat, actor: Principal, priority: int, reason: string, seen: Option<Precondition>)
    ensures var r := Prioritize(s, id, actor, priority, reason, seen);
            && (r.Accepted? <==>
                  && MayDecide(s, id, actor, seen) && NoteText(reason)
                  && -0x1F_FFFF_FFFF_FFFF <= priority <= 0x1F_FFFF_FFFF_FFFF
                  && s.rows[id].stored in {Queued, Blocked})
            && (r.Accepted? ==>
                  var row := s.rows[id];
                  Changed(s, id,
                    row.(priority := priority, notes := row.notes + [Note(s.clock, actor, PrioritizeNote, reason)],
                         updatedAt := s.clock),
                    WorkPrioritized(row.priority, priority, reason), actor, r.value))
  {
  }

  // ----- ends and returns --------------------------------------------------------------------

  /** The reason in place of a result. */
  function Ended(row: Row, reason: string, now: int): Row {
    row.(stored := Cancelled, result := Some(WorkResult(reason, [], [])), updatedAt := now)
  }

  /** Proposed work is turned down, with the reason as its result. */
  lemma RejectsIff(s: State, id: nat, actor: Principal, reason: string, seen: Option<Precondition>)
    ensures var r := Reject(s, id, actor, reason, seen);
            && (r.Accepted? <==> MayDecide(s, id, actor, seen) && !Blank(reason) && IsProposed(s.rows[id]))
            && (r.Accepted? ==>
                  Changed(s, id, Ended(s.rows[id], reason, s.clock), WorkRejected(reason), actor, r.value))
  {
  }

  /** Blocked work returns to the queue; what blocked it joins the earlier results, the reason the notes. */
  lemma RequeuesIff(s: State, id: nat, actor: Principal, reason: string, seen: Option<Precondition>)
    ensures var r := Requeue(s, id, actor, reason, seen);
            && (r.Accepted? <==> MayDecide(s, id, actor, seen) && NoteText(reason) && s.rows[id].stored == Blocked)
            && (r.Accepted? ==>
                  var row := s.rows[id];
                  Changed(s, id,
                    row.(stored := Queued, result := None, lease := None, updatedAt := s.clock,
                         previous := row.previous + (if row.result.Some? then [row.result.value] else []),
                         notes := row.notes + [Note(s.clock, actor, RequeueNote, reason)]),
                    WorkRequeued(reason), actor, r.value))
  {
    if id < |s.rows| { assert s.rows[id].previous + [] == s.rows[id].previous; }
  }

  /** A lease is taken from its owner, live or run out; the event names owner and expiry, the reason is a note. */
  lemma ReleasesLeaseIff(s: State, id: nat, actor: Principal, reason: string, seen: Option<Precondition>)
    ensures var r := ReleaseLease(s, id, actor, reason, seen);
            && (r.Accepted? <==>
                  && MayDecide(s, id, actor, seen) && NoteText(reason)
                  && s.rows[id].stored == Claimed && s.rows[id].lease.Some?)
            && (r.Accepted? ==>
                  var row := s.rows[id];
                  Changed(s, id,
                    Freed(row, Queued, s.clock).(notes := row.notes + [Note(s.clock, actor, ReleaseLeaseNote, reason)]),
                    WorkReleased(reason, Some((row.lease.value.owner, row.lease.value.expiresAt))), actor, r.value))
  {
  }

  /** Blocked work is cancelled; so is queued or blocked work whose pull request is gone, whatever was seen. */
  lemma CancelsIff(s: State, id: nat, actor: Principal, reason: string, seen: Option<Precondition>)
    ensures var r := Cancel(s, id, actor, reason, seen);
            && (r.Accepted? <==> MayDecide(s, id, actor, seen) && !Blank(reason) && s.rows[id].stored == Blocked)
            && (r.Accepted? ==>
                  Changed(s, id, Ended(s.rows[id], reason, s.clock).(lease := None), WorkCancelled(reason), actor,
                    r.value))
    ensures var r := Retire(s, id, actor, reason);
            && (r.Accepted? <==>
                  && MayDecide(s, id, actor, None) && !Blank(reason)
                  && (s.rows[id].stored == Blocked || (s.rows[id].stored == Queued && s.rows[id].admitted)))
            && (r.Accepted? ==>
                  Changed(s, id, Ended(s.rows[id], reason, s.clock).(lease := None), WorkCancelled(reason), actor,
                    r.value))
  {
  }

  // ----- artifacts of completed work --------------------------------------------------------------

  predicate HasResult(s: State, id: nat) {
    id < |s.rows| && s.rows[id].stored == Completed && s.rows[id].result.Some?
  }

  /** Position `i` holds the first artifact with the URL. */
  predicate FirstNamed(artifacts: seq<Artifact>, url: string, i: nat) {
    && i < |artifacts| && artifacts[i].url == url
    && forall j :: 0 <= j < i ==> artifacts[j].url != url
  }

  lemma {:induction false} FoundFirst(artifacts: seq<Artifact>, url: string)
    ensures match FindArtifact(artifacts, url)
            case None => forall a :: a in artifacts ==> a.url != url
            case Some(i) => FirstNamed(artifacts, url, i)
  {
    if artifacts != [] && artifacts[0].url != url {
      FoundFirst(artifacts[1..], url);
      match FindArtifact(artifacts[1..], url)
      case None =>
      case Some(i) =>
        forall j | 0 <= j < i + 1
          ensures artifacts[j].url != url
        {
          if j > 0 { assert artifacts[1..][j - 1].url != url; }
        }
    }
  }

  lemma FirstNamedOnce(artifacts: seq<Artifact>, url: string, i: nat, j: nat)
    requires FirstNamed(artifacts, url, i) && FirstNamed(artifacts, url, j)
    ensures i == j
  {
  }

  predicate CanBeVerified(a: Artifact) {
    a.kind in {Issue, PullRequest, Release}
  }

  /** The item with other artifacts in its result. */
  function Reporting(row: Row, artifacts: seq<Artifact>, now: int): Row
    requires row.result.Some?
  {
    row.(result := Some(WorkResult(row.result.value.summary, row.result.value.evidence, artifacts)), updatedAt := now)
  }

  /** A verification is stored with the first artifact of completed work that has the URL, and with no other. */
  lemma VerifiesIff(s: State, id: nat, url: string, verification: Verification, actor: Principal, i: nat)
    requires HasResult(s, id) ==> FirstNamed(s.rows[id].result.value.artifacts, url, i)
                                  || forall a :: a in s.rows[id].result.value.artifacts ==> a.url != url
    ensures var r := RecordVerification(s, id, url, verification, actor);
            && (r.Accepted? <==>
                  && HasResult(s, id) && FirstNamed(s.rows[id].result.value.artifacts, url, i)
                  && CanBeVerified(s.rows[id].result.value.artifacts[i]))
            && (r.Accepted? ==>
                  var was := s.rows[id].result.value.artifacts;
                  var now := was[i := was[i].(verification := Some(verification))];
                  Changed(s, id, Reporting(s.rows[id], now, s.clock), ArtifactVerified(url), actor, r.value))
  {
    if HasResult(s, id) {
      var artifacts := s.rows[id].result.value.artifacts;
      FoundFirst(artifacts, url);
      if FindArtifact(artifacts, url).Some? && FirstNamed(artifacts, url, i) {
        FirstNamedOnce(artifacts, url, i, FindArtifact(artifacts, url).value);
      }
    }
  }

  /** A verified artifact of the item's repository is added to completed work, under a URL it does not have. */
  lemma AttachesIff(s: State, id: nat, actor: Principal, artifact: Artifact, seen: Option<Precondition>)
    ensures var r := Attach(s, id, actor, artifact, seen);
            && (r.Accepted? <==>
                  && MayDecide(s, id, actor, seen) && HasResult(s, id)
                  && CanBeVerified(artifact) && artifact.verification.Some?
                  && artifact.within == Some(s.rows[id].repository)
                  && forall a :: a in s.rows[id].result.value.artifacts ==> a.url != artifact.url)
            && (r.Accepted? ==>
                  Changed(s, id,
                    Reporting(s.rows[id], s.rows[id].result.value.artifacts + [artifact], s.clock),
                    ArtifactAttached(artifact.url), actor, r.value))
  {
    if HasResult(s, id) {
      FoundFirst(s.rows[id].result.value.artifacts, artifact.url);
    }
  }

  /** The artifact is the pull request: GitHub's number for it wins over the one in its URL. */
  predicate NamesPull(a: Artifact, number: nat) {
    && a.kind == PullRequest
    && if a.verification.Some? && a.verification.value.Verified? && a.verification.value.number.Some? then
         a.verification.value.number.value == number
       else a.pull == Some(number)
  }

  predicate FirstPull(artifacts: seq<Artifact>, number: nat, i: nat) {
    && i < |artifacts| && NamesPull(artifacts[i], number)
    && forall j :: 0 <= j < i ==> !NamesPull(artifacts[j], number)
  }

  lemma {:induction false} FoundPull(artifacts: seq<Artifact>, number: nat)
    ensures match FindPull(artifacts, number)
            case None => forall a :: a in artifacts ==> !NamesPull(a, number)
            case Some(i) => FirstPull(artifacts, number, i)
  {
    if artifacts != [] && !NamesPull(artifacts[0], number) {
      FoundPull(artifacts[1..], number);
      match FindPull(artifacts[1..], number)
      case None =>
      case Some(i) =>
        forall j | 0 <= j < i + 1
          ensures !NamesPull(artifacts[j], number)
        {
          if j > 0 { assert !NamesPull(artifacts[1..][j - 1], number); }
        }
    }
  }

  lemma FirstPullOnce(artifacts: seq<Artifact>, number: nat, i: nat, j: nat)
    requires FirstPull(artifacts, number, i) && FirstPull(artifacts, number, j)
    ensures i == j
  {
  }

  /** The first artifact that is the pull request leaves draft, if verified; the event names head and review. */
  lemma ReadiesIff(s: State, id: nat, url: PullUrl, actor: Principal, head: string, reviewItem: nat, i: nat)
    requires HasResult(s, id) ==> FirstPull(s.rows[id].result.value.artifacts, url.number, i)
                                  || forall a :: a in s.rows[id].result.value.artifacts ==> !NamesPull(a, url.number)
    ensures var r := RecordReady(s, id, url, actor, head, reviewItem);
            && (r.Accepted? <==>
                  && (actor.Operator? || actor.Policy? || actor.Member?)
                  && HasResult(s, id) && FirstPull(s.rows[id].result.value.artifacts, url.number, i))
            && (r.Accepted? ==>
                  && |r.value.rows| == |s.rows| && r.value.rows[id].result.Some?
                  && var was, now := s.rows[id].result.value.artifacts, r.value.rows[id].result.value.artifacts;
                     && |now| == |was| && now == was[i := now[i]]
                     && now[i] == was[i].(verification := now[i].verification)
                     && (if was[i].verification.Some? && was[i].verification.value.Verified? then
                           now[i].verification == Some(was[i].verification.value.(asDraft := false))
                         else now[i].verification == was[i].verification)
                     && Changed(s, id, Reporting(s.rows[id], now, s.clock), ArtifactReady(url.text, head, reviewItem),
                          actor, r.value))
  {
    if HasResult(s, id) {
      var artifacts := s.rows[id].result.value.artifacts;
      FoundPull(artifacts, url.number);
      if FindPull(artifacts, url.number).Some? && FirstPull(artifacts, url.number, i) {
        FirstPullOnce(artifacts, url.number, i, FindPull(artifacts, url.number).value);
      }
    }
  }

  // ----- renaming ------------------------------------------------------------------------------------

  /** A rename moves the opt-in and every row of the old name to one not in use, and changes nothing else. */
  lemma RenamesIff(s: State, from: string, to: string, actor: Principal)
    ensures var r := Rename(s, from, to, actor);
            && (r.Accepted? <==>
                  && (actor.Operator? || actor.Policy? || actor.Member?)
                  && Lower(from) != Lower(to) && from in s.repos && to !in s.repos)
            && (r.Accepted? ==>
                  && |r.value.rows| == |s.rows|
                  && (forall i :: 0 <= i < |s.rows| ==>
                        r.value.rows[i] ==
                          s.rows[i].(repository := if s.rows[i].repository == from then to else s.rows[i].repository))
                  && (forall name :: name in r.value.repos <==> name == to || (name in s.repos && name != from))
                  && (forall name :: name in r.value.repos ==>
                        r.value.repos[name] == if name == to then s.repos[from] else s.repos[name])
                  && r.value == s.(rows := r.value.rows, repos := r.value.repos))
  {
  }
}
