/** When a root may be created, told from what its creator supplies, and the row and event it is created with. */
module RootCreation {
  import opened WorkTypes
  import opened Contracts
  import opened QueueModel
  import opened QueueWrites
  import opened Governance

  // ----- what a creator may supply ---------------------------------------------------------

  /** Somebody can deliver the root: it only reads and owes nothing, or it changes and owes its pull request. */
  predicate Deliverable(root: Root, bound: bool) {
    if root.target == ReadOnly then
      && Write !in root.allowed && OpenPr !in root.allowed
      && root.required != Some(RequiredPullRequest)
      && root.kind != "pr-cure-change"
    else
      && Write in root.allowed && OpenPr in root.allowed
      && root.required == Some(RequiredPullRequest)
      && !EndsWith(root.kind, "-discovery")
      && (root.kind == "pr-cure-change" ==> root.target == ExistingPullRequest)
      && (root.target == ExistingPullRequest ==> bound)
  }

  predicate Described(root: Root, bound: bool) {
    && KindOk(root.kind)
    && (root.priority.Some? ==> -0x1F_FFFF_FFFF_FFFF <= root.priority.value <= 0x1F_FFFF_FFFF_FFFF)
    && !Blank(root.brief.objective) && !Blank(root.brief.instructions) && root.brief.criteria != []
    && (forall i :: 0 <= i < |root.brief.criteria| ==> !Blank(root.brief.criteria[i]))
    && Deliverable(root, bound)
  }

  lemma DescribedIff(root: Root, bound: bool)
    ensures RootProblem(root, bound).None? <==> Described(root, bound)
  {
    AcceptedIffDeliverable(
      Terms(root.kind, root.allowed, None, Required(root), Some(root.target), bound, false, None));
  }

  /** The registry of mechanical admission: three kinds, each with the actions it may carry. */
  predicate Registered(kind: string, allowed: seq<Action>) {
    || (kind == "pr-cure" && OpenIssue !in allowed)
    || (kind == "pr-review" && forall a :: a in allowed ==> a in {Read, RunTests})
    || (kind == "pr-review-fix" && forall a :: a in allowed ==> a in {Read, Write, RunTests, OpenPr})
  }

  /** A configured policy authority vouches for the repository and grants every action. */
  predicate PolicyPermits(s: State, repository: string, allowed: seq<Action>, delegable: seq<Action>) {
    s.authorities.Some? ==>
      && repository in s.authorities.value
      && forall a :: a in allowed || a in delegable ==> PolicyGrants(s.authorities.value[repository], a)
  }

  /** So is the root; admitted on creation it is a human's, or inside the registry. */
  predicate Vouched(s: State, repository: string, root: Root, admitted: bool) {
    && PolicyPermits(s, repository, root.allowed, root.delegable)
    && (s.authorities.Some? && admitted ==>
          root.createdBy.Operator? || root.createdBy.Member? || Registered(root.kind, root.allowed))
  }

  /** The action is inside the ceiling and not denied, by its own entry or by default. */
  predicate PolicyGrants(authority: PolicyAuthority, a: Action) {
    && a in authority.ceiling
    && (if a in authority.decisions then authority.decisions[a] != Deny else authority.defaultDecision != Deny)
  }

  lemma VouchedIff(s: State, repository: string, root: Root, admitted: bool)
    ensures BindPolicy(s, repository, root.kind, root.allowed, root.delegable, root.createdBy, admitted).Accepted? <==>
            Vouched(s, repository, root, admitted)
  {
    if s.authorities.Some? {
      var def := Definition(0, None, root.kind, root.brief, root.allowed, root.delegable, NoArtifact, None,
        root.createdBy, s.clock, None, None);
      BindingAcceptedIff(s, repository, def, admitted);
      RegisteredIff(root.kind, root.allowed);
    }
  }

  lemma RegisteredIff(kind: string, allowed: seq<Action>)
    ensures Registered(kind, allowed) <==>
            StandingFor(kind).Some? && Subset(allowed, StandingFor(kind).value.actions)
  {
    if kind == CURE_KIND {
      forall a | a in allowed
        ensures a in StandingFor(kind).value.actions <==> a != OpenIssue
      {
        match a
        case Read => assert StandingFor(kind).value.actions[0] == a;
        case Write => assert StandingFor(kind).value.actions[1] == a;
        case RunTests => assert StandingFor(kind).value.actions[2] == a;
        case OpenPr => assert StandingFor(kind).value.actions[3] == a;
        case CreateFollowup => assert StandingFor(kind).value.actions[4] == a;
        case OpenIssue =>
      }
    } else if kind == REVIEW_KIND {
      ShortEntry(StandingFor(kind).value.actions, {Read, RunTests});
    } else if kind == REVIEW_FIX_KIND {
      ShortEntry(StandingFor(kind).value.actions, {Read, Write, RunTests, OpenPr});
    }
  }

  lemma ShortEntry(actions: seq<Action>, members: set<Action>)
    requires || (actions == [Read, RunTests] && members == {Read, RunTests})
             || (actions == [Read, Write, RunTests, OpenPr] && members == {Read, Write, RunTests, OpenPr})
    ensures forall a :: a in actions <==> a in members
  {
    assert actions[0] == Read && actions[|actions| - 1] in {RunTests, OpenPr};
    if |actions| == 4 { assert actions[1] == Write && actions[2] == RunTests; }
  }

  predicate OptedIn(s: State, repository: string) {
    repository in s.repos && s.repos[repository]
  }

  predicate AlreadyThere(s: State, repository: string, ref: SourceRef) {
    exists i :: 0 <= i < |s.rows| && s.rows[i].repository == repository && s.rows[i].def.sourceRef == Some(ref)
  }

  // ----- what is stored ------------------------------------------------------------------------

  /** The edges are the references declared, each of them and no other; none when none are. */
  ghost predicate EdgesDeclared(declared: Option<seq<SourceRef>>, edges: Option<set<SourceRef>>) {
    if declared.None? || declared.value == [] then edges.None?
    else edges.Some? && forall ref :: ref in edges.value <==> ref in declared.value
  }

  /** Column by column the row of a new root: what was given, its policy record apart, and nothing else. */
  ghost predicate RootStored(row: Row, id: nat, now: int, repository: string, root: Root, admitted: bool,
    ref: Option<SourceRef>, cure: Option<Cure>, review: Option<Review>)
  {
    && row.def.rootId == id && row.def.parent.None?
    && row.def.kind == root.kind && row.def.brief == root.brief
    && row.def.allowed == root.allowed && row.def.delegable == root.delegable
    && row.def.required == (if root.required.Some? then root.required.value else NoArtifact)
    && row.def.target == Some(root.target)
    && row.def.createdBy == root.createdBy && row.def.createdAt == row.updatedAt == now
    && row.def.sourceRef == ref && row.def.cure == cure && row.review == review
    && row.repository == repository
    && row.priority == (if root.priority.Some? then root.priority.value else 0)
    && row.stored == Queued && row.admitted == admitted
    && EdgesDeclared(root.predecessors, row.predecessors)
    && row.lease.None? && row.result.None? && row.notes == [] && row.previous == []
  }

  /** One root was created, with one event of its creator; a proposed root's event names its edges. */
  ghost predicate RootCreated(s: State, repository: string, root: Root, admitted: bool, ref: Option<SourceRef>,
    cure: Option<Cure>, review: Option<Review>, t: State)
  {
    var id := |s.rows|;
    && |t.rows| == id + 1
    && RootStored(t.rows[id], id, s.clock, repository, root, admitted, ref, cure, review)
    && t == s.(
         rows := s.rows + [t.rows[id]],
         ledger := s.ledger + [Event(|s.ledger| + 1, id, root.createdBy, s.clock,
           if admitted then WorkQueued else WorkProposed(t.rows[id].predecessors))])
  }

  lemma InsertRootCreates(s: State, repository: string, root: Root, admitted: bool, ref: Option<SourceRef>,
    predecessors: Option<set<SourceRef>>, cure: Option<Cure>, review: Option<Review>)
    requires EdgesDeclared(root.predecessors, predecessors)
    ensures var r := InsertRoot(s, repository, root, admitted, ref, predecessors, cure, review);
            && (r.Accepted? <==> Vouched(s, repository, root, admitted))
            && (r.Accepted? ==> RootCreated(s, repository, root, admitted, ref, cure, review, r.value))
  {
    hide BindPolicy, Vouched;
    VouchedIff(s, repository, root, admitted);
  }

  // ----- seeds, cures and reviews ------------------------------------------------------------------

  /** A seed is taken exactly when it is described, waits for nothing, and its repository and policy let it in. */
  lemma SeedCreatesIff(s: State, repository: string, root: Root)
    ensures var r := EnqueueSeed(s, repository, root);
            && (r.Accepted? <==>
                  && Described(root, false) && root.predecessors.None?
                  && OptedIn(s, repository) && Vouched(s, repository, root, true))
            && (r.Accepted? ==> RootCreated(s, repository, root, true, None, None, None, r.value))
  {
    hide RootProblem, Described, InsertRoot, Vouched, RootCreated;
    DescribedIff(root, false);
    if root.predecessors.None? {
      InsertRootCreates(s, repository, root, true, None, None, None, None);
    }
  }

  /** What creating a root under a reference leaves: nothing new when the reference is taken. */
  ghost predicate CreatedOnce(s: State, repository: string, root: Root, ref: SourceRef, cure: Option<Cure>,
    review: Option<Review>, r: Checked<State>)
  {
    && (r.Accepted? <==> AlreadyThere(s, repository, ref) || Vouched(s, repository, root, true))
    && (r.Accepted? ==>
          if AlreadyThere(s, repository, ref) then r.value == s
          else RootCreated(s, repository, root, true, Some(ref), cure, review, r.value))
  }

  /** A cure is a described `pr-cure` root that names decay and waits for nothing; each reference has one. */
  lemma CureCreatesIff(s: State, repository: string, root: Root, ref: SourceRef, cure: Cure)
    ensures var r := EnqueueCure(s, repository, root, ref, cure);
            if && cure.decay != {} && root.kind == "pr-cure" && root.predecessors.None?
               && Described(root, true) && OptedIn(s, repository)
            then CreatedOnce(s, repository, root, ref, Some(cure), None, r)
            else r.Refused?
  {
    hide RootProblem, Described, InsertRoot, Vouched, RootCreated;
    DescribedIff(root, true);
    if root.predecessors.None? {
      InsertRootCreates(s, repository, root, true, Some(ref), None, Some(cure), None);
    }
  }

  /** At most five blockers, each with a text and a fingerprint of its own. */
  predicate BlockersListed(blockers: seq<Blocker>) {
    && |blockers| <= 5
    && (forall b :: b in blockers ==> !Blank(b.fingerprint) && !Blank(b.text))
    && (forall i, j :: 0 <= i < |blockers| && 0 <= j < |blockers| && i != j ==>
          blockers[i].fingerprint != blockers[j].fingerprint)
  }

  /** A review may read and run tests; a fix carries its four actions once each, and names its review. */
  predicate GateShaped(root: Root, review: Review) {
    && review.round >= 1 && BlockersListed(review.priorBlockers) && BlockersListed(review.blockers)
    && root.delegable == []
    && if root.kind == "pr-review" then Write !in root.allowed && OpenPr !in root.allowed
            && OpenIssue !in root.allowed && CreateFollowup !in root.allowed
       else
         && root.kind == "pr-review-fix"
         && multiset(root.allowed) == multiset{Read, Write, RunTests, OpenPr}
         && review.reviewItem.Some?
  }

  lemma GateShapedIff(root: Root, review: Review)
    ensures ReviewOk(review) && GateRootOk(root, review) <==> GateShaped(root, review)
  {
    assert multiset([Read, Write, RunTests, OpenPr]) == multiset{Read, Write, RunTests, OpenPr};
    assert [Read, RunTests][0] == Read && [Read, RunTests][1] == RunTests;
    forall a
      ensures a in [Read, RunTests] <==>
              a != Write && a != OpenPr && a != OpenIssue && a != CreateFollowup
    {
    }
    ListedIff(review.priorBlockers);
    ListedIff(review.blockers);
  }

  lemma ListedIff(blockers: seq<Blocker>)
    ensures BlockersOk(blockers) <==> BlockersListed(blockers)
  {
    forall b | b in blockers
      ensures exists i :: 0 <= i < |blockers| && blockers[i] == b
    {
    }
  }

  /** A gate root is of one of the two shapes, is described and waits for nothing; each reference has one. */
  lemma ReviewCreatesIff(s: State, repository: string, root: Root, ref: SourceRef, review: Review)
    ensures var r := EnqueueReview(s, repository, root, ref, review);
            if GateShaped(root, review) && root.predecessors.None? && Described(root, true) && OptedIn(s, repository)
            then CreatedOnce(s, repository, root, ref, None, Some(review), r)
            else r.Refused?
  {
    hide RootProblem, Described, InsertRoot, Vouched, RootCreated, ReviewOk, GateRootOk, GateShaped;
    DescribedIff(root, true);
    GateShapedIff(root, review);
    if root.predecessors.None? {
      InsertRootCreates(s, repository, root, true, Some(ref), None, None, Some(review));
    }
  }
}
