/** Delivery of completed work: the state shown to readers, and the test dependents wait for. */
module Delivery {
  import opened WorkTypes
  import opened QueueModel
  import opened SampleRuns

  datatype DeliveryState = NothingToDeliver | DeliveryUnverified | DeliveryOpen | DeliveryClosed | DeliveryMerged
    | DeliveryPublished

  /** Among artifacts of one kind, whether some is verified in the state. */
  predicate SomeIn(artifacts: seq<Artifact>, kind: ArtifactKind, state: Observed) {
    exists i :: 0 <= i < |artifacts| && artifacts[i].kind == kind
      && artifacts[i].verification.Some? && artifacts[i].verification.value.Verified?
         && artifacts[i].verification.value.state == state
  }

  predicate SomeUnverified(artifacts: seq<Artifact>, kind: ArtifactKind) {
    exists i :: 0 <= i < |artifacts| && artifacts[i].kind == kind
      && (artifacts[i].verification.None? || artifacts[i].verification.value.Unverified?)
  }

  predicate SomeOf(artifacts: seq<Artifact>, kind: ArtifactKind) {
    exists i :: 0 <= i < |artifacts| && artifacts[i].kind == kind
  }

  /** A release, where one is reported, decides; else the pull requests do. */
  function DeriveDelivery(artifacts: seq<Artifact>): DeliveryState {
    if SomeOf(artifacts, Release) then
      if SomeIn(artifacts, Release, Published) then DeliveryPublished
      else if SomeUnverified(artifacts, Release) then DeliveryUnverified
      else DeliveryOpen
    else if !SomeOf(artifacts, PullRequest) then NothingToDeliver
    else if SomeIn(artifacts, PullRequest, Merged) then DeliveryMerged
    else if SomeUnverified(artifacts, PullRequest) then DeliveryUnverified
    else if SomeIn(artifacts, PullRequest, Observed.Open) then DeliveryOpen
    else DeliveryClosed
  }

  /** The state reads as done. */
  predicate ShownDone(state: DeliveryState) {
    state == NothingToDeliver || state == DeliveryMerged || state == DeliveryPublished
  }

  /** The states GitHub verified artifacts of the kind in; `None` for one it did not verify. */
  function StatesOf(artifacts: seq<Artifact>, kind: ArtifactKind): set<Option<Observed>> {
    set a | a in artifacts && a.kind == kind ::
      if a.verification.Some? && a.verification.value.Verified? then Some(a.verification.value.state) else None
  }

  /**
   * The state shown depends only on which states the releases, or where there
   * are none the pull requests, are in: the best of them wins, but one that
   * GitHub did not verify hides every state short of the best.
   */
  lemma ShownStateMeans(artifacts: seq<Artifact>)
    ensures var shown := DeriveDelivery(artifacts);
            var releases, pulls := StatesOf(artifacts, Release), StatesOf(artifacts, PullRequest);
            && (shown == DeliveryPublished <==> Some(Published) in releases)
            && (shown == DeliveryMerged <==> releases == {} && Some(Merged) in pulls)
            && (shown == NothingToDeliver <==> releases == {} && pulls == {})
            && (shown == DeliveryUnverified <==>
                  var deciding, best :=
                    if releases == {} then pulls else releases, if releases == {} then Merged else Published;
                  None in deciding && Some(best) !in deciding)
            && (shown == DeliveryOpen <==>
                  if releases == {} then
                    Some(Observed.Open) in pulls && None !in pulls && Some(Merged) !in pulls
                  else None !in releases && Some(Published) !in releases)
  {
    StatesMean(artifacts, Release);
    StatesMean(artifacts, PullRequest);
  }

  lemma StatesMean(artifacts: seq<Artifact>, kind: ArtifactKind)
    ensures StatesOf(artifacts, kind) == {} <==> !SomeOf(artifacts, kind)
    ensures None in StatesOf(artifacts, kind) <==> SomeUnverified(artifacts, kind)
    ensures forall state :: Some(state) in StatesOf(artifacts, kind) <==> SomeIn(artifacts, kind, state)
  {
    var states := StatesOf(artifacts, kind);
    if i :| 0 <= i < |artifacts| && artifacts[i].kind == kind {
      var a := artifacts[i];
      assert (if a.verification.Some? && a.verification.value.Verified? then Some(a.verification.value.state)
              else None) in states;
    }
  }

  predicate AllDelivered(artifacts: seq<Artifact>) {
    forall i :: 0 <= i < |artifacts| ==> ArtifactDelivered(artifacts[i])
  }

  /** What dependents may wait for is always shown done. */
  lemma DeliveredIsShownDone(artifacts: seq<Artifact>)
    requires AllDelivered(artifacts)
    ensures ShownDone(DeriveDelivery(artifacts))
    ensures SomeOf(artifacts, Release) ==> DeriveDelivery(artifacts) == DeliveryPublished
  {
    if SomeOf(artifacts, Release) {
      var i :| 0 <= i < |artifacts| && artifacts[i].kind == Release;
      assert ArtifactDelivered(artifacts[i]);
      assert SomeIn(artifacts, Release, Published);
    } else if SomeOf(artifacts, PullRequest) {
      var i :| 0 <= i < |artifacts| && artifacts[i].kind == PullRequest;
      assert ArtifactDelivered(artifacts[i]);
      assert SomeIn(artifacts, PullRequest, Merged);
    }
  }

  /** Every artifact of the kind is verified in the state. */
  predicate EveryIn(artifacts: seq<Artifact>, kind: ArtifactKind, state: Observed) {
    forall i :: 0 <= i < |artifacts| && artifacts[i].kind == kind ==>
      && artifacts[i].verification.Some?
      && artifacts[i].verification.value.Verified?
      && artifacts[i].verification.value.state == state
  }

  /** What decides the shown state: a published release, or a merged pull request where none is released. */
  predicate Decided(artifacts: seq<Artifact>) {
    if SomeOf(artifacts, Release) then SomeIn(artifacts, Release, Published) else SomeIn(artifacts, PullRequest, Merged)
  }

  lemma ShownDoneMeans(artifacts: seq<Artifact>)
    ensures ShownDone(DeriveDelivery(artifacts)) <==>
              Decided(artifacts) || (!SomeOf(artifacts, Release) && !SomeOf(artifacts, PullRequest))
  {
  }

  /**
   * The state shown and the test dependents wait for agree exactly when what
   * decides the one settles the other: if a release is published, or a pull
   * request merged and nothing released, then every release is published and
   * every pull request merged.
   */
  lemma ShownAgreesIff(artifacts: seq<Artifact>)
    ensures (ShownDone(DeriveDelivery(artifacts)) <==> AllDelivered(artifacts)) <==>
              (Decided(artifacts) ==>
                EveryIn(artifacts, Release, Published) && EveryIn(artifacts, PullRequest, Merged))
  {
    ShownDoneMeans(artifacts);
    DeliveredMeans(artifacts);
    if AllDelivered(artifacts) { DeliveredIsShownDone(artifacts); }
  }

  lemma DeliveredMeans(artifacts: seq<Artifact>)
    ensures AllDelivered(artifacts) <==>
              EveryIn(artifacts, Release, Published) && EveryIn(artifacts, PullRequest, Merged)
  {
    if EveryIn(artifacts, Release, Published) && EveryIn(artifacts, PullRequest, Merged) {
      forall i | 0 <= i < |artifacts|
        ensures ArtifactDelivered(artifacts[i])
      {
      }
    }
    if AllDelivered(artifacts) {
      forall i | 0 <= i < |artifacts|
        ensures artifacts[i].kind == Release ==> artifacts[i].verification.Some?
        ensures artifacts[i].kind == PullRequest ==> artifacts[i].verification.Some?
      {
        assert ArtifactDelivered(artifacts[i]);
      }
      assert forall i :: 0 <= i < |artifacts| ==> ArtifactDelivered(artifacts[i]);
    }
  }

  predicate Counts(a: Artifact) {
    a.kind == PullRequest || a.kind == Release
  }

  /** So they agree while at most one pull request or release is reported. */
  lemma AgreeOnOne(artifacts: seq<Artifact>)
    requires forall i, j :: 0 <= i < j < |artifacts| ==> !(Counts(artifacts[i]) && Counts(artifacts[j]))
    ensures ShownDone(DeriveDelivery(artifacts)) <==> AllDelivered(artifacts)
  {
    ShownAgreesIff(artifacts);
    if Decided(artifacts) {
      var i :| 0 <= i < |artifacts| && Counts(artifacts[i]) && ArtifactDelivered(artifacts[i]);
      assert forall j :: 0 <= j < |artifacts| && Counts(artifacts[j]) ==> j == i;
    }
  }

  const MERGED_PULL: Artifact := Artifact(PullRequest, "https://github.com/o/r/pull/1", Some("o/r"), Some(1),
    Some(Verified(Merged, false, Some(1))))
  const PUBLISHED_RELEASE: Artifact := Artifact(Release, "https://github.com/o/r/releases/tag/v1", Some("o/r"), None,
    Some(Verified(Published, false, None)))

  /**
   * With two they can part, either way the state is decided: one merged pull
   * request beside an open one is shown merged, and a published release beside
   * an open pull request is shown published; neither is delivered.
   */
  lemma ShownDoneButUndelivered()
    ensures DeriveDelivery([MERGED_PULL, OPEN_PULL]) == DeliveryMerged && !AllDelivered([MERGED_PULL, OPEN_PULL])
    ensures DeriveDelivery([PUBLISHED_RELEASE, OPEN_PULL]) == DeliveryPublished
    ensures !AllDelivered([PUBLISHED_RELEASE, OPEN_PULL])
  {
    var pulls, released := [MERGED_PULL, OPEN_PULL], [PUBLISHED_RELEASE, OPEN_PULL];
    assert pulls[0] == MERGED_PULL && pulls[1] == OPEN_PULL;
    assert released[0] == PUBLISHED_RELEASE && released[1] == OPEN_PULL;
    assert SomeIn(pulls, PullRequest, Merged) && SomeIn(released, Release, Published) && SomeOf(released, Release);
    assert !ArtifactDelivered(pulls[1]) && !ArtifactDelivered(released[1]);
  }
}
