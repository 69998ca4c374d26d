/** Whether claimed work can be completed at all. */
module Completion {
  import opened WorkTypes
  import opened Contracts
  import opened FollowUpIntent
  import opened QueueModel
  import opened QueueWrites
  import opened QueueInvariant
  import opened SampleRuns
  import opened ClaimRules
  import opened WorkerCalls
  import opened Lineages
  import RootCreation

  // ----- when one completion is accepted ---------------------------------------------------

  /** The item may report an artifact of the kind, and the artifact is one of its repository. */
  predicate Reportable(row: Row, a: Artifact) {
    && (a.kind == Issue ==> OpenIssue in row.def.allowed)
    && (a.kind == PullRequest ==> OpenPr in row.def.allowed)
    && (a.kind == Commit ==> Write in row.def.allowed)
    && (a.kind in {Issue, PullRequest, Commit, ArtifactKind.Release} ==> a.within == Some(row.repository))
  }

  /** A verdict comes with a review and with nothing else; it blocks on something, and passes only on nothing. */
  predicate VerdictDue(row: Row, verdict: Option<Verdict>) {
    if row.def.kind != REVIEW_KIND then verdict.None?
    else
      && row.review.Some? && verdict.Some?
      && var v := verdict.value;
         && RootCreation.BlockersListed(v.blockers)
         && |v.advisories| <= 3 && (forall a :: a in v.advisories ==> !Blank(a))
         && (v.decision == Decision.Block ==> v.blockers != [])
         && (v.decision == Pass ==> v.blockers == [])
  }

  predicate ResultStated(result: WorkResult) {
    && !Blank(result.summary)
    && (forall e :: e in result.evidence ==> !Blank(e))
    && forall a :: a in result.artifacts && a.verification.Some? ==>
         a.kind in {Issue, PullRequest, ArtifactKind.Release}
  }

  lemma ResultStatedMeans(result: WorkResult)
    ensures ResultOk(result) <==> ResultStated(result)
  {
    assert forall k :: 0 <= k < |result.artifacts| ==> result.artifacts[k] in result.artifacts;
    assert forall k :: 0 <= k < |result.evidence| ==> result.evidence[k] in result.evidence;
  }

  lemma {:induction false} AllPermitted(row: Row, artifacts: seq<Artifact>)
    ensures ArtifactsProblem(row, artifacts).None? <==> forall a :: a in artifacts ==> Reportable(row, a)
  {
    if artifacts != [] {
      AllPermitted(row, artifacts[1..]);
      assert artifacts == [artifacts[0]] + artifacts[1..];
      OnePermitted(row, artifacts[0]);
    }
  }

  lemma OnePermitted(row: Row, a: Artifact)
    ensures ArtifactProblem(row, a).None? <==> Reportable(row, a)
  {
    match a.kind
    case Issue =>
    case PullRequest =>
    case Release =>
    case Commit =>
    case Report =>
    case OtherArtifact =>
  }

  lemma VerdictDueMeans(row: Row, verdict: Option<Verdict>)
    ensures ReviewProblem(row, verdict).None? <==> VerdictDue(row, verdict)
  {
    if verdict.Some? {
      var v := verdict.value;
      RootCreation.ListedIff(v.blockers);
      assert forall k :: 0 <= k < |v.advisories| ==> v.advisories[k] in v.advisories;
    }
  }

  lemma ReportedMeans(row: Row, artifacts: seq<Artifact>)
    ensures RequiredArtifactReported(row, artifacts) <==>
              (row.def.required == RequiredPullRequest ==> exists a :: a in artifacts && a.kind == PullRequest)
  {
    if a :| a in artifacts && a.kind == PullRequest {
      var k :| 0 <= k < |artifacts| && artifacts[k] == a;
    }
    if k :| 0 <= k < |artifacts| && artifacts[k].kind == PullRequest {
      assert artifacts[k] in artifacts;
    }
  }

  /** The item may propose, and its children would not sit deeper than four edges. */
  predicate MayPropose(rows: seq<Row>, id: nat)
    requires id < |rows|
  {
    CreateFollowup in rows[id].def.allowed && Depth(rows, id) < 4
  }

  /**
   * One completion is accepted exactly when its worker holds the lease, its
   * result is stated, it reports the pull request the item owes, every
   * artifact it reports is one the item may produce in its repository, its
   * verdict is the one due, and - if it proposes anything - the item may
   * propose and the store takes each of the at most ten proposals.
   */
  lemma CompletionAcceptedIff(s: State, op: Op)
    requires op.OpComplete?
    ensures Perform(s, op).Accepted? <==>
            && HeldUnder(s, op.id, op.token, op.worker)
            && ResultStated(op.result)
            && var row := s.rows[op.id];
               && (row.def.required == RequiredPullRequest ==>
                     exists a :: a in op.result.artifacts && a.kind == PullRequest)
               && (forall a :: a in op.result.artifacts ==> Reportable(row, a))
               && VerdictDue(row, op.verdict)
               && |op.followUps| <= 10
               && (op.followUps != [] ==> MayPropose(s.rows, op.id))
               && forall k :: 0 <= k < |op.followUps| ==> TakesFollowUp(s, row, op.followUps[k], op.worker)
  {
    hide LeaseRefusal, HeldUnder, ArtifactsProblem, ReviewProblem, VerdictDue, Reportable, ResultOk, ResultStated,
      RequiredArtifactReported, TakesFollowUp, AddFollowUps, Finish, EnqueueBatch, Approve;
    HeldIff(s, op.id, op.token, op.worker);
    ResultStatedMeans(op.result);
    if op.id < |s.rows| {
      var row := s.rows[op.id];
      AllPermitted(row, op.result.artifacts);
      ReportedMeans(row, op.result.artifacts);
      VerdictDueMeans(row, op.verdict);
      FollowUpsAcceptedIff(s, op.id, row, op.followUps, op.worker);
      if AddFollowUps(s, op.id, row, op.followUps, op.worker).Accepted? {
        FollowUpsAreChildren(s, op.id, row, op.followUps, op.worker);
      }
    }
    if HeldUnder(s, op.id, op.token, op.worker) { HeldExists(s, op.id, op.token, op.worker); }
  }

  lemma HeldExists(s: State, id: nat, token: nat, worker: Principal)
    requires HeldUnder(s, id, token, worker)
    ensures id < |s.rows| && worker.Works()
  {
  }

  // ----- whether anything can be completed ---------------------------------------------------

  /** The plainest result a contract asks for: a summary, and the pull request if one is owed. */
  function PlainResult(row: Row): WorkResult {
    WorkResult("done", [],
      if row.def.required == RequiredPullRequest then
        [Artifact(PullRequest, "https://github.com/" + row.repository + "/pull/1", Some(row.repository), Some(1), None)]
      else
        [])
  }

  function PlainVerdict(row: Row): Option<Verdict> {
    if row.def.kind == REVIEW_KIND then Some(Verdict(Pass, [], [])) else None
  }

  lemma PlainResultFits(row: Row)
    requires row.def.required == RequiredPullRequest ==> OpenPr in row.def.allowed
    ensures ResultOk(PlainResult(row))
    ensures ArtifactsProblem(row, PlainResult(row).artifacts).None?
    ensures RequiredArtifactReported(row, PlainResult(row).artifacts)
  {
    assert !Blank("done") by { assert "done"[0] == 'd'; }
    if row.def.required == RequiredPullRequest {
      assert PlainResult(row).artifacts[0].kind == PullRequest;
      assert PlainResult(row).artifacts[1..] == [];
    }
  }

  lemma PlainCompletionFits(s: State, id: nat, worker: Principal)
    requires id < |s.rows| && (s.rows[id].def.kind == REVIEW_KIND ==> s.rows[id].review.Some?)
    requires s.rows[id].def.required == RequiredPullRequest ==> OpenPr in s.rows[id].def.allowed
    ensures CompleteUnderLease(s, id, worker, PlainResult(s.rows[id]), [], PlainVerdict(s.rows[id])).Accepted?
  {
    PlainResultFits(s.rows[id]);
  }

  /**
   * In every run, work under a live lease can be completed by its holder
   * exactly when it is not a review without a review record: every stored
   * contract is one somebody can meet, except that a root or follow-up may
   * take the review kind without the record only the gate writes.
   */
  lemma CompletableIff(trace: seq<State>, ops: seq<Op>, i: nat, id: nat, token: nat)
    requires Run(trace, ops) && i < |trace| && Active(trace[i], id, token)
    ensures var s := trace[i]; var row := s.rows[id];
            (exists result, verdict ::
               Complete(s, id, token, row.lease.value.owner, result, [], verdict).Accepted?) <==>
              (row.def.kind == REVIEW_KIND ==> row.review.Some?)
  {
    hide Run, Perform, Inv, Complete;
    RunHolds(trace, ops, i);
    CompletableHere(trace[i], id, token);
  }

  lemma CompletableHere(s: State, id: nat, token: nat)
    requires Inv(s) && Active(s, id, token)
    ensures var row := s.rows[id];
            (exists result, verdict ::
               Complete(s, id, token, row.lease.value.owner, result, [], verdict).Accepted?) <==>
              (row.def.kind == REVIEW_KIND ==> row.review.Some?)
  {
    hide Finish, AddFollowUp, LedgerOk, TokensOk, RefsOk, AgesOk;
    var row := s.rows[id];
    var owner := row.lease.value.owner;
    assert RowShape(row) && owner.Works();
    if row.def.kind == REVIEW_KIND ==> row.review.Some? {
      assert ContractOk(s.rows, id);
      AcceptedIffDeliverable(TermsOf(row, DelegableOf(s.rows, row.def.parent)));
      PlainCompletionFits(s, id, owner);
      PlainResultFits(row);
      assert LeaseRefusal(s, id, token, owner).None?;
      assert Complete(s, id, token, owner, PlainResult(row), [], PlainVerdict(row)).Accepted?;
    } else {
      forall result, verdict
        ensures Complete(s, id, token, owner, result, [], verdict).Refused?
      {
        assert ReviewProblem(row, verdict).Some?;
      }
    }
  }

  /** No completion of the item under the token is accepted, whoever asks. */
  ghost predicate NeverCompletes(s: State, id: nat, token: nat) {
    forall worker, result, followUps, verdict :: Complete(s, id, token, worker, result, followUps, verdict).Refused?
  }

  lemma RecordlessReviewNeverCompletes(s: State, id: nat, token: nat)
    requires id < |s.rows| && s.rows[id].def.kind == REVIEW_KIND && s.rows[id].review.None?
    ensures NeverCompletes(s, id, token)
  {
    forall worker, result, followUps, verdict
      ensures Complete(s, id, token, worker, result, followUps, verdict).Refused?
    {
      assert ReviewProblem(s.rows[id], verdict).Some?;
    }
  }

  /** A run that ends with work nobody can complete: a root seeded with the review kind is claimed. */
  lemma ClaimedWorkCanBeStuck()
    ensures exists s: State :: Reached(s) && Active(s, 0, 0) && NeverCompletes(s, 0, 0)
  {
    hide Reached, RunTo;
    BriefStated();
    var s := SeedClaimed(REVIEW_KIND);
    RecordlessReviewNeverCompletes(s, 0, 0);
    assert Reached(s) && Active(s, 0, 0) && NeverCompletes(s, 0, 0);
  }
}
