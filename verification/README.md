# Snowcat work queue, verified

A model of the durable work queue, with the review gate that runs on it and three
self-contained pieces of the control plane, in Dafny 4.11. `dafny verify dfyconfig.toml`
checks the whole project.

## What is modelled

**The queue** (`src/queue/store.ts`). Items move through proposed, queued, claimed,
completed, blocked and cancelled under workers holding lease tokens, operators, and
mechanical feeders; every transaction appends to an event ledger.

* `QueueModel` gives each transaction as a function on the state: the state it commits or the
  reason it is refused, in the order the store checks. `Run` is any sequence of transactions,
  clock ticks, and hook changes from an empty database.
* `QueueWrites` breaks every transaction into lawful writes, each one row change with its
  event, one new row with its creation event, a rename, or a move of the environment.
* `LedgerReplay` reads one item's ledger. `QueueInvariant` proves the invariant write by write
  and carries it over chains, steps, and runs.
* `OpEvents` says which events each transaction may record, and of which item.
* `RootCreation`, `BatchRules`, `SequencedWork`, `ClaimRules`, `WorkerCalls`, `Completion`, and `Decisions`
  say of each transaction, from the fields of its arguments and the tables alone, exactly when it is
  accepted and exactly what it then leaves.
* `LedgerTheorems`, `Lifecycle`, `LeaseFencing`, `ClaimBackoff`, `Attempts`, `AttemptRules`, `ClaimOrder`,
  `Lineages`, `Predecessors`, `Delivery`, `Governance`, `Cooldown`, and `Feeders` hold the results over
  histories and runs.
* `SampleRuns` builds the short runs in which a stronger claim fails.
* `QueueStore` is the store as a class: its methods update the tables in place, loop where the
  store loops, roll back on refusal, and are proved to leave exactly the state `QueueModel`
  gives. Its `Valid()` says that some run ends in the object's state, so every result about runs
  is a result about the object.

**The contract compiler** (`src/queue/follow-up-intent.ts`): `Contracts` and `FollowUpIntent`.

**The review gate** (`src/queue/pull-request-review.ts`). `ReviewGate` is the decision for one
head and the protocol: a sweep reads and decides, anything may happen to the queue, then it
enqueues. `GateOutcomes` says of each outcome exactly when the rows warrant it, and what it leaves
in the queue. `ReviewBudget` and `FixBudget` prove the round and fix budget over every run of that
protocol; `FixSpellings` builds the runs that exhaust the fixes, and `BudgetConditions` those that
break the budget once one of its conditions is dropped.
`ReadyMarking` and `ReviewSweep` run one pull request's turn against the store and a GitHub
object that moves on its own between any two calls and keeps the list of calls made.

**Canonical JSON** (`src/control/encoding.ts`), **the delivery audit**
(`src/github/delivery-api.ts`), and **retention** (`src/control/check-detail-retention.ts`) are
`CanonicalJson` with `JsonReading`, `LinkHeader` with `DeliveryAudit`, and `Retention`.

## Where the code and what is said of it part

* Requeue keeps every block result, but a blocked item that is cancelled or retired loses its
  last one from the row: the reason takes its place (`BlocksCarriedIff`, `CancellationOverwritesIff`;
  `BlockResultCanBeLost` is such a run).
* The contract audit, on items created through the store, can only ever report a missing
  policy binding (`AuditFindsOnlyUnbound`).
* A root or follow-up may take the kind `pr-review` outside the gate; it carries no review record
  and can be claimed but never completed (`CompletableIff`; `ClaimedWorkCanBeStuck` is such a run).
* Review rounds are described as counted per URL; the code counts them per repository and
  pull-request number. The fix budget, in contrast, rests on the source reference, which carries the
  URL as spelled: a pull request gets at most two fixes per spelling (`AtMostTwoFixesPerSpelling`), an
  accepted fix is created exactly when its round has none under its spelling (`FixAddedIff`), and
  with more spellings one verdict is fixed more than once (`EverySpellingIsFixedTwice`).
* The review budget needs what its name does not say: no operator requeues or defers gate work, and
  no repository is renamed between a sweep's read and its enqueue (`ReviewGate.Permitted`, with
  `RequeueKeepsOneInFlightIff`, `ReapprovalKeepsOneInFlightIff` and `RenameKeepsPlanIff`;
  `RequeueBreaksBudget` and `RenameBreaksBudget` are runs that break it).
* The delivery state shown to readers can be merged or published while dependents still wait
  (`ShownDoneButUndelivered`); `ShownAgreesIff` says exactly when the two agree.
* A satisfied predecessor can become unsatisfied (`SatisfactionCanBeUndone`); `SatisfactionLostIff` says
  exactly by which operations.
* Releases by members count toward the claim backoff; only operators and policies are exempt.
* Claim order has no tie-break by id: the SQL picks any of the equally placed rows, and only the final
  comparison of the gated and ungated winner looks at ids.

## Model

| member | source | states |
|---|---|---|
| QueueStore.QueueStore.constructor | src/queue/store.ts:470-493 | A new store is the empty queue, which a run reaches. |
| QueueStore.QueueStore.Tick | src/queue/store.ts:2845-2847 | Only the clock moves, and never back; one instant serves a transaction. |
| QueueStore.QueueStore.ConfigureHooks | src/queue/store.ts:470-493 | Only what the policy and eligibility hooks answer changes. |
| QueueStore.QueueStore.SetRepositoryEnabled | src/queue/store.ts:594-606 | Only the repository's opt-in changes. |
| QueueStore.QueueStore.RenameRepository | src/queue/store.ts:621-638 | Moves the opt-in row and every item of the old slug and nothing else, or is refused and changes nothing. |
| QueueStore.QueueStore.MoveRows | src/queue/store.ts:621-638 | Every row of the old slug, and no other, carries the new one. |
| QueueStore.QueueStore.BindPolicy | src/queue/store.ts:900-932 | The binding loop answers as the policy specification, of which `BindingAcceptedIff` and `ReviewRequiredMeans` say what it accepts, refuses and records. |
| QueueStore.QueueStore.EnqueueSeed | src/queue/store.ts:954-965 | One admitted root and its `work.queued` event, or a refusal that changes nothing. |
| QueueStore.QueueStore.EnqueueInactiveRootBatch | src/queue/store.ts:983-1032 | Candidates are created, skipped or cooled down in order, judged against the state the batch began in, and one refusal rolls all of them back. |
| QueueStore.QueueStore.NoFindingStreaks | src/queue/store.ts:1666-1696 | For every kind the one backward pass reads its streak of childless completions and the instant of the newest. |
| QueueStore.QueueStore.CompletionInstant | src/queue/store.ts:1666-1696 | The newest recorded completion of the item, or its last update when none is recorded. |
| QueueStore.QueueStore.EnqueueCureRoot | src/queue/store.ts:1042-1070 | At most one cure root per source reference; a known reference changes nothing. |
| QueueStore.QueueStore.EnqueueReviewRoot | src/queue/store.ts:1084-1133 | At most one review or fix root per source reference, in the gate's exact shapes. |
| QueueStore.QueueStore.EnqueueProposedRoots | src/queue/store.ts:1214-1256 | Imports proposed roots in order, skipping references already taken or met in the batch, or rolls all of them back. |
| QueueStore.QueueStore.ReplaceProposedPredecessors | src/queue/store.ts:1269-1285 | Changes only the edges of a proposed item, and records old and new. |
| QueueStore.QueueStore.EvaluatePredecessor | src/queue/store.ts:1338-1369 | A reference is satisfied exactly when some carrier is delivered; the report names the newest delivered carrier, else the newest carrier. |
| QueueStore.QueueStore.AllSatisfied | src/queue/store.ts:1321-1327 | Reading each reference at most once through the cache answers the same as reading every one. |
| QueueStore.QueueStore.FirstUngated | src/queue/store.ts:1891-1905 | Walking the gated candidates in claim order finds one whose predecessors are all delivered and that no other such candidate precedes, or there is none. |
| QueueStore.QueueStore.Select | src/queue/store.ts:1873-1908 | The gated and ungated candidates, chosen apart and compared, give an item exactly as the claim's specification does: sound, complete, optimal. |
| QueueStore.QueueStore.Candidates | src/queue/store.ts:1841-1871 | Exactly the items that pass opt-in, admission or lapse, backoff, repository, eligibility, and both lists of kinds, the request's and the credential's. |
| QueueStore.QueueStore.Claim | src/queue/store.ts:1801-1938 | Accepted exactly when the query fits; answers nothing only if nothing can be taken; else hands out an item that can be taken and that none precedes, of a kind both lists name, for the seconds asked, striking a lapsed lease first and drawing a fresh token. |
| QueueStore.QueueStore.Heartbeat | src/queue/store.ts:1940-1952 | Extends exactly the live lease of its owner and token, or changes nothing. |
| QueueStore.QueueStore.Complete | src/queue/store.ts:1954-2069 | Stores the result and verdict, inserts every follow-up, ends the lease; any refusal changes nothing. |
| QueueStore.QueueStore.InsertFollowUps | src/queue/store.ts:1984-2040 | Inserts the children in order or, if one is refused, none. |
| QueueStore.QueueStore.LineageDepth | src/queue/store.ts:2826-2835 | The walk returns the item's depth and never meets the store's depth guard. |
| QueueStore.QueueStore.Block | src/queue/store.ts:2071-2088 | Stores the reason as result and ends the lease, only under the live lease. |
| QueueStore.QueueStore.Release | src/queue/store.ts:2090-2106 | Returns the item to the queue and ends the lease, only under the live lease. |
| QueueStore.QueueStore.Approve | src/queue/store.ts:2108-2149 | Admits a proposed item, re-checking its contract with its parent's ceiling and re-binding it to the current authority. |
| QueueStore.QueueStore.Defer | src/queue/store.ts:2151-2165 | Withdraws admission of a queued item and notes why. |
| QueueStore.QueueStore.AddNote | src/queue/store.ts:2173-2186 | Appends one note and changes nothing else but the update instant. |
| QueueStore.QueueStore.Prioritize | src/queue/store.ts:2195-2212 | Changes the priority of proposed, queued or blocked work, recording the old one. |
| QueueStore.QueueStore.Reject | src/queue/store.ts:2214-2227 | Cancels proposed work only. |
| QueueStore.QueueStore.Requeue | src/queue/store.ts:2236-2261 | Moves the block result to the end of the earlier results and queues the item. |
| QueueStore.QueueStore.ReleaseLease | src/queue/store.ts:2276-2295 | Takes the lease from its holder, live or lapsed, recording whose it was. |
| QueueStore.QueueStore.Cancel | src/queue/store.ts:2297-2316 | Cancels blocked work, replacing its result by the reason. |
| QueueStore.QueueStore.RetirePullRequestBoundWork | src/queue/store.ts:2330-2350 | Cancels queued or blocked work, replacing its result by the reason. |
| QueueStore.QueueStore.RecordArtifactVerification | src/queue/store.ts:2357-2386 | Replaces the verification of the first artifact with the URL, and nothing else of the result. |
| QueueStore.QueueStore.AttachArtifact | src/queue/store.ts:2405-2451 | Appends one verified artifact of the item's repository under a URL it does not have yet. |
| QueueStore.QueueStore.RecordPullRequestReady | src/queue/store.ts:1171-1200 | Takes the draft flag off the first artifact that is this pull request by repository and number, however its URL is spelled, and records head and review. |
| QueueStore.QueueStore.ReadAttempts | src/queue/store.ts:2469-2530 | Reading `2 * limit + 1` lifecycle events gives the last `limit` attempts of the whole ledger. |
| QueueStore.QueueStore.ChurningItems | src/queue/store.ts:1423-1460 | Lists every queued, admitted item the claim is backing off, and only those, with its counted releases newest first and the instant it returns. |
| QueueStore.QueueStore.AuditContracts | src/queue/store.ts:2745-2788 | On any reachable store the audit lists exactly the non-terminal items a configured authority does not bind. |
| Decisions.StaleDecisionChangesNothing | src/queue/store.ts:2813-2818 | A decision that names another status or update instant than the item has changes nothing, whatever it decides. |
| Decisions.ApprovesIff | src/queue/store.ts:2108-2149 | Taken of proposed work, in every state of a run, exactly when policy permits its actions now; admits it and binds it to what policy says now, with the approval as evidence. |
| Decisions.DefersIff | src/queue/store.ts:2151-2165 | Taken of queued, admitted work exactly with a note of proper length; withdraws admission and appends the note. |
| Decisions.NotesIff | src/queue/store.ts:2173-2186 | Taken of any item exactly with a note of proper length; appends it. |
| Decisions.PrioritizesIff | src/queue/store.ts:2195-2212 | Taken of proposed, queued or blocked work exactly with a safe integer and a note; the row has the new priority, the event both. |
| Decisions.RejectsIff | src/queue/store.ts:2214-2227 | Taken exactly of proposed work, with a reason, which becomes the result. |
| Decisions.RequeuesIff | src/queue/store.ts:2236-2261 | Taken exactly of blocked work with a note; the block result joins the earlier ones and the item is queued. |
| Decisions.ReleasesLeaseIff | src/queue/store.ts:2276-2295 | Taken exactly of claimed work with a note, lease live or not; the event names owner and expiry. |
| Decisions.CancelsIff | src/queue/store.ts:2297-2350 | A cancellation is taken exactly of blocked work as it was seen, a retirement exactly of queued or blocked work. |
| Decisions.VerifiesIff | src/queue/store.ts:2357-2386 | Taken exactly when completed work has the URL and its first artifact with it can be verified; only that one changes. |
| Decisions.AttachesIff | src/queue/store.ts:2405-2451 | Taken exactly of completed work for a verified issue, pull request or release of its repository under a new URL, which is appended. |
| Decisions.ReadiesIff | src/queue/store.ts:1171-1200 | Taken exactly when completed work has the pull request, GitHub's number winning over the URL's; only its first artifact leaves draft. |
| Decisions.RenamesIff | src/queue/store.ts:621-638 | Taken exactly from a known name to an unknown one that differs in more than case; moves the opt-in and the rows of the old name, and nothing else. |
| LedgerTheorems.LedgerReplaysEveryRow | src/queue/store.ts:1911-1936 | In every reachable state an item's events replay to its row, its edges included; claims and lease ends alternate, with an open claim exactly while it is claimed. |
| LedgerTheorems.ReplayStartsAtCreatedPriority | src/queue/store.ts:2195-2212 | The priority the replay starts from is the one the row was created with, however often it changed. |
| LedgerTheorems.OverwrittenIff | src/queue/store.ts:2236-2350 | A history overwrites a block result exactly when the item was cancelled while it stood blocked. |
| LedgerTheorems.BlocksCarriedIff | src/queue/store.ts:2236-2350 | The row carries every block result in order exactly when the item was never cancelled or retired out of a block. |
| LedgerTheorems.CancellationOverwritesIff | src/queue/store.ts:2297-2350 | One accepted cancellation or retirement keeps the carried block results exactly when the item was not blocked. |
| LedgerTheorems.BlockResultCanBeLost | src/queue/store.ts:2297-2316 | A run - seed, claim, block, cancel - ends with a block result in the ledger that the row no longer carries. |
| LedgerTheorems.EveryClaimIsAdmitted | src/queue/store.ts:1841-1844 | Before every claim lies an admitting decision that no deferral undid. |
| LedgerTheorems.AdmittingMeans | src/queue/store.ts:2108-2165 | The replayed admission holds exactly when a last admitting event exists with no decision after it. |
| LedgerReplay.EveryWindowBounded | src/queue/store.ts:117-124 | If each counted release leaves at most three in its window, so does every window wherever it ends. |
| QueueWrites.StepLeads | src/queue/store.ts:2849-2861 | Every committed transaction is a chain of lawful writes, each a row change with its event, a new row with its event, a rename or an environment move. |
| QueueInvariant.RunKeeps | src/queue/store.ts:2849-2861 | In every run the invariant holds throughout, and every state evolves into each later one: ledger, terminal statuses, definitions and fences only grow. |
| QueueInvariant.ReachedOn | src/queue/store.ts:2849-2861 | Whatever a transaction leaves behind is again the end of a run. |
| LeaseFencing.EndedLeaseStaysEnded | src/queue/store.ts:2712-2718 | A drawn token that is not the live lease never works again: every later heartbeat, completion, block and release with it is refused. |
| LeaseFencing.EndingsEnd | src/queue/store.ts:1940-2106 | Completion, block, release, operator lease release and reclaim end every token drawn before. |
| LeaseFencing.TokenServesOneItem | src/queue/store.ts:1917-1925 | Over a whole run a token is the live lease of one item only. |
| LeaseFencing.LiveOrLapsed | src/queue/store.ts:1841-1844 | A claimed item's lease is live for its worker or lapsed for the claim, never both and never neither. |
| WorkerCalls.HeartbeatExtendsIff | src/queue/store.ts:1940-1952 | Accepted exactly from the owner with the token in time, for an allowed number of seconds; the lease then lasts exactly that long from now. |
| WorkerCalls.BlockStopsIff | src/queue/store.ts:2071-2088 | Accepted exactly from the holder with a reason, which becomes the result; nothing else of the item changes. |
| WorkerCalls.ReleaseReturnsIff | src/queue/store.ts:2090-2106 | Accepted exactly from the holder; the item returns to the queue as it was. |
| ClaimBackoff.AtMostThreeReleases | src/queue/store.ts:117-124 | No thirty-minute window of any run holds more than three counted releases of one item. |
| ClaimBackoff.LapsedIsNeverBackedOff | src/queue/store.ts:1843-1850 | The backoff never hides a claimed item, so a lapsed lease can always be reclaimed. |
| ClaimBackoff.BackoffUntilIsFirstInstant | src/queue/store.ts:1423-1460 | The reported instant is exactly the first at which the claim predicate admits the item again. |
| ClaimBackoff.BackedOffUntilThen | src/queue/store.ts:1423-1460 | Whatever else the run does, no claim can take the item before that instant. |
| Attempts.BoundedReadIsFullRead | src/queue/store.ts:2469-2530 | The bounded read equals the newest attempts of the full fold. |
| Attempts.SliceReadsSameNewest | src/queue/store.ts:2478-2491 | The newest `2 * limit + 1` lifecycle events fold to a tail of the full fold at least `limit` long. |
| Attempts.OpenAttemptIsClaimed | src/queue/store.ts:2519-2528 | An open newest attempt is a claimed item: repairing one of an unclaimed item never happens. |
| Attempts.DerivedExpiryAgreesWithReclaim | src/queue/store.ts:2519-2528 | The expiry read from the clock is what the ledger says once the lapsed lease is reclaimed. |
| AttemptRules.AttemptsTellLeases | src/queue/store.ts:2469-2530 | In every reached state the read has one attempt for each claim in the ledger, in order; the event that closed the lease gives its outcome, instant and author, an expiry ending when the lease did; a lease no event closed is the item's own and reads as expired once it ran out. |
| AttemptRules.FoldTells | src/queue/store.ts:2492-2515 | Of any ledger, the fold attributes each end to the claim right before it and to no other. |
| ClaimOrder.BetterCandidate | src/queue/store.ts:2938-2947 | The better of two candidates is one of them, and neither precedes it. |
| ClaimRules.ClaimHandsOut | src/queue/store.ts:1801-1938 | A claim changes nothing when its query does not fit or nothing can be taken; else it hands out a first of the items that can be taken, and the next state is exactly the old one with that lease, its expiry at the seconds asked, and the expiry event of a lease it struck. |
| ClaimRules.InTheRunningIff | src/queue/store.ts:1819-1871 | The claim's clauses hold of exactly the items whose kind is asked for, if any is, and allowed, if the credential restricts it, in an opted-in eligible repository of the request, waiting, with fewer than three counted releases in the window. |
| ClaimRules.TakeableIff | src/queue/store.ts:1841-1905 | An item can be claimed exactly when it is in the running and every reference it waits for has a completed carrier with its pull requests merged and releases published. |
| QueueStore.SelectionAnswers | src/queue/store.ts:1873-1908 | Splitting the running items into ungated and gated does not change what a claim may answer. |
| Lineages.DelegationStaysUnderEveryAncestor | src/queue/store.ts:2031-2032 | Every descendant's allowed and delegable actions lie within every proper ancestor's ceiling, in its root and repository, at most four edges deep. |
| Lineages.RefusedFollowUpChangesNothing | src/queue/store.ts:1984-2032 | A completion with a follow-up refused for its shape, contract or ceiling, or by the policy authority, changes nothing. |
| Lineages.FollowUpsAcceptedIff | src/queue/store.ts:1984-2032 | Follow-ups are added exactly when the store, as it stood before the first of them, takes every one. |
| Lineages.CompletionAddsExactlyItsFollowUps | src/queue/store.ts:1984-2069 | An accepted completion adds exactly its proposals, compiled, in order, each a whole child row with its event; it changes of the parent exactly status, result, verdict, lease and update instant, records the children with the completion, and leaves every other row alone. |
| Lineages.StoredContractsStayDeliverable | src/queue/store.ts:3239-3364 | Every stored item satisfies the contract rule, with and without its parent's ceiling, in every later state. |
| Lineages.AuditFindsOnlyUnbound | src/queue/store.ts:2745-2788 | The audit reports an item exactly when the authority is configured and does not bind it. |
| Lineages.ApprovalNeverFailsOnContract | src/queue/store.ts:2117-2120 | Approval is never refused for the contract. |
| Lineages.FinishedLineageStaysFinished | src/queue/store.ts:1631-1643 | A lineage whose work is all terminal never becomes active again. |
| Lineages.FeederKeepsOneLineage | src/queue/store.ts:983-1032 | If a kind's roots come only from batches, every reachable state has at most one active lineage of it per repository. |
| Lineages.IntentFollowUpAcceptedIff | src/queue/store.ts:2004-2032 | A shorthand follow-up is refused for its shape or kind only, never for its compiled actions or contract. |
| Lineages.LongFormFollowUpAcceptedIff | src/queue/store.ts:2004-2032 | A long-form follow-up is taken exactly when it declares the whole contract, a holder can deliver it under the parent, it stays inside the parent's ceiling and is well formed; the child is what it declares. |
| Completion.CompletableIff | src/queue/store.ts:1954-1983 | Leased work can be completed by its holder exactly when it is not a review without a review record. |
| Completion.CompletionAcceptedIff | src/queue/store.ts:1954-2069 | One given completion is accepted exactly when its worker holds the lease, the result is stated, the pull request owed is among its artifacts, every artifact is one the item may produce in its repository, the verdict is the one due, and each of at most ten follow-ups is within depth and taken. |
| Completion.ClaimedWorkCanBeStuck | src/queue/store.ts:1954-1983 | A run ends with claimed work every completion of which is refused: a root seeded with the review kind. |
| Contracts.AcceptedIffDeliverable | src/queue/store.ts:3239-3364 | The eleven ordered rules accept exactly the contracts that are deliverable as a reading or as a change. |
| Contracts.LessContextNoNewProblem | src/queue/store.ts:3239-3364 | Knowing less about the parent never adds a problem. |
| FollowUpIntent.SuppliedListAcceptedIffPermutation | src/queue/follow-up-intent.ts:122-132 | A supplied action list agrees exactly when it is a permutation of the derived one. |
| FollowUpIntent.IntentStaysInsideCeiling | src/queue/follow-up-intent.ts:62-108 | Whatever an intent compiles to, the parent could delegate all of it; the child may pass something on exactly when it may propose. |
| FollowUpIntent.IntentContractProblemIff | src/queue/follow-up-intent.ts:18-41 | A compiled contract is refused exactly for a discovery kind on a change, or the cure-change kind elsewhere. |
| FollowUpIntent.IntentAcceptedIff | src/queue/follow-up-intent.ts:18-41 | The compiler's reasons to refuse, exactly: what the parent must delegate and be bound to, the kind, and every supplied field against what the intent is worth. |
| FollowUpIntent.CompiledContractMeans | src/queue/follow-up-intent.ts:62-108 | A compiled child is granted exactly what its intent needs and the parent's among the extras, passes on exactly all its parent may delegate if that includes proposing and nothing otherwise, and has the kind, target and required artifact of its intent. |
| FollowUpIntent.CompiledContractIsFixed | src/queue/follow-up-intent.ts:43-60 | Compiling is idempotent, and the long form of a compiled contract means the same child. |
| Lifecycle.StatusMovesAlongEdges | src/queue/store.ts:1911-2350 | Every write of every run moves a status, if at all, along an allowed edge, by a principal who may, and the newest event names it. |
| Lifecycle.WhatNeverChanges | src/queue/store.ts:1911-2350 | Definitions and review bindings never change, completed and cancelled stay, the ledger only grows. |
| Feeders.BatchFates | src/queue/store.ts:983-1032 | A candidate is created exactly when its kind was neither active nor cooling when the batch began and none of its kind was created earlier in it; nothing else is added. |
| BatchRules.BatchCreatesIff | src/queue/store.ts:983-1032 | A batch is taken whole exactly when its cooldowns are in range, the repository is opted in, every candidate is described, and policy lets in each that is due; then exactly the due candidates become roots, in order, each with its event, and the fates say why the others did not. |
| BatchRules.RestingIff | src/queue/store.ts:1013-1023 | A kind cools down exactly while its newest root came to nothing and, since it was finished, no more than the base - doubled for each further fruitless root, up to fourteen days - has passed. |
| Feeders.BatchTwiceIsOnce | src/queue/store.ts:983-1032 | The same batch again at the same instant creates nothing. |
| Feeders.ImportTwiceIsOnce | src/queue/store.ts:1214-1256 | Importing the same roots again creates nothing. |
| Feeders.GateRootTwiceIsOnce | src/queue/store.ts:1042-1133 | Enqueueing the same cure or review root again creates nothing. |
| RootCreation.SeedCreatesIff | src/queue/store.ts:954-965 | A seed is taken exactly when it is described, waits for nothing, and repository and policy let it in; the row holds what was given, the priority included, and nothing else. |
| RootCreation.CureCreatesIff | src/queue/store.ts:1042-1070 | The same of a cure, of its kind and with decay; a reference already there adds nothing. |
| RootCreation.ReviewCreatesIff | src/queue/store.ts:1084-1133 | The same of a review or fix root, in exactly the two shapes. |
| RootCreation.VouchedIff | src/queue/store.ts:900-952 | Policy lets a root in exactly when it vouches for the repository, grants every action, and an admitted root is a human's or inside the registry of the three mechanical kinds. |
| Cooldown.CooldownIsCappedDoubling | src/queue/store.ts:97-101 | Bounding the exponent changes nothing: the cooldown is the base doubled per further root, capped at fourteen days, never below the base. |
| Cooldown.CooldownGrows | src/queue/store.ts:97-101 | The cooldown never shrinks with the streak and doubles until the cap. |
| Cooldown.StreakMeans | src/queue/store.ts:1666-1696 | The streak is the longest run of the kind's newest roots that completed without a child. |
| Predecessors.ClaimsWaitForPredecessors | src/queue/store.ts:1894-1908 | Every `work.claimed` event in the ledger of a run was recorded by a step at whose start each reference of its item had a completed carrier with all its pull requests merged and releases published. |
| SequencedWork.ImportCreatesIff | src/queue/store.ts:1214-1256 | An import is taken whole exactly when the repository is opted in, every root is described with at most twenty issue references, and policy lets each new one in; each new root then waits for exactly the references it declares, none when it declares none, and its creation event names the same. |
| SequencedWork.ImportedWorkWaits | src/queue/store.ts:1214-1256 | In every run a claim of an imported item was recorded by a step at whose start every reference it declared was carried out, unless its edges were replaced before. |
| SequencedWork.ReplacementReplacesIff | src/queue/store.ts:1269-1285 | Edges are replaced exactly of proposed work by one who decides, with at most twenty issue references; they become exactly those listed and nothing else changes. |
| Predecessors.CyclesAreNeverClaimed | src/queue/store.ts:1894-1908 | Items that wait only for references they alone carry, with edges never replaced, are never claimed in any run. |
| Predecessors.AttachKeepsDeliveredIff | src/queue/store.ts:2405-2451 | Attaching an artifact keeps a completed item delivered exactly when the artifact itself is. |
| Predecessors.VerifyKeepsDeliveredIff | src/queue/store.ts:2357-2386 | Verifying an artifact of delivered work again keeps it delivered exactly when the artifact still is. |
| Predecessors.DeliveredUntilArtifactEvent | src/queue/store.ts:2958-2966 | Nothing but an attachment to the carrier or a verification of it takes its delivery back; marking ready never does. |
| Predecessors.SatisfactionLostIff | src/queue/store.ts:1338-1369 | In a reachable state a committed operation loses a satisfied reference exactly when it attaches to, or verifies again for, its only delivered carrier an artifact that is not delivered. |
| Predecessors.SatisfactionCanBeUndone | src/queue/store.ts:2405-2451 | A reachable state - import, approve, claim, complete - with a satisfied reference, and the attachment that loses it. |
| Delivery.DeliveredIsShownDone | src/queue/types.ts:419-442 | What dependents may wait for is always shown merged, published or with nothing to deliver. |
| Delivery.ShownStateMeans | src/queue/types.ts:419-442 | The state shown depends only on the set of states of the deciding artifacts: the best wins, and an unverified one hides all short of it. |
| Delivery.ShownAgreesIff | src/queue/types.ts:419-442 | Shown done and delivered agree exactly when a published release, or a merged pull request where nothing is released, comes with every release published and every pull request merged. |
| Delivery.AgreeOnOne | src/queue/types.ts:419-442 | A case of the above: they agree while at most one pull request or release is reported. |
| Delivery.ShownDoneButUndelivered | src/queue/types.ts:419-442 | A merged pull request beside an open one is shown merged, a published release beside an open pull request is shown published, and dependents of both still wait. |
| Governance.AdmittedWorkIsAuthorized | src/queue/store.ts:920-952 | With an authority configured throughout a run, every item is bound; its evidence is that of its last approval, or of its creation if it was admitted then, and covers its review-required actions; admitted work has evidence, and work a program admitted on creation has a standing entry of its kind containing all its actions. |
| Governance.RecordIsLastBinding | src/queue/store.ts:900-932 | Its record is what the authority in force at the last creation or approval said of its repository: snapshot, commit, no action outside the ceiling or denied, and as review-required exactly the allowed actions that authority wants reviewed. |
| Governance.BindingAcceptedIff | src/queue/store.ts:900-952 | A definition is bound exactly when the authority vouches for the repository, every action is inside the ceiling and not denied, and work admitted on creation is a human's or inside its standing entry; and what the record then holds. |
| Governance.ReviewRequiredMeans | src/queue/store.ts:921-923 | The recorded review-required actions are the allowed ones the authority decides review-required, each once. |
| ReviewBudget.AtMostThreeVerdicts | src/queue/pull-request-review.ts:308-424 | For any pushes, blocks and expiries: one review or fix in flight at most, verdicts numbered 1, 2, 3 in completion order, no fourth. |
| FixBudget.AtMostTwoFixesPerSpelling | src/queue/pull-request-review.ts:356-396 | In every run of the gate a pull request's fixes lie in rounds 1 and 2, no two of a round spell its URL alike, and there are at most two for each spelling. |
| FixBudget.AtMostTwoFixes | src/queue/pull-request-review.ts:356-396 | At most two fixes under one spelling of the pull request's URL, in every run. |
| FixBudget.FixAddedIff | src/queue/store.ts:1105-1107 | A pending fix the store accepts is created exactly when every fix of its round spells the URL differently and nothing but fixes carries its reference. |
| FixSpellings.EverySpellingIsFixedTwice | src/queue/pull-request-review.ts:374-396 | The bound is met: for any spellings of one pull request, any of them reviewed, and any two heads, a run of the gate fixes it twice under each spelling, all fixes of a round for one verdict. |
| FixBudget.FixRoundsDiffer | src/queue/pull-request-review.ts:356-396 | Two fixes under one spelling belong to different rounds, neither the last. |
| ReviewBudget.SpellingDoesNotMatter | src/queue/pull-request-review.ts:308-424 | Two spellings of one pull request lead to the same decision. |
| ReviewGate.SortByRoundSorts | src/queue/pull-request-review.ts:313-316 | The stable sort permutes the completed reviews into the order of their rounds, row order within a round. |
| ReviewGate.LatestIsLastSorted | src/queue/pull-request-review.ts:313-316 | Keeping the latest round in one pass, the later row on a tie, finds what the sort puts last. |
| ReviewGate.PassTakenIff | src/queue/pull-request-review.ts:318-359 | On every store the pass consequence is taken exactly when nothing is in flight and the verdict sorted last is a pass, or a block of already routed description blockers, of exactly the head read. |
| ReviewGate.FixCarriesTreeBlockers | src/queue/pull-request-review.ts:356-396 | On every store a fix is minted only for a block of exactly the head read, by the verdict sorted last, and carries exactly its tree blockers. |
| GateOutcomes.DecisionIffWarranted | src/queue/pull-request-review.ts:308-424 | On every store each outcome - waiting, the pass, the four reasons to leave the head to a human, the description left alone, the fix, the next review - is decided exactly when the rows warrant it: in flight, the last verdict and its head, what was routed before, a fix completed at this head, the round, and the tree blockers. |
| GateOutcomes.DecidedReviewIsTakenIff | src/queue/pull-request-review.ts:404-420 | The store takes the root of a decided review exactly when it is stated, the repository is opted in, and the head has a review already or policy grants reading and running tests; a head without one gets exactly that review, at the origin's priority. |
| GateOutcomes.DecidedFixIsTakenIff | src/queue/pull-request-review.ts:369-396 | The same of a decided fix, which names its review, carries its four actions and owes its change to the pull request itself. |
| ReviewBudget.DecisionFits | src/queue/pull-request-review.ts:308-424 | Whatever head is read, the decided round or fix fits the budget and nothing is in flight. |
| ReviewBudget.SweepSeesVerdicts | src/queue/pull-request-review.ts:312-316 | What the sweep filters and sorts is exactly the verdicts in completion order. |
| ReviewBudget.RequeueKeepsOneInFlightIff | src/queue/store.ts:2236-2261 | An operator requeue of gate work keeps one in flight exactly if none was: why the budget excludes it. |
| BudgetConditions.RequeueBreaksBudget | src/queue/store.ts:2236-2261 | A run that kept the conditions, and the requeue after which two reviews of one pull request are in flight. |
| ReviewBudget.ReapprovalKeepsOneInFlightIff | src/queue/store.ts:2108-2165 | Deferred gate work approved again keeps one in flight exactly if none was: why the budget excludes deferrals. |
| ReviewBudget.RenameKeepsPlanIff | src/queue/store.ts:621-638 | Renaming the repository of a pending plan leaves the plan inside the budget exactly if it is a first review. |
| BudgetConditions.RenameBreaksBudget | src/queue/store.ts:621-638 | A run that kept the conditions, and the rename after which a pull request without a verdict gets a review of round 2. |
| ReviewGate.PartitionLosesNothing | src/queue/pull-request-review.ts:65-69 | Every blocker goes to exactly one side. |
| ReviewGate.PartitionByPrefix | src/queue/pull-request-review.ts:65-69 | The sides are told apart by the fingerprint prefix alone. |
| ReviewGate.PartitionKeepsOrder | src/queue/pull-request-review.ts:65-69 | Each side keeps its blockers in the verdict's order. |
| ReadyMarking.ReadyIsHonest | src/queue/pull-request-review.ts:508-542 | Marked ready is reported exactly when the mark was confirmed and the re-read found no open pull request elsewhere; one open elsewhere and still ready is always reported unavailable. |
| ReadyMarking.GitHubPull.ReadHead | src/queue/pull-request-review.ts:107-140 | One call; it may fail, and what it says is true of that instant. |
| ReadyMarking.GitHubPull.MarkReady | src/queue/pull-request-review.ts:155-181 | One call; a confirmation says the pull request is out of draft at that instant. |
| ReadyMarking.GitHubPull.ConvertToDraft | src/queue/pull-request-review.ts:160-181 | One call; a confirmation says the pull request is a draft at that instant. |
| ReviewSweep.Sweep.ApplyPassConsequence | src/queue/pull-request-review.ts:475-542 | With pushes between every two calls it makes exactly the calls its answers come from - mark, re-read once marked, conversion back of a head that moved or cannot be read - and one report line per outcome; the mark is recorded or not reported, and a ready pull request with a moved head is always reported unavailable. |
| ReviewSweep.Sweep.ReviewPullRequest | src/queue/pull-request-review.ts:281-424 | One pull request's turn makes exactly its calls: the first read, and on a pass it takes those of the consequence. Each early return adds exactly its line; a head is reported marked only if that read found it open and draft, the verdict sorted last passes it, and the re-read did not find it open elsewhere; one open elsewhere then and left ready is reported unavailable. |
| ReviewSweep.DecideHead | src/queue/pull-request-review.ts:308-424 | The passes over the items compute the decision the rows warrant and the description blockers to report. |
| ReviewSweep.DescriptionReportedIff | src/queue/pull-request-review.ts:331-344 | Description blockers are reported exactly when nothing is in flight and the last verdict blocks the head read with some, all of them and under its round. |
| ReviewSweep.AssertReviewCompletion | src/queue/pull-request-review.ts:797-826 | GitHub is read once, exactly for a review with a consistent verdict, and the verdict passes exactly if that read finds no open pull request at another head. |
| CanonicalJson.CanonicalIffEqual | src/control/encoding.ts:29-49 | Two values have the same text exactly when they are equal as JSON values. |
| CanonicalJson.TextUnique | src/control/encoding.ts:37-49 | Nested texts decode uniquely, whatever delimited text follows. |
| CanonicalJson.EqualValuesEncodeEqually | src/control/encoding.ts:37-49 | Field order and the sign of zero do not show. |
| CanonicalJson.QuoteUnique | src/control/encoding.ts:37-38 | Quoted strings, lone surrogates included, delimit themselves. |
| CanonicalJson.SortSorts | src/control/encoding.ts:45-48 | Keys are sorted by code unit without losing a field. |
| JsonReading.CanonicalTextReads | src/control/encoding.ts:37-49 | By the grammar of RFC 8259 the text reads as exactly the value it encodes: literals, numbers, strings, elements and members, with no blanks and the members in code-unit order of their keys. |
| JsonReading.BodyIsWellFormed | src/control/encoding.ts:37-38 | The text of a string is well-formed UTF-16 even when the string is not, and takes exactly the units its shortest escapes take. |
| DeliveryAudit.AuditDeliveries | src/github/delivery-api.ts:158-241 | Ends within 100 pages; complete exactly when an unbroken chain of distinct readable pages without a repeated delivery leads to a page without a next one, which it then reports and counts. |
| DeliveryAudit.CoverIsUnique | src/github/delivery-api.ts:158-241 | At most one chain of pages covers the source. |
| DeliveryAudit.TakeItems | src/github/delivery-api.ts:198-205 | A page is taken in exactly when every item reads and no delivery repeats. |
| LinkHeader.SplitLinkHeader | src/github/delivery-api.ts:610-628 | Accepted pieces are whole link values that join back to the header; it is refused exactly when a bracket or quote stays open, and then nothing does. |
| LinkHeader.SplitIsUnique | src/github/delivery-api.ts:610-628 | A header splits into whole link values in at most one way. |
| LinkHeader.NextDeliveryLink | src/github/delivery-api.ts:542-554 | The loop reads the next page of the header's one split. |
| LinkHeader.NextMeans | src/github/delivery-api.ts:542-554 | A next page is read exactly when every part reads and one alone names it with a valid target. |
| LinkHeader.NoNextMeans | src/github/delivery-api.ts:542-554 | There is no next page exactly when every part reads and none names it. |
| Retention.PrunedIff | src/control/check-detail-retention.ts:16-34 | A check is pruned exactly when unprotected and either older than the cutoff or behind 10,000 newer unprotected ones inside the window; oldest first. |
| Retention.KeptAreNewer | src/control/check-detail-retention.ts:16-34 | Every eligible check kept is newer than every eligible one pruned. |
| Retention.AtMostMaximumSurvive | src/control/check-detail-retention.ts:25-31 | At most 10,000 eligible checks survive. |
| Retention.PruneIsIdempotent | src/control/check-detail-retention.ts:16-34 | Run again on the survivors with the same cutoff it prunes nothing. |

## Left out

- The identity of rows, tokens and events: ids are row positions, tokens a counter, event sequences ledger positions; that random UUIDs never repeat is assumed.
- SQLite, its transactions, migrations, backup and restore: each transaction is atomic, on maps and sequences.
- Text checked by regular expressions (repository slugs, URLs, SHAs, principals beyond their namespace, source-reference length): opaque values that carry the one fact a rule reads; a principal is given by its namespace.
- Instants are integers in milliseconds, and one transaction reads the clock once; numbers of the cooldown are exact integers, where the source uses doubles that are exact at these sizes.
- Claim labels, tool grants, credentials, and the payload fields of events that no modelled read uses.
- The handoff part of a verification, an artifact's description, model names, and patch digests.
- Read-only lists, counts, metrics, event feeds, MCP tokens, unreported pull requests and labelled issues: no transaction reads what they return or store, so no property of the queue depends on them.
- The order of the churn list, the messages of refusals, and the repository filter of the churn list.
- QueueStore.QueueStore.Claim: the order among equally placed candidates is left open, as the SQL leaves it.
- Which completed items bring a pull request into the sweep (origins and newest observations): the protocol lets any pull request be looked at; the draft rule on completion belongs to the same selection.
- Changed files against protected boundaries, and the description's last edit: their answers are inputs of the sweep.
- ReviewSweep.Sweep.ReviewPullRequest: nothing else happens to the queue during the turn; the interleaving between its read and its enqueue is what `ReviewGate.GateStep` models.
- Lineages.FeederKeepsOneLineage: stated for one kind whose roots come only from batches, as the single-lineage rule is; other paths may create further roots of a kind.
- How a Link part and a delivery URL are recognised: two functions the audit takes as given.
- Retry instants, digests, byte limits and timeouts of the delivery audit.
- Shortest decimal texts of numbers: one text per finite number is taken as given, so `CanonicalJson.Number` names a number by it.
- UUIDv7 layout, patch digests and hashing.
