# Agent Workboard: verified model of its durable workflows

Dafny model of the services that keep Agent Workboard's long-running work safe: tables changed by
atomic transactions, effects outside the database between them, crashes and other parties in between.
`dafny verify dfyconfig.toml` checks everything.

| file | service |
|---|---|
| `IntegrationRun.dfy` | merging the accepted branches of a Feature, with crash, resume and drift detection |
| `DependencyOrder.dfy`, `Graphs.dfy`, `Sorting.dfy` | the merge order: memoised longest dependency chains and a stable sort |
| `ProposalValidation.dfy`, `ProposalApproval.dfy` | accepting a proposed dependency graph and growing the persistent one |
| `FollowUps.dfy`, `FollowUpStore.dfy` | the leased queue of session follow-ups and its workers |
| `BatchLaunch.dfy` | previewing, confirming and tracking a batch of launches |
| `CheckoutAllocation.dfy` | isolated checkouts and their reconciliation log |
| `ConfigReplacement.dfy` | replacing a configuration file that others write too |
| `HookRemoval.dfy`, `ShellQuoting.dfy` | removing installed hooks; quoting their command lines |
| `ConfirmationDigest.dfy` | the byte stream behind a confirmation digest |
| `PlanPhases.dfy`, `Slugs.dfy` | cutting an imported plan into phases and naming them |
| `BoundedReaders.dfy`, `ThreadDiscovery.dfy` | reading an app server within limits; listing its threads page by page |

## How the model is built

- A transaction is one atomic step. Reads, Git commands and provider calls are separate steps, and
  between any two of them others may act. Where the order of other parties' steps matters, theorems
  are about all sequences of steps.
- What changes tables or buffers in place is a class with those fields. Its methods are tied to functions
  of the old state, and the theorems about whole runs are lemmas about those functions.
- Git is a head plus a growing set of contained commits. A merge that reports success made the source
  contained; one that reports failure may have. Tokens and generated identifiers are fresh values;
  times are integers.
- Ghost state of an integration target records which sources were merged, which runs were running when
  someone else moved the target, which were running when someone recorded a head that was no longer the
  actual one, and what each confirmation found. A run is *disturbed* if it is among the second or the
  third, or if the drift check would already have rejected what the fourth says.
- A constant of an object says what its surroundings are certain not to do (`World`, `reliable`), a
  `smooth` call is one in which nothing but a merge fails. Safety is stated without them; progress needs them.

## Where the code promises less than one might expect

- Layers saturate at 32 bits, so dependency order is guaranteed exactly below that cap.
- A run can fail for drift although nobody moved the target: `fail_step` records no head
  (`crates/application/src/feature_integration.rs:500-544`), so after a merge that took effect but was
  not recorded the next run is confirmed off its target (`StaleHeadFailsNextRun`). And a reconciliation
  reads the head and records it later (`crates/application/src/checkout.rs:305`, `:951`, `:986`), so it
  can put back an old head under a running run (`LateReconciliationFailsRun`). Where nobody moves the
  target, being confirmed off it and a late record are the only reasons (`History`).
- An approval reads the proposal in one transaction and writes in another. A rejection stops exactly
  the proposals of which no approval is open (`RejectionClosesExactly`); otherwise the items can be
  published although the proposal stays rejected.
- First in, first out holds for follow-ups of one session exactly while no earlier one is under an
  unexpired lease.
- An uncertain delivery is never resent because reconciliation never answers "deferred"; if it did,
  it would be.
- The status of a launch batch is truthful because outcomes are marked only after the batch left its
  preview; a mark before that, combined with a failing confirmation, leaves it stale.
- `unique_slug` records a name before validating it, so an invalid candidate uses up its name.

## Model

| member | source | states |
|---|---|---|
| IntegrationRun.History | crates/application/src/feature_integration.rs:145-561 | Over any history of previews, confirmations and resumptions, each crashing between any two effects while other parties move the target, read its head and record it at any later time, change sources or preview more runs: no source head is merged twice, a completed run has every step contained in the target, the steps of every run have the shape its status promises, and at most one run is running. A run failed for drift only if, while it was running, the target was moved or a head that was not the actual one was recorded, or if the record of its confirmation already drifted; where nobody else moves the target and no head is recorded late, only the last is left. Runs that these calls previewed integrate the candidates of their queue, step by step in its order |
| IntegrationRun.FeatureTarget.ExecuteRun | crates/application/src/feature_integration.rs:299-422 | From any state with a running run: the reported outcome is the stored status, or the run is still running; planned items and source heads never change, integrated steps stay as they are, what is merged are sources of this run in position order, at most one per position. The call reports failure only for a drift verdict, and a drift verdict ends it with nothing merged; the verdict is exact for what was read, which is the state at the start, up to a reconciliation, unless others moved the target or recorded another head, and it is given only of a disturbed run. A smooth call does not crash; on a steady target it completes the run only if every pending item waits in the queue at its queued source head and no two are of one item, and if so, without drift and where merges succeed, it completes the run or dies and leaves the rest in that condition |
| IntegrationRun.CompleteDespiteCrashes | crates/application/src/feature_integration.rs:282-422 | A running run that nobody disturbs, whose pending items wait in the queue at their queued source heads and whose merges succeed, is completed by the first call that survives, after any number of calls that died at any point, while others read the target, record its current head and preview runs |
| IntegrationRun.DependenciesIntegrateFirst | crates/application/src/feature_integration.rs:191-213 | In a run stored from a sorted queue, in whatever status, the step of every transitive dependency below the 32-bit cap stands before the step of its dependant, and is integrated when that one is integrated or in conflict |
| IntegrationRun.FeatureTarget.CheckDrift | crates/application/src/feature_integration.rs:305-333 | The verdict is exactly: the head Git answered is neither the recorded one nor the last recorded result, and the first pending source was not contained when asked; on a target that nobody else moved it is decided by the state at the start; an undisturbed run never drifts |
| IntegrationRun.DriftsAtFrontier | crates/application/src/feature_integration.rs:306-327 | For a run with its first steps integrated the verdict is: the head is neither the recorded one nor the result of the last integrated step, and the source of the next step is not contained |
| IntegrationRun.FreshRunDriftsExactly | crates/application/src/feature_integration.rs:308-326 | For a run of which nothing is integrated yet the verdict is: the head is not the recorded one and the first source is not contained |
| IntegrationRun.StaleHeadFailsNextRun | crates/application/src/feature_integration.rs:227-544 | A concrete history without any outsider in which a run fails for drift: a merge took effect but was reported as failed, its conflict recorded no head, and the next run was confirmed off its target |
| IntegrationRun.LateReconciliationFailsRun | crates/application/src/checkout.rs:298-345 | A concrete history on a target that nobody moves: a reconciliation reads the head, a run merges and completes, the next run is confirmed at its target, the old head is recorded, and the run drifts and fails |
| IntegrationRun.FeatureTarget.Record | crates/application/src/checkout.rs:928-994 | A reconciliation that read the head at any earlier time writes it: the running runs are on record as misled if it is neither the actual nor the recorded head, and the invariant is kept |
| IntegrationRun.RecordedSound | crates/application/src/checkout.rs:928-994 | A late record keeps the invariant of all runs, once the misled ones are on record |
| IntegrationRun.ReadyInTurn | crates/application/src/feature_integration.rs:354-400 | The steps can be taken one after the other, each closing its item in the queue, exactly if every pending item waits there at its queued source head and no two are of one item |
| IntegrationRun.FeatureTarget.Merge | crates/application/src/feature_integration.rs:115-133 | A merge that reports success took effect; one that reports failure changed nothing or took effect all the same |
| IntegrationRun.FeatureTarget.IntegratePending | crates/application/src/feature_integration.rs:354-400 | The loop over pending steps ends with all steps integrated, with a conflict, or early with the run still running; merges happen in position order |
| IntegrationRun.FeatureTarget.IntegrateStep | crates/application/src/feature_integration.rs:354-400 | One step: integrated with its source contained and the other steps untouched, and then the source head that was read is the queued one; a differing one ends the call in a conflict with nothing merged; without one, the item was not queued or has no source. On an undisturbed target the source is merged exactly if it was missing, and step result, recorded head and actual head agree; otherwise a conflict with an integrated prefix and a skipped rest, or a refusal that leaves the run running; a call that dies leaves the step pending, or integrated and closed in the queue |
| IntegrationRun.FeatureTarget.MergeSource | crates/application/src/feature_integration.rs:380-399 | Merges a missing source once; after a crash or a reported failure behind an effective merge, the source counts as contained and is not merged again; where merges succeed only a crash stops it |
| IntegrationRun.FeatureTarget.CompleteStep | crates/application/src/feature_integration.rs:424-480 | Marks the step integrated if pending, moves the queue row and the recorded head, and keeps the run invariant |
| IntegrationRun.FeatureTarget.RecordExpected | crates/application/src/feature_integration.rs:482-498 | Writes the expected target of a pending step and nothing else |
| IntegrationRun.FeatureTarget.FailStep | crates/application/src/feature_integration.rs:500-544 | Conflict at the step, later pending steps skipped, earlier ones kept, run in conflict |
| IntegrationRun.FeatureTarget.FailRun | crates/application/src/feature_integration.rs:546-561 | Only the status of the run becomes failed; for a disturbed running run this keeps the invariant |
| IntegrationRun.FeatureTarget.CloseRun | crates/application/src/feature_integration.rs:401-421 | Completes a run whose steps are all integrated, with the actual head as result when the target is undisturbed |
| IntegrationRun.FeatureTarget.TakeLease | crates/application/src/feature_integration.rs:227-279 | The confirmation is consumed exactly when run, token and expiry match, the run is previewed and no run is running; what it found is on record |
| IntegrationRun.FeatureTarget.Confirm | crates/application/src/feature_integration.rs:227-280 | A refused confirmation changes no run and merges nothing; an accepted one ends as `ExecuteRun` states, and what it found stays on record |
| IntegrationRun.FeatureTarget.Resume | crates/application/src/feature_integration.rs:282-293 | A run that is not running is reported unchanged; a running one is executed again and ends as `ExecuteRun` states |
| IntegrationRun.FeatureTarget.Preview | crates/application/src/feature_integration.rs:145-218 | The exact answer for a blank, foreign or replayed key and an empty queue; otherwise, with others acting between the reads and the write, the queue is stored as pending steps at the recorded head that was read, in queue order, unless id, key or token are taken by then; each step carries item and source head of the candidate at its position |
| IntegrationRun.FeatureTarget.StoreRun | crates/application/src/feature_integration.rs:173-213 | The run is stored exactly when its id, key and token are unused, and nothing else changes |
| IntegrationRun.FirstPendingAtFrontier | crates/application/src/feature_integration.rs:315-319 | The pending source that the drift check looks at is the one at the merge frontier |
| DependencyOrder.LayerWalk.DependencyLayer | crates/application/src/feature_integration.rs:820-841 | For every edge list and correct memo it terminates, an error proves a cycle reachable, a success is the longest dependency chain capped at 32 bits; the memo stays correct and only grows |
| DependencyOrder.Candidates | crates/application/src/feature_integration.rs:598-666 | Errs exactly when a cycle is reachable from one of the rows; otherwise the queue holds each retained row once, labelled with its layer, in queue order |
| DependencyOrder.Label | crates/application/src/feature_integration.rs:632-652 | Labels all rows with one shared memo; an error proves a reachable cycle |
| DependencyOrder.Retain | crates/application/src/feature_integration.rs:653-653 | Keeps exactly the labelled rows of the retained items, in order |
| DependencyOrder.DependenciesFirst | crates/application/src/feature_integration.rs:598-666 | In the queue every transitive dependency whose layer is below the 32-bit cap precedes its dependants |
| DependencyOrder.QueuePlaces | crates/application/src/feature_integration.rs:654-664 | In the queue the smaller layer stands earlier, then the smaller proposal order, then the smaller slug |
| DependencyOrder.QueueMembers | crates/application/src/feature_integration.rs:653-653 | A row is queued if and only if its item is retained |
| Common.TextLeMeans | crates/application/src/feature_integration.rs:654-664 | A slug is at most another exactly if they are equal, it is a proper beginning of the other, or it is smaller at the first difference |
| DependencyOrder.CapNeedsManyEdges | crates/application/src/feature_integration.rs:820-841 | A dependency can be at the cap only in a graph of more than 2^32 - 1 edges |
| DependencyOrder.LayerDropsExactlyBelowCap | crates/application/src/feature_integration.rs:820-841 | Along a dependency chain the layer drops if and only if the dependency sits below the 32-bit cap |
| DependencyOrder.CapLosesTheOrder | crates/application/src/feature_integration.rs:820-841 | A concrete line of dependencies on which the saturated layers of an item and its dependency coincide |
| DependencyOrder.CandidateOrder | crates/application/src/feature_integration.rs:654-664 | Layer, proposal order and slug form a total preorder, so the sort is well defined |
| Sorting.StableSortSorted | crates/application/src/feature_integration.rs:654-664 | The queue sort orders by any total preorder and loses nothing |
| Sorting.StableSortKeepsOrder | crates/application/src/batch_launch.rs:183-183 | The sort by layer is stable |
| Sorting.MatchingMembers | crates/application/src/feature_integration.rs:653-653 | Filtering keeps each element that passes as often as it was there, and no other |
| Graphs.LongestChainAlong | crates/application/src/feature_integration.rs:820-841 | The longest chain grows by at least the length of any chain walked |
| Graphs.LongestWithinEdgeCount | crates/application/src/feature_integration.rs:820-841 | An acyclic longest chain is no longer than the number of edges |
| ProposalValidation.ValidateItems | crates/application/src/feature_work_item_planning.rs:544-584 | Accepts exactly the structurally sound proposals, down to title length in bytes, control characters and blank texts; size and duplicate-slug errors exactly when they apply; any other error is that of the first faulty item |
| ProposalValidation.TextRefusedExactly | crates/application/src/feature_work_item_planning.rs:559-568 | The texts of an item are refused if and only if title or body show nothing, or the title is longer than 200 bytes or holds a control character |
| ProposalValidation.CycleSearch.Visit | crates/application/src/feature_work_item_planning.rs:631-651 | The white/grey/black search: success means every node marked visited reaches no cycle, failure means the start of the current path reaches one |
| ProposalValidation.SearchAll | crates/application/src/feature_work_item_planning.rs:623-629 | From all keys in any order, accepts if and only if the graph is acyclic |
| ProposalValidation.ValidateAgainstExisting | crates/application/src/feature_work_item_planning.rs:586-629 | The exact verdict and error: taken slug, unknown dependency, cycle, in that order, else accepted |
| ProposalValidation.BuildGraph | crates/application/src/feature_work_item_planning.rs:610-622 | The searched graph has exactly the dependencies among the proposed items as edges |
| ProposalValidation.DistinctBySize | crates/application/src/feature_work_item_planning.rs:550-576 | Comparing a set size with a list length decides distinctness |
| ProposalApproval.RunsStayAcyclic | crates/application/src/feature_work_item_planning.rs:75-305 | Over every run of proposals, rejections and approvals, with any number of approvals between their read and their write: the persistent graph is acyclic, existing items keep their row and never gain a dependency |
| ProposalApproval.StepKeepsInv | crates/application/src/feature_work_item_planning.rs:75-305 | Each single step keeps the invariant behind that |
| ProposalApproval.CommitKeepsInv | crates/application/src/feature_work_item_planning.rs:225-304 | The write transaction of an approval keeps it, although its context is from an earlier transaction |
| ProposalApproval.CommitKeepsAcyclic | crates/application/src/feature_work_item_planning.rs:269-295 | Edges from fresh items cannot close a cycle through old ones |
| ProposalApproval.CommitWritesDependencies | crates/application/src/feature_work_item_planning.rs:225-304 | After the write transaction of an open approval every published item depends on exactly the items of its Feature that carry the slugs it declares, whether proposed with it or existing before, and no other dependency is new |
| ProposalApproval.RunsPublishAsProposed | crates/application/src/feature_work_item_planning.rs:75-305 | In every run, whatever the approvals read and whenever they write, each item published in it stands under the slug of its proposal and depends on exactly the items it declares, from then on |
| ProposalApproval.StepPublishesAsProposed | crates/application/src/feature_work_item_planning.rs:75-305 | Each single step keeps that |
| ProposalApproval.AcceptedProposalFits | crates/application/src/feature_work_item_planning.rs:586-600 | A proposal accepted against the slugs there are clashes with no item |
| ProposalApproval.OpenContextResolves | crates/application/src/feature_work_item_planning.rs:269-295 | The dependency resolution of an open approval never fails, proposed items first, then existing ones |
| ProposalApproval.ResolveMeaning | crates/application/src/feature_work_item_planning.rs:271-282 | A slug resolves to a proposed item that carries it; only if there is none, to the known item |
| ProposalApproval.InsertedItems | crates/application/src/feature_work_item_planning.rs:225-268 | Inserted rows are exactly the proposed ones, old rows are kept |
| ProposalApproval.InsertRows | crates/application/src/feature_work_item_planning.rs:225-268 | The insertion loop computes them, or aborts on the first clash |
| ProposalApproval.InsertDependencies | crates/application/src/feature_work_item_planning.rs:269-295 | The edge loop inserts exactly the resolved dependencies, or fails exactly when one does not resolve |
| ProposalApproval.PlanningTables.Propose | crates/application/src/feature_work_item_planning.rs:75-145 | Stores the proposal exactly when it is sound and acceptable against the slugs read |
| ProposalApproval.PlanningTables.Approve | crates/application/src/feature_work_item_planning.rs:194-305 | All rows of the approval or none |
| ProposalApproval.PlanningTables.Reject | crates/application/src/feature_work_item_planning.rs:173-192 | Rejects exactly a proposal that awaits approval |
| ProposalApproval.RejectionClosesExactly | crates/application/src/feature_work_item_planning.rs:173-305 | A rejection closes a proposal if and only if no approval of it is open; otherwise, unless an item clashes, the very next step can publish all its items and leave it rejected |
| ProposalApproval.ClosedForGood | crates/application/src/feature_work_item_planning.rs:173-406 | A proposal rejected with no approval open stays rejected, none opens, and none of it is committed, in every run |
| ProposalApproval.OpenApprovalPublishes | crates/application/src/feature_work_item_planning.rs:225-304 | An open approval can commit whatever happened to its proposal since, and publishes every item exactly when none clashes with an item that exists by then |
| ProposalApproval.InsertionFitsExactly | crates/application/src/feature_work_item_planning.rs:225-268 | Rows with distinct ids and slugs go in exactly when no id and no slug is in use |
| ProposalApproval.RejectedProposalPublishes | crates/application/src/feature_work_item_planning.rs:173-305 | A concrete run in which an item of a rejected proposal is published |
| Graphs.ExtensionStaysAcyclic | crates/application/src/feature_work_item_planning.rs:269-295 | Extending an acyclic graph by edges that start at new nodes and are acyclic among them keeps it acyclic |
| FollowUps.NoBlindResend | crates/application/src/follow_up.rs:159-197 | Once an uncertain outcome is recorded, no lease granted later leads to a deliver call, in any interleaving in which asking about an uncertain delivery of this follow-up is never answered with a deferral |
| FollowUps.UncertaintyLostExactly | crates/application/src/follow_up.rs:456-506 | One step loses the uncertainty of an unsettled follow-up if and only if its lease holder records a deferral |
| FollowUps.UncertainFate | crates/application/src/follow_up.rs:159-197 | From then on the row is uncertain, delivered or failed |
| FollowUps.AnswerIsRecorded | crates/application/src/follow_up.rs:159-197 | What the call and the finish of a lease holder make of each answer: a receipt found by the reconciliation of a later attempt is recorded as delivered, one not found after an uncertain delivery fails the row, a reconciliation failure counts as it is, and `deliver` is called, and its answer recorded, on a first attempt or after a certain absence only |
| FollowUps.SettledByItsLease | crates/application/src/follow_up.rs:159-506 | In every run a delivered row holds a valid receipt that the provider confirmed to the lease that settled it, by reconciliation or by a `deliver` call it was safe to make; a failed row was refused to that lease by the provider, could not be found again after an uncertain delivery, or was dropped |
| FollowUps.DeferredReconciliationResends | crates/application/src/follow_up.rs:159-197 | A concrete run from the empty queue that resends after a deferred reconciliation |
| FollowUps.SecondLeaseIsReached | crates/application/src/follow_up.rs:159-506 | Its first half: an uncertain delivery is recorded and a second worker takes the lease |
| FollowUps.RunInv | crates/application/src/follow_up.rs:301-506 | In every reachable state a row is leased exactly when it has a token, the token is of its latest lease, the attempt count is the number of leases granted |
| FollowUps.TerminalRowsStay | crates/application/src/follow_up.rs:456-506 | Delivered and failed rows never change again, so at most one receipt is recorded |
| FollowUps.SupersededFinish | crates/application/src/follow_up.rs:456-506 | The finish of a superseded worker changes nothing |
| FollowUps.RunContiguous | crates/application/src/follow_up.rs:262-297 | Sequence numbers per session and binding generation are exactly 1..n and keys are unique, in every run |
| FollowUps.RunCreatedInOrder | crates/application/src/follow_up.rs:262-297 | Creation times follow the sequence when request times do not decrease |
| FollowUps.GrantsInOrder | crates/application/src/follow_up.rs:301-418 | At a grant, everything earlier in the line is terminal if and only if nothing earlier is under an unexpired lease |
| FollowUps.OldestIsGranted | crates/application/src/follow_up.rs:301-454 | A lease for two minutes goes to a row of the session asked for that is open and under no live lease, and no such row is older, or as old with a smaller session or sequence |
| FollowUps.DropFails | crates/application/src/follow_up.rs:301-454 | Instead of a lease, a row whose binding no longer stands is failed for that reason, keeps its attempts, and no other row changes |
| FollowUps.RequestStays | crates/application/src/follow_up.rs:199-299 | Owner, session, generation, sequence, key, text hash and creation time of a row are those of its request for good, in every run |
| FollowUps.LiveLeaseIsOvertaken | crates/application/src/follow_up.rs:342-348 | A concrete run from the empty queue in which a follow-up is leased while an earlier one is under an unexpired lease |
| FollowUps.OnlyUncertainIsUncertain | crates/application/src/follow_up.rs:178-182 | The prefix test on the stored text recognises exactly the uncertain failures |
| FollowUpStore.FollowUpTable.Queue | crates/application/src/follow_up.rs:199-299 | A malformed request or an owner that takes no follow-ups is refused; a replayed key adds nothing and answers with the stored row or a conflict; otherwise the exact error, among them a key that another call took between read and write, or one new row at the end of its line |
| FollowUpStore.QueuedRequestIsReplayed | crates/application/src/follow_up.rs:199-240 | In every run a queued request is found under its key in exactly one row, and a later request under that key counts as a replay exactly if owner, generation and text hash agree and it names no other session |
| FollowUpStore.MalformedExactly | crates/application/src/follow_up.rs:675-690 | A request is malformed if and only if it expects no binding, or key or text show nothing, hold a NUL, or are longer than 512 bytes and 64 KiB |
| FollowUpStore.FollowUpTable.Insert | crates/application/src/follow_up.rs:262-297 | Adds the row exactly when its key is not taken, as a step of the interleaved system |
| FollowUpStore.FollowUpTable.FreeSequence | crates/application/src/follow_up.rs:262-268 | The next free sequence number of the line |
| FollowUpStore.FollowUpTable.Select | crates/application/src/follow_up.rs:307-375 | The first eligible row in queue order, or none exists |
| FollowUpStore.FollowUpTable.LeaseNext | crates/application/src/follow_up.rs:301-454 | Leases the first eligible row, fails it when its evidence is gone, or reports overflow; nothing when none is eligible |
| FollowUpStore.FollowUpTable.FinishDelivery | crates/application/src/follow_up.rs:456-506 | Writes the outcome only while the row holds this token; a receipt that is blank or longer than 64 KiB changes nothing |
| BatchLaunch.OneReservation | crates/application/src/batch_launch.rs:259-365 | However transactions of competing calls interleave, at most one reservation succeeds |
| BatchLaunch.RunsKeepInv | crates/application/src/batch_launch.rs:259-598 | In every run where outcomes are marked only after the preview is left: previewed means all children selected; reserved means all reserved with a checkout; otherwise status and completion time are the aggregate of the children; a reserved child has its checkout, a launched one its intent, a bound one its session, and a failed or skipped one its reason |
| BatchLaunch.StepKeepsInv | crates/application/src/batch_launch.rs:259-598 | Each transaction keeps that |
| BatchLaunch.AllOrNothing | crates/application/src/batch_launch.rs:286-363 | A reservation gives every child its prepared checkout or changes nothing, and succeeds exactly with the token on a batch still in preview |
| BatchLaunch.AggregateMeaning | crates/application/src/batch_launch.rs:566-595 | Launching, completed, failed and partial mean what they say of the children |
| BatchLaunch.CompletedHasSessions | crates/application/src/batch_launch.rs:535-598 | In every such run a completed batch has a session for every child and a failed one a reason for every child |
| BatchLaunch.MarkMeaning | crates/application/src/batch_launch.rs:366-423 | Marking a child launched, bound or failed sets exactly its status and its intent, session or failure and leaves the other children alone; the batch is launching without a completion time while a child is pending, and settled at this time otherwise |
| BatchLaunch.PreflightMeaning | crates/application/src/batch_launch.rs:508-533 | A failed preflight of a previewed batch fails the child it failed for with that reason and skips all others |
| BatchLaunch.PreflightFailureKeepsInv | crates/application/src/batch_launch.rs:508-533 | A failed preflight fails a previewed batch with all its children and leaves any other batch alone |
| BatchLaunch.PreviewIsLeftForGood | crates/application/src/batch_launch.rs:259-598 | No transaction returns a batch to its preview |
| BatchLaunch.EarlyMarkLeavesStaleStatus | crates/application/src/batch_launch.rs:508-598 | A concrete run in which marking a batch still in preview leaves its status wrong |
| BatchLaunch.StaleStatusExactly | crates/application/src/batch_launch.rs:508-533 | Exactly when a late preflight failure keeps status and completion time truthful |
| BatchLaunch.ManagedBatch.ReserveWith | crates/application/src/batch_launch.rs:259-365 | The whole call, with any transactions of others before each of its steps, ends in exactly the sequence of transactions stated; it succeeds exactly when its last one does |
| BatchLaunch.ManagedBatch.ConfirmableMeans | crates/application/src/batch_launch.rs:479-505 | A confirmation counts with the token of the batch, before it expires, and only in preview |
| BatchLaunch.ManagedBatch.CommitReservation | crates/application/src/batch_launch.rs:286-363 | The last transaction, with its revalidation and token guard |
| BatchLaunch.ManagedBatch.RecordPreflightFailure | crates/application/src/batch_launch.rs:508-533 | The failing child fails, the other selected ones are skipped |
| BatchLaunch.ManagedBatch.UpdateChild | crates/application/src/batch_launch.rs:535-598 | Marks one child and recomputes the aggregate; a missing position changes nothing |
| BatchLaunch.ManagedBatch.Reconcile | crates/application/src/batch_launch.rs:425-465 | Commits exactly the marks that its first reading calls for, in order, whatever others commit in between |
| BatchLaunch.ReconcileFollowsUp | crates/application/src/batch_launch.rs:425-465 | Undisturbed, each launched or failed child with an intent is bound, failed or kept as its session and intent say, and the status is the aggregate |
| BatchLaunch.ReconciliationMeaning | crates/application/src/batch_launch.rs:425-465 | A launched or failed child is bound to the session of its intent if there is one, fails if its intent failed, was cancelled or expired without one, and stays as it is otherwise, as does every other child |
| BatchLaunch.ReconcileKeepsPreview | crates/application/src/batch_launch.rs:425-465 | It marks nothing of a batch that it read in preview or freshly reserved |
| BatchLaunch.Preview | crates/application/src/batch_launch.rs:79-187 | The exact answer: key, profile and replay first, then the selection, then the first offending item; otherwise the children of the ready items, sorted by layer and numbered |
| BatchLaunch.Collect | crates/application/src/batch_launch.rs:132-176 | The loop over the Work items collects the children of the ready ones, or stops at the first offence |
| BatchLaunch.GoesAheadExactly | crates/application/src/batch_launch.rs:103-182 | A preview goes ahead if and only if all selected items belong to the Feature, every selected one is ready, no ready one has a writer, and some ready one has a repository |
| BatchLaunch.SelectionExactly | crates/application/src/batch_launch.rs:103-126 | The items requested are the selected ones of the Feature, and the counts agree if and only if all selected items belong to it |
| BatchLaunch.PushedPlaces | crates/application/src/batch_launch.rs:159-176 | The children are one for each repository of each ready item, with that repository and the layer of the item, in this order, and no more |
| BatchLaunch.PreviewOrder | crates/application/src/batch_launch.rs:183-187 | Layers do not decrease, no child is lost, inside a layer the order of Work items stays |
| BatchLaunch.PreviewStartsOut | crates/application/src/batch_launch.rs:183-231 | A stored preview satisfies the invariant, each child in its Work item layer |
| CheckoutAllocation.RunsStayIsolated | crates/application/src/checkout.rs:928-1672 | Over every history of allocations, unavailability, reconciliations and registrations: rows of one repository share no allocation, path, branch or Git identity; each log has generations 1..n matching its row; logs only grow and no row is handed to another allocation |
| CheckoutAllocation.EventsAreAnswers | crates/application/src/checkout.rs:928-994 | In every history each event of a log was written by one step and says the availability and the head that this step saw, and the readiness row says what the last one saw |
| CheckoutAllocation.StepTells | crates/application/src/checkout.rs:928-994 | Each step appends at most one event to a log, with what it saw, writes the same on the readiness row, and touches no other row and no other log |
| CheckoutAllocation.StepWritesCheckout | crates/application/src/checkout.rs:928-994 | Which checkout, path and readiness row each step leaves: at the boundary asked for under the identity Git gave, missing with the head known, or available at the head found |
| CheckoutAllocation.AdmissibleExactly | crates/application/src/checkout.rs:174-266 | An allocation goes through if and only if its request has a key, its row, if any, is where it was recorded and has no writer, and Git gave a worktree of the repository at the boundary asked for that is not the parent, holds a commit, shares nothing with another allocation, and whose path is on record for its checkout and no other |
| CheckoutAllocation.StepKeepsInv | crates/application/src/checkout.rs:928-1672 | Each writer keeps that |
| CheckoutAllocation.PersistedKeepsInv | crates/application/src/checkout.rs:1422-1595 | The readiness write keeps it |
| CheckoutAllocation.UnavailableKeepsInv | crates/application/src/checkout.rs:1627-1672 | Marking unavailable keeps it |
| CheckoutAllocation.ReconciledKeepsInv | crates/application/src/checkout.rs:928-994 | A registered reconciliation keeps it, with or without a readiness row |
| CheckoutAllocation.PersistTarget | crates/application/src/checkout.rs:1455-1474 | A row already under the checkout id belongs to the allocation, and exists exactly when one was read |
| CheckoutAllocation.PathChecks | crates/application/src/checkout.rs:1494-1519 | The path checks of the write find exactly the path conflicts there are |
| CheckoutAllocation.BoundariesCoincide | crates/application/src/checkout.rs:1111-1144 | Derived paths coincide exactly when branches do: same Work item, same purpose, same hash suffix |
| CheckoutAllocation.CollidingKeysAreRefused | crates/application/src/checkout.rs:1134-1420 | Two session keys with one hash suffix: the second allocation is refused |
| CheckoutAllocation.CheckoutStore.Prepare | crates/application/src/checkout.rs:166-280 | Succeeds exactly when request, recorded row, Git answer, collision and path checks pass; then the row stands at its boundary; a refusal after Git answered marks the row missing, any other error changes nothing; rows of other allocations are untouched |
| CheckoutAllocation.CheckoutStore.Examine | crates/application/src/checkout.rs:174-266 | The checks before the write, in order, with their errors |
| CheckoutAllocation.CheckoutStore.Persist | crates/application/src/checkout.rs:1422-1595 | Succeeds exactly without a path conflict and then writes the stated rows |
| CheckoutAllocation.CheckoutStore.RecordUnavailable | crates/application/src/checkout.rs:1627-1672 | Checkout and readiness row become missing, the row takes the next generation, and an event with that generation and the old head is logged; nothing else changes, and the invariant is kept |
| CheckoutAllocation.CheckoutStore.RecordReconciliation | crates/application/src/checkout.rs:928-994 | The checkout becomes available at the new head; a readiness row too, with the next generation and an event of it; without a row nothing is logged; nothing else changes, and the invariant is kept |
| ConfigReplacement.ConfigPath.Replace | crates/application/src/integration.rs:1061-1163 | Amid other writers between all file operations: success means the reviewed bytes were displaced (or nothing, when none were reviewed) and the new ones created; failure means nothing, a displacement, or a displacement and its restoration, and a displaced file is missing from the path only if a file operation failed; a change is reported only if there was one. Where nobody else writes and no file operation fails, it succeeds exactly for valid JSON over the reviewed contents, and else the error says which of the two is amiss |
| ConfigReplacement.SuccessIsASwap | crates/application/src/integration.rs:1061-1163 | A success found no file when it created its own and, before, exactly the reviewed bytes when it displaced; all else at the path was done by others |
| ConfigReplacement.FailureIsInvisible | crates/application/src/integration.rs:1061-1204 | After a failed call the path is as others left it, except that a file operation failed and the displaced file is not back, or that it was put back after others removed theirs |
| ConfigReplacement.LastPutSurvives | crates/application/src/integration.rs:1061-1204 | What another writer put last is still at the path after a failed call, unless it was displaced and then a file operation failed |
| ConfigReplacement.ConfigPath.TakeAside | crates/application/src/integration.rs:1120-1135 | Accepts the displaced file only with the reviewed bytes; any other is back, or others have put a file, or a file operation failed |
| ConfigReplacement.ConfigPath.Displace | crates/application/src/integration.rs:1165-1193 | Moves away what is there, whatever it is |
| ConfigReplacement.ConfigPath.Restore | crates/application/src/integration.rs:1195-1204 | Success leaves a file at the path: the displaced one where nothing was, otherwise that of others; failure is a file operation that failed |
| HookRemoval.RemoveOwned | crates/application/src/integration.rs:830-865 | The three nested retains compute the removal function |
| HookRemoval.EntriesKept | crates/application/src/integration.rs:830-865 | Every foreign handler survives with its group, in order; nothing else does |
| HookRemoval.HandlerSurvivesExactly | crates/application/src/integration.rs:830-884 | A handler is listed after the removal, under its event in a group with the same other fields, if and only if it was listed before and does not mention the owner |
| HookRemoval.OwnedExactly | crates/application/src/integration.rs:867-884 | A handler is owned if and only if some part of its command lines is the owner text, or its arguments pass the owner right after `--owner` |
| HookRemoval.NoOwnedHandlerLeft | crates/application/src/integration.rs:830-884 | No owned handler is left in an array-shaped group |
| HookRemoval.RemovalIdempotent | crates/application/src/integration.rs:830-865 | Removing twice is removing once |
| HookRemoval.RestOfConfigurationKept | crates/application/src/integration.rs:830-865 | Other root fields and events that are no arrays are kept, and an event goes only when nothing foreign is left of it |
| HookRemoval.RemovalUndoesInstallation | crates/application/src/integration.rs:733-884 | Removal maps the installed configuration of any tool, executable and database to the empty object |
| HookRemoval.InstalledUnderEveryEvent | crates/application/src/integration.rs:740-796 | What is installed lists the handler under every event of the tool, with its matcher |
| HookRemoval.ClaudeHandlerIsOwned | crates/application/src/integration.rs:733-884 | The installed handler is recognised by its arguments |
| HookRemoval.CodexHandlerIsOwned | crates/application/src/integration.rs:733-884 | The installed handler is recognised in its quoted command line, for every executable and database |
| ShellQuoting.ShellReadsBack | crates/application/src/integration.rs:811-828 | POSIX.1-2017 Shell Command Language, sections 2.2.2, 2.2.3 and 2.3: the command line is read back as exactly the executable and the arguments if and only if all are NUL-free |
| ShellQuoting.ScanQuoted | crates/application/src/integration.rs:811-828 | A quoted value reads back as itself, whatever follows |
| ConfirmationDigest.StreamInjective | crates/application/src/integration.rs:494-557 | Two inputs that feed the digest the same bytes are equal in tool, paths, operation and every present or absent content |
| ConfirmationDigest.ConfigurationDigest | crates/application/src/integration.rs:494-552 | The updates of the hasher feed exactly that stream |
| ConfirmationDigest.FieldReadOff | crates/application/src/integration.rs:554-557 | A length-prefixed field can be read off the front of a stream in one way only |
| PlanPhases.PhaseSpans | crates/application/src/concertable_import.rs:984-1032 | Heading spans if there are any or no phase section; otherwise the list spans of the section; in both cases non-empty, starting in increasing order, pairwise disjoint or nested |
| PlanPhases.PickSpans | crates/application/src/concertable_import.rs:991-1025 | The loop over the headings computes exactly the heading spans that `HeadingSpansWellFormed`, `SpansAreThePicked` and `SpanEndExactly` characterise |
| PlanPhases.HeadingSpansWellFormed | crates/application/src/concertable_import.rs:984-1025 | Heading spans are non-empty, start in increasing order, lie inside the phase section when there is one, and are pairwise disjoint or nested |
| PlanPhases.SpansAreThePicked | crates/application/src/concertable_import.rs:1003-1025 | Exactly the picked headings open spans |
| PlanPhases.PickedExactly | crates/application/src/concertable_import.rs:991-1017 | Without a phase section exactly the phase headings are picked; with one, exactly the phase headings and the numbered headings right below its level that follow the first section heading with no heading of its level or above in between |
| PlanPhases.SpanEndExactly | crates/application/src/concertable_import.rs:1018-1023 | A span runs to the next heading of its level or above, or to the end |
| PlanPhases.ListSpansWellFormed | crates/application/src/concertable_import.rs:1065-1085 | List spans are non-empty, disjoint, in order, inside the section, and none runs over another list item |
| PlanPhases.ListSpansAreThePhases | crates/application/src/concertable_import.rs:1065-1085 | Exactly the phase items open list spans |
| PlanPhases.ListSpanEnds | crates/application/src/concertable_import.rs:1065-1085 | A list span runs to the next list item, or to the end of the section after the last |
| PlanPhases.CandidatesExactly | crates/application/src/concertable_import.rs:1065-1085 | The list items considered are exactly those of the section |
| Slugs.PhaseSlugs | crates/application/src/concertable_import.rs:1033-1047 | Gives each phase the first free variant of its name; fails exactly when, at some phase, all 10,000 variants are taken by those before it, so never for up to 10,000 phases |
| Slugs.AssignedSlugsDiffer | crates/application/src/concertable_import.rs:1033-1047 | The slugs are well formed and all differ, blank or equal titles included |
| Slugs.StuckForGood | crates/application/src/concertable_import.rs:1033-1047 | An assignment of all phases excludes that failure |
| Slugs.UsedSlugs.Unique | crates/application/src/concertable_import.rs:1372-1390 | Takes the first free variant; exhausted exactly when all 10,000 are in use; for a well-formed candidate this needs as many names |
| Slugs.DeriveSlug | crates/application/src/concertable_import.rs:1345-1370 | The loop computes the derived slug, stopping at the length limit |
| Slugs.DerivedExactly | crates/application/src/concertable_import.rs:1345-1370 | A title with letters gives a well-formed slug of at most 93 characters, without double dashes, keeping the letters in order up to the cut; one without gives the fallback name |
| Slugs.ScanJoinsWords | crates/application/src/concertable_import.rs:1345-1370 | The slug is the words of the title, its maximal runs of letters and digits in lower case, joined by single dashes, or a beginning of that of at least 92 characters |
| Slugs.VariantsDiffer | crates/application/src/concertable_import.rs:1372-1390 | Variants with different suffixes differ, even when truncated |
| Slugs.VariantMeaning | crates/application/src/concertable_import.rs:1372-1382 | A numbered variant is the name, cut just enough to stay within 97 characters, a dash and a numeral that reads as the number |
| Slugs.SomeVariantIsFree | crates/application/src/concertable_import.rs:1372-1390 | Fewer names in use than attempts leave one free |
| BoundedReaders.ReadBoundedLine | crates/adapter-codex/src/app_server.rs:900-935 | However the bytes arrive, and unless reading fails: errs exactly when the raw line, or the tail at the end of the stream, exceeds the limit by more than one byte; otherwise gives the first line without its line end and consumes exactly its raw bytes; a line too long is not consumed to its end |
| BoundedReaders.ReadBoundedStderr | crates/adapter-codex/src/app_server.rs:883-898 | Unless reading fails: the first `limit` bytes, oversized exactly when there were more, the stream drained |
| BoundedReaders.WithoutLineEndExactly | crates/adapter-codex/src/app_server.rs:923-925 | Only trailing newline and carriage-return bytes are dropped, and all of them |
| BoundedReaders.FirstLineExactly | crates/adapter-codex/src/app_server.rs:900-935 | What is read is the bytes before a line end, which is a newline after any carriage returns; without a newline, everything |
| BoundedReaders.RawLengthExactly | crates/adapter-codex/src/app_server.rs:912-913 | The raw line ends at the first newline |
| ThreadDiscovery.Discover | crates/adapter-codex/src/app_server.rs:310-394 | Whatever the server answers, or fails to: succeeds exactly when some page ends a walk of distinct cursors within the limits, without a repeated identity, and every thread can be read; gives the threads that are not ephemeral, in order; the page-limit error exactly when all allowed pages continue acceptably; any other error is that of the first page that cannot be accepted or, on a complete listing, of the first thread that cannot be read |
| ThreadDiscovery.KeptExactly | crates/adapter-codex/src/app_server.rs:355-394 | Ephemeral threads are left out and every other one is kept, each in its place |
| ThreadDiscovery.FirstPageEnds | crates/adapter-codex/src/app_server.rs:310-353 | A first page within the limits is the whole listing if and only if its cursor is missing or empty |
| ThreadDiscovery.CompleteUnique | crates/adapter-codex/src/app_server.rs:316-347 | Only one page can complete a listing |
| ThreadDiscovery.RefusedForGood | crates/adapter-codex/src/app_server.rs:331-353 | A refusal is never premature: no later page could have completed the listing |
| ThreadDiscovery.TakeIdentities | crates/adapter-codex/src/app_server.rs:337-344 | Detects exactly a repeated identity |

## Left out

- IntegrationRun.FeatureTarget.Preview: takes the sorted candidates as given; `DependencyOrder.Candidates` states what they are. Keys used elsewhere are parameters.
- IntegrationRun.FeatureTarget.IntegrateStep: `WorkItemStateService` calls are left out, as they are idempotent steps on other tables; a refusal by one of them ends a call like a crash.
- IntegrationRun.History: one Feature in one repository and one executor at a time; two executors of the same run are not guarded by the code and not claimed.
- DependencyOrder.DependenciesFirst: says nothing of a dependency whose layer is capped, since proposal order decides there (`CapLosesTheOrder`).
- FollowUps.NoBlindResend: assumes that reconciling an uncertain delivery of the follow-up is never answered with a deferral, as in both adapters; `UncertaintyLostExactly` and `DeferredReconciliationResends` show that this is what it takes.
- FollowUps.GrantsInOrder: assumes that request times do not decrease and that the joined records of earlier follow-ups are present.
- FollowUpStore.FollowUpTable.Queue: the candidate sessions are a parameter.
- BatchLaunch.RunsKeepInv: assumes that outcomes are marked only after a batch left its preview, as its callers do; `EarlyMarkLeavesStaleStatus` shows that the assumption is needed.
- BatchLaunch.ManagedBatch.CommitReservation: the revalidation query is one boolean per child, and tokens are compared instead of their hashes.
- BatchLaunch.Preview: profile checks are one boolean, and projections a parameter.
- CheckoutAllocation.RunsStayIsolated: neither calls of `Prepare` nor reconciliations overlap with one another, so a row is what it was when read once it is written; rows of purposes that these writers do not insert are not modelled.
- CheckoutAllocation.CheckoutStore.Prepare: one allocation at a time; resolving, creating or restoring the worktree is one answer of Git; request keys, the Feature checkout checks, the operation intent and the override row are left out.
- CheckoutAllocation.BoundariesCoincide: paths are texts, Work-item identifiers have one length, and the 12-digit hash suffix is any function of the session key.
- The generation bump of a Feature checkout in `complete_step` writes no event and is outside the log property.
- ConfigReplacement.ConfigPath.Restore: checking that nothing is at the path and renaming are one step. Directories, permissions, temporary files and backups are left out.
- HookRemoval.RemoveOwned: JSON numbers are their literals and objects have unordered fields.
- ShellQuoting.ShellReadsBack: the non-Windows form only. PowerShell quoting is platform behaviour.
- ConfirmationDigest.StreamInjective: about the bytes fed to the hash, not the hash; paths are their lossy texts.
- ProposalValidation.ValidateItems: the encoded size is a parameter.
- ProposalApproval.PlanningTables.Propose: planning documents, repositories, workflow states and hashes are left out.
- PlanPhases.PhaseSpans: what makes a title a phase, a numbered title, a section or a list item is a parameter.
- Slugs.DeriveSlug: a file name to fall back on is taken to be ASCII; it may be no slug.
- BoundedReaders.ReadBoundedLine: the limit is below the largest machine integer.
- ThreadDiscovery.Discover: notifications, and what makes a thread's fields mappable, are left out.
- Rollback of a workflow contract, backups, and removal of owned files: thin I/O.
- Import of Concertable plans beyond phases and slugs, caller authorisation, and the schema's triggers and views: they would only add simple members.
