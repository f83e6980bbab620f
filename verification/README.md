# Inference Traffic Fabric: a verified model

The Inference Traffic Fabric decides which network traffic of an inference cluster may move. A
*coordinator* holds requests, attempts, transfers, flows, model and state generations, evidence and a policy.
It evaluates traffic requests, stamps its decisions with an epoch, an incarnation, a policy generation and a
sequence number, opens flows for decisions that are still valid, and survives restarts through a snapshot. A
*request ledger* under it keeps lifecycles, attempts, flow accounting and a bounded history of ended requests.

This project models the ledger, the coordinator, the deferral table, evaluation, restart, the snapshot file, the
canonical codec, CRC-32C, UTF-8 validation, the frame header and the session loop, and proves what they keep over
every run. The coordinator holds one lock for the whole of every operation, so a run is a sequence of atomic steps.

How it is laid out:

- `LedgerModel`, `CoordinatorModel`, `Evaluation`, `CoordinatorRuns` and `Restart` give every operation as a function
  of the state. `RequestLedger` and `Coordinator` are the classes with the source's fields; each method is proved to
  compute that function. `Records` drives `Codec.Reader` and `Codec.Writer` field by field.
- `LedgerAccounting`, `LedgerRecords`, `LedgerHistory`, `LedgerEndings`, `LedgerCurrency` hold the ledger theorems.
- `LedgerOperations`, `LedgerPublications`, `StageTable`, `CoordinatorOperations`, `TransferOperations`,
  `EvaluationProofs`, `EvaluationPressure` and `EvaluationGrants` say what each operation demands and leaves by
  order-free conditions that do not mention the functions they describe.
- `CoordinatorCoherence` and `CoordinatorInvariant` prove that every table agrees with the others after every call
  (`Coherent`). `CoordinatorEvolution` proves the directions in which a state can move (`Forward`). On these rest
  `CoordinatorSafety`, `Stamping`, `CoordinatorTransfers`, `Starvation`, `RestartProofs` and `RestartChain`.
- `LedgerFindings`, `CoordinatorFindings`, `PolicyFencing`, `Relabelling`, `Witnesses`, `FlowWitnesses`, `GraceWitnesses`,
  `RestartFindings` and `SnapshotFindings` hold what the code does not keep, each with the input that shows it and the
  exact condition under which it is kept.

Clocks, random boot identities, the iteration order of hash tables (`choice`) and the mixed half of a flow identity
(`tag`) are inputs, so each theorem holds for all of them. Nothing was executed.

## Model

| member | source | states |
|---|---|---|
| `LedgerAccounting.AccountingCloses` | src/ledger.cpp:105-137 | after every run of a new ledger the total, per-class and per-request flow counters equal the counts over live flows, the reverse index is exact, both flow limits hold, and terminal or interrupted requests hold none |
| `LedgerAccounting.StepAccounted` | src/ledger.cpp:616-690 | every ledger operation keeps the books exact |
| `LedgerAccounting.GuardsDead` | src/ledger.cpp:117-123 | whenever a flow is released all three counters it decrements are positive, so the zero guards never act |
| `RequestLedgers.ClosureNeverDiverges` | src/ledger.cpp:800-828 | no run leads to a ledger whose closure check reports a divergence |
| `LedgerRecords.RecordsOnlyMoveForward` | src/ledger.cpp:169-309 | over any run that retains a record, attempt i keeps generation i+1, the current attempt is the last bound, no stage decreases, ended stays ended and cancelled stays cancelled |
| `LedgerRecords.StepKeepsRecords` | src/ledger.cpp:139-614 | every operation keeps every record structured and moves it forward |
| `LedgerRecords.CommitsAreUnique` | src/ledger.cpp:478-614 | at most one publication about a retained record is ever committed, none once it has ended |
| `LedgerHistory.HistoryIsFifo` | src/ledger.cpp:890-901 | over a disciplined run the terminal queue is the earlier queue plus every ending in order, less its oldest entries, one for each eviction counted |
| `LedgerHistory.HistoryIsExact` | src/ledger.cpp:884-901 | from a new ledger the queue holds exactly the retained ended requests once each; registered = live + ended and retained + evicted = ended |
| `LedgerHistory.EvictsOldest` | src/ledger.cpp:890-901 | eviction drops the oldest endings, as many as overflow the ceiling, and counts each |
| `LedgerHistory.LiveCountNeverWraps` | src/ledger.cpp:139-167 | with an exact queue the live count that admission subtracts never wraps |
| `LedgerHistory.BindingNeedsDiscipline` | src/ledger.cpp:169-220 | binding keeps at most one live attempt exactly when the request has none |
| `LedgerHistory.RevalidationNeedsDiscipline` | src/ledger.cpp:222-261 | revalidating keeps that exactly when no attempt is live and the attempt id is new |
| `LedgerEndings.CompletedLeavesExactly` | src/ledger.cpp:311-347 | of all operations, a retained completed request leaves that state, and turns failed, exactly when a live current attempt of it is failed |
| `LedgerEndings.CompletedStaysExactly` | src/ledger.cpp:311-347 | over a run that retains it, a request stays completed if and only if no operation ends it again |
| `LedgerEndings.QueuedTwiceExactly` | src/ledger.cpp:311-347 | while there is room, a completed request is queued twice exactly when the operation ends it again |
| `LedgerEndings.StepKeepsQueueExactly` | src/ledger.cpp:884-901 | every operation keeps the queue exact, except exactly the one that ends an ended request again |
| `LedgerEndings.RunKeepsQueueExactly` | src/ledger.cpp:884-901 | a run keeps the queue exact throughout if and only if it never ends a request twice |
| `LedgerEndings.ExactCountsLive` | src/ledger.cpp:139-167 | while the queue is exact, the live count that admission reads is the number of requests that have not ended |
| `LedgerEndings.CompletedIsFinal` | src/ledger.cpp:478-614 | under the discipline completed is absorbing |
| `LedgerEndings.RepeatsAreSuppressed` | src/ledger.cpp:478-614 | a later publication that names a bound attempt of a completed request is suppressed and changes one counter only |
| `LedgerFindings.UndisciplinedRun` | src/ledger.cpp:169-220 | the five-call run after which a completed request is failed and queued twice, the live count has wrapped, and admission refuses everything |
| `LedgerCurrency.StepMoves` | src/ledger.cpp:169-403 | no operation but a revalidation that names the request makes a retired attempt current or lifts the need to revalidate |
| `LedgerCurrency.RevalidationMayReturn` | src/ledger.cpp:222-261 | a retired attempt returns exactly when it is named again to an open request that awaits revalidation and can bind one more attempt |
| `LedgerFindings.RetiredAttemptReturns` | src/ledger.cpp:222-261 | the five-call run, ending in a revalidation, after which a replaced attempt is current again |
| `LedgerFindings.LiveRequestIsQueued` | src/ledger.cpp:884-901 | the nine-call run after which a live request stands in the queue of ended ones |
| `LedgerRecords.StepBounds` | src/ledger.cpp:890-901 | every operation keeps the queue of endings within the ceiling on retained records |
| `LedgerRecords.StepQueues` | src/ledger.cpp:884-901 | no operation leaves an ended record outside the queue of endings |
| `LedgerPublications.PublicationExactly` | src/ledger.cpp:478-614 | a publication commits if and only if it names a bound attempt under its generation or none, request and attempt are open and this outcome is new; it is suppressed if and only if the request has completed or this outcome was published; otherwise it is refused for a reason that holds, and in both cases one counter changes |
| `LedgerPublications.CommitLeaves` | src/ledger.cpp:506-614 | a commit ends the named attempt and the request as published with the larger totals, moves the counters of that outcome, and touches no other record |
| `LedgerPublications.UnknownPublication` | src/ledger.cpp:478-497 | a publication about no request or an unknown one changes nothing |
| `LedgerOperations.RegisterExactly` | src/ledger.cpp:139-167 | registration succeeds exactly for a new name while there is room, and leaves a pristine record |
| `LedgerOperations.BindExactly` | src/ledger.cpp:169-220 | an attempt is bound exactly to an open confirmed request that has room and does not know it; it is last, current, on no stage, with the model given |
| `LedgerOperations.RevalidateExactly` | src/ledger.cpp:222-261 | a revalidation succeeds exactly for an open request that waits and has room, and starts a new request generation |
| `LedgerOperations.AdvanceExactly` | src/ledger.cpp:263-309 | a stage is entered exactly when it may follow the current attempt's stage and the attempt can be worked on |
| `LedgerOperations.FailExactly` | src/ledger.cpp:311-347 | a failure takes effect exactly for a current attempt that has not ended, and is repeated without effect for one that has failed |
| `LedgerOperations.ReplaceExactly` | src/ledger.cpp:349-403 | a replacement retires the current attempt, hands its model on and raises the request generation by one |
| `LedgerOperations.RemodelExactly` | src/ledger.cpp:405-414 | only the model of the named attempt changes |
| `LedgerOperations.CancelExactly` | src/ledger.cpp:416-454 | a cancellation is refused exactly for completed and failed requests; it ends live attempts, leaves ended ones, and its floor is the larger of the two |
| `LedgerOperations.InterruptExactly` | src/ledger.cpp:456-476 | an interruption withdraws live attempts and the flows of the request and leaves it to be confirmed |
| `LedgerOperations.OpenExactly` | src/ledger.cpp:616-670 | a flow opens exactly for a workable attempt under both limits, and is counted once in each place |
| `LedgerOperations.BytesExactly` | src/ledger.cpp:692-717 | bytes are added to the flow and, in the direction given, to its request, unless a sum leaves 64 bits |
| `LedgerOperations.DecisionsAreCounted` | src/ledger.cpp:719-768 | over a run that retains it a request's counters grow by exactly the decisions, deferrals and refusals made about it |
| `LedgerOperations.RestoreExactly` | src/ledger.cpp:830-863 | a record is restored exactly when it is usable and new; an ended one comes back as it was and is counted under the way it ended, a live one comes back interrupted |
| `LedgerOperations.LimitsAreSane` | src/ledger.cpp:80-94 | limits are taken as given, except that zero means one, and eight attempts where attempts are concerned |
| `StageTable.TransitionsAreTable` | src/traffic.cpp:69-111 | the legal transitions are exactly those of the table |
| `StageTable.StartsAdmitted` | src/traffic.cpp:69-111 | every path through the stages passes through admission |
| `StageTable.StreamsAfterDecoding` | src/traffic.cpp:69-111 | on every path nothing is streamed before decoding ran |
| `StageTable.DecodesAfterQueue` | src/traffic.cpp:69-111 | on every path nothing decodes before it was queued or handed over |
| `StageTable.CompletesAfterDecoding` | src/traffic.cpp:69-111 | on every path nothing completes before decoding ran |
| `StageTable.EndedStagesStay` | src/traffic.cpp:69-111 | on every path an ended stage is never left |
| `StageTable.ClassesAreTable` | src/traffic.cpp:113-169 | the classes legal on a stage and its canonical class are exactly those of the table |
| `RequestLedgers.RequestLedger.constructor` | src/ledger.cpp:80-94 | an empty ledger with normalised limits |
| `RequestLedgers.RequestLedger.Clear` | src/ledger.cpp:96-103 | every table empty, limits kept |
| `RequestLedgers.RequestLedger.FindAttempt` | src/ledger.cpp:62-78 | the first index that holds the attempt, or none |
| `RequestLedgers.RequestLedger.AccountFlowOpen` | src/ledger.cpp:105-115 | one more flow in total, in its class and on its request |
| `RequestLedgers.RequestLedger.AccountFlowClose` | src/ledger.cpp:117-123 | one less, guarded at zero |
| `RequestLedgers.RequestLedger.ReleaseRequestFlows` | src/ledger.cpp:125-137 | all flows of the request closed at once, whatever order the loop takes |
| `RequestLedgers.RequestLedger.RegisterRequest` | src/ledger.cpp:139-167 | the state and result of the specified operation, errors included |
| `RequestLedgers.RequestLedger.RegisterAttempt` | src/ledger.cpp:169-220 | the same, for binding an attempt |
| `RequestLedgers.RequestLedger.RevalidateRequest` | src/ledger.cpp:222-261 | the same, for confirming a restored request |
| `RequestLedgers.RequestLedger.AdvanceStage` | src/ledger.cpp:263-309 | the same, for a legal stage transition |
| `RequestLedgers.RequestLedger.FailAttempt` | src/ledger.cpp:311-347 | the same, for failing the current attempt |
| `RequestLedgers.RequestLedger.SupersedeAttempt` | src/ledger.cpp:349-403 | the same, for replacing the current attempt |
| `RequestLedgers.RequestLedger.SetAttemptModel` | src/ledger.cpp:405-414 | the same, for the model of an attempt |
| `RequestLedgers.RequestLedger.CancelRequest` | src/ledger.cpp:416-454 | the same, for cancellation, with every attempt ended |
| `RequestLedgers.RequestLedger.MarkInterrupted` | src/ledger.cpp:456-476 | the same, for an interruption |
| `RequestLedgers.RequestLedger.PublishCompletion` | src/ledger.cpp:478-614 | the same, for a publication: refused, suppressed or committed |
| `RequestLedgers.RequestLedger.OpenFlow` | src/ledger.cpp:616-670 | the same, for opening a flow under both limits with the mixed identity |
| `RequestLedgers.RequestLedger.ReleaseFlow` | src/ledger.cpp:672-690 | the same, for releasing a flow |
| `RequestLedgers.RequestLedger.RecordFlowBytes` | src/ledger.cpp:692-717 | the same, for observed bytes, the flow updated before the request overflow check |
| `RequestLedgers.RequestLedger.RecordDecision` | src/ledger.cpp:719-768 | the same, for counting a decision |
| `RequestLedgers.RequestLedger.VerifyClosure` | src/ledger.cpp:800-828 | true exactly when the counters close over the flow table |
| `RequestLedgers.RequestLedger.RestoreRecord` | src/ledger.cpp:830-863 | the same, for a persisted record |
| `RequestLedgers.RequestLedger.ExportTerminalRecords` | src/ledger.cpp:865-874 | the retained endings, newest first, up to the ceiling |
| `RequestLedgers.RequestLedger.ExportLiveRecords` | src/ledger.cpp:876-882 | every live record once |
| `RequestLedgers.RequestLedger.EvictIfNeeded` | src/ledger.cpp:890-901 | eviction down to the ceiling |
| `CoordinatorInvariant.RunsCohere` | src/coordinator.cpp:1645-1707 | after every run serving flows equal the ledger's, both reverse indexes are exact inverses, each transfer and its one flow name each other, the bulk count is the sum over bulk flows, and the deferral table is well filed |
| `CoordinatorInvariant.ActCoheres` | src/coordinator.cpp:1267-1602 | every public call keeps that |
| `CoordinatorCoherence.OpenFlowCoheres` | src/coordinator.cpp:1267-1312 | opening a flow keeps it when the identity minted is new |
| `CoordinatorCoherence.BulkNeverWraps` | src/coordinator.cpp:1267-1351 | the 64-bit bulk sum never wraps, so the saturating branch of a release is dead |
| `CoordinatorCoherence.ReleaseRequestSettles` | src/coordinator.cpp:1353-1378 | ending a request leaves it without a flow in either table and its transfers ended without one |
| `ReleaseOrder.ReleaseOrderFree` | src/coordinator.cpp:1353-1378 | flows may be released in any order with the same result |
| `CoordinatorEvolution.ActForward` | src/coordinator.cpp:426-612 | no call moves a record, a transfer or a generation backwards |
| `CoordinatorSafety.CancelKills` | src/coordinator.cpp:576-585 | a cancellation that succeeds leaves the request cancelled and flowless, its transfers ended and flowless |
| `CoordinatorSafety.CancellationIsFinal` | src/coordinator.cpp:576-585 | in every later state that retains it the request stays so, and every decision value about it, every evaluation and every commit is refused |
| `CoordinatorSafety.RefusalsAreIrrevocable` | src/coordinator.cpp:1197-1260 | a subject that has ended, was retired, or is bound to a passed generation stays so in every later state |
| `CoordinatorSafety.DoomedForever` | src/coordinator.cpp:1197-1260 | in all those states every evaluation of it is refused and no decision about it opens a flow |
| `CoordinatorTransfers.BulkStaysUnderCeiling` | src/coordinator.cpp:1267-1312 | under one policy with a ceiling the open bulk flows never add up to more than it |
| `CoordinatorTransfers.TransfersKeepPromises` | src/coordinator.cpp:1531-1562 | no run verifies more than the payload, or completes a transfer that must be verified with less |
| `CoordinatorTransfers.AuthorizeEndsFlowless` | src/coordinator.cpp:1463-1510 | ended transfers stay flowless after an authorization exactly when it does not find a flow, every fence up, no deferral, and a payload that no longer fits |
| `CoordinatorTransfers.EndedTransfersStayFlowless` | src/coordinator.cpp:1463-1576 | over every run without such an authorization ended transfers hold no flow |
| `CoordinatorTransfers.ActQuiet` | src/coordinator.cpp:299-510 | only evidence calls change evidence, only the policy call the policy, only decisions the deferral table |
| `Relabelling.CompletedIsRelabelledExactly` | src/coordinator.cpp:1482-1489 | of all calls exactly an authorization that names it relabels a completed transfer, and it relabels it refused |
| `FlowWitnesses.CompletedTransferIsRelabelled` | src/coordinator.cpp:1482-1489 | register, authorize, complete, authorize: a run in which a completed transfer is relabelled refused |
| `CoordinatorFindings.SecondAuthorizationStrands` | src/coordinator.cpp:1496-1503 | authorizing a transfer twice refuses it and leaves its flow open |
| `CoordinatorFindings.EndedTransferGainsFlowExactly` | src/coordinator.cpp:1197-1312 | an ended transfer gains a flow exactly when the decision presented has no subject kind |
| `CoordinatorSafety.DeadStaysExactly` | src/coordinator.cpp:1197-1312 | of all calls, a cancelled request is undone exactly by one that opens a flow for an ended flowless transfer of it with a valid decision that has no subject kind |
| `CoordinatorSafety.DeadThroughoutExactly` | src/coordinator.cpp:1197-1312 | over a run, a cancelled request stays so throughout if and only if no call of the run is one of those |
| `Stamping.StampsRise` | src/coordinator.cpp:93-102 | over any run the sequence numbers of the stamps issued rise strictly, above all issued before |
| `Stamping.CancellationSplitsStamps` | src/coordinator.cpp:576-585 | a cancellation's floor lies above every stamp issued before it and below every one issued after |
| `TransferOperations.EndingTakes` | src/coordinator.cpp:1353-1378 | ending a request takes exactly its flows and the flows of its transfers, abandons exactly its open transfers, and touches nothing of anyone else |
| `TransferOperations.CancelTakes` | src/coordinator.cpp:576-585 | a cancellation is the ledger's, with exactly that taken |
| `TransferOperations.FailTakes` | src/coordinator.cpp:587-593 | the same, for a failed attempt |
| `TransferOperations.PublishTakes` | src/coordinator.cpp:1578-1602 | the same, for a publication exactly when it commits |
| `CoordinatorOperations.ReplacementFencesGeneration` | src/coordinator.cpp:595-612 | after a replacement every question bound to the earlier request generation is refused |
| `CoordinatorOperations.ReplacedGeneration` | src/coordinator.cpp:595-612 | a replacement raises the request generation by one, makes the new attempt current on the model named, and drops the old route |
| `CoordinatorOperations.AttemptBindsModel` | src/coordinator.cpp:553-564 | an attempt is bound to the confirmed generation of the model named |
| `CoordinatorOperations.SetModelExactly` | src/coordinator.cpp:426-457 | a model number is set exactly when the entry is new with no expectation and room, or confirmed with a matching one; it rises by one and no other entry moves |
| `CoordinatorOperations.SetStateExactly` | src/coordinator.cpp:469-500 | the same, for a state number |
| `CoordinatorOperations.ConfirmExactly` | src/coordinator.cpp:459-510 | a confirmation keeps the number and makes the entry usable |
| `CoordinatorOperations.PolicyExactly` | src/coordinator.cpp:299-309 | exactly the valid policies are taken on, under their number plus one |
| `CoordinatorOperations.TopologyExactly` | src/coordinator.cpp:311-333 | evidence is taken as given, numbered next, stamped with time and incarnation, and is fresh |
| `CoordinatorOperations.ContractExactly` | src/coordinator.cpp:358-392 | a contract is taken exactly for a known request with a budget while there is room, under the next number |
| `CoordinatorOperations.RouteExactly` | src/coordinator.cpp:394-424 | a route is issued exactly for a bound attempt while there is room, under the next number |
| `CoordinatorOperations.RegistrationExactly` | src/coordinator.cpp:1415-1461 | a transfer is taken on exactly when it may be; it is open and flowless, as the caller asked, bound to the confirmed generations of its model and of its state |
| `CoordinatorOperations.RegisteredMeetsFences` | src/coordinator.cpp:1415-1461 | right after its registration no fence about a transfer is down |
| `TransferOperations.AuthorizationExactly` | src/coordinator.cpp:1463-1510 | a transfer is authorized if and only if, before the call, every fence holds, it is not put off and its payload fits; otherwise it is refused |
| `TransferOperations.GrantedAuthorization` | src/coordinator.cpp:1463-1510 | an authorized transfer names its open flow, which names it |
| `TransferOperations.UnfitAuthorization` | src/coordinator.cpp:1496-1503 | one that does not fit is refused and keeps whatever flow it has |
| `TransferOperations.RefusedAuthorization` | src/coordinator.cpp:1482-1489 | one that is not permitted is refused and its flow is released |
| `TransferOperations.StartExactly` | src/coordinator.cpp:1512-1529 | a transfer starts exactly with its own authorization while it is authorized or under way |
| `TransferOperations.CompleteExactly` | src/coordinator.cpp:1531-1562 | a transfer under way completes exactly when what was verified is acceptable; otherwise it is refused; its flow and no other is released |
| `TransferOperations.AbandonExactly` | src/coordinator.cpp:1564-1576 | exactly a known transfer that has not completed is abandoned |
| `TransferOperations.OpenFlowExactly` | src/coordinator.cpp:1267-1312 | a flow opens if and only if the decision stands, its bytes fit and there is a place for it; it is the decision's, and a transfer that has one gets it again |
| `TransferOperations.ReleaseFlowExactly` | src/coordinator.cpp:1393-1400 | a released flow leaves every table that knows it |
| `TransferOperations.ObserveExactly` | src/coordinator.cpp:1402-1413 | observed bytes reach the flow, and a serving flow's request |
| `Witnesses.CancellationCanBeUndone` | src/coordinator.cpp:1267-1312 | register, transfer, cancel, open: a run on which it is undone |
| `FlowWitnesses.IdentitiesMeet` | src/coordinator.cpp:1300-1304 | a run from a booted coordinator in which a transfer flow and a serving flow are given the same identity, after which the tables contradict one another |
| `FlowWitnesses.StockedHasMintedNothing` | src/coordinator.cpp:104-114 | a booted coordinator is one from which that run starts |
| `CoordinatorFindings.OpeningCoheresExactly` | src/coordinator.cpp:1267-1312 | an opening keeps the tables coherent exactly when it mints nothing or a new identity |
| `PolicyFencing.PolicyFencesExactly` | src/coordinator.cpp:299-309 | after any run, a new policy fences every stamp of the incarnation if and only if its number is one the incarnation has not had |
| `PolicyFencing.PolicyFencesDecisionsExactly` | src/coordinator.cpp:299-309 | it fences the decisions made in the run if and only if none was made under its number |
| `PolicyFencing.FencedForever` | src/coordinator.cpp:299-309 | when every accepted document is numbered at least as high as the policy in force, a stamp once fenced is never accepted again |
| `PolicyFencing.OldStampReturns` | src/coordinator.cpp:299-309 | submit 9, decide, submit 4, submit 9: the old stamp is accepted again although the last document is numbered above the policy in force |
| `CoordinatorChecks.CoherentPassesExactly` | src/coordinator.cpp:1645-1707 | a coherent coordinator passes the self-check exactly when no open transfer flow belongs to an ended transfer or owner, all flows fit the ceiling for serving flows, and the deferral records fit theirs |
| `CoordinatorChecks.DriftIsNoticed` | src/coordinator.cpp:1645-1707 | the self-check fails on every coherent coordinator whose flow, class, bulk or deferral counters were changed to anything else |
| `CoordinatorChecks.LostFlowIsNoticed` | src/coordinator.cpp:1645-1707 | it fails when a serving flow is missing from the coordinator's table |
| `Witnesses.CompletedOwnerFailsCheck` | src/coordinator.cpp:1677-1682 | a run that ships for a completed request: coherent, and the self-check fails |
| `Witnesses.TransferFlowsFailCheck` | src/coordinator.cpp:1703 | a run with more transfer flows than the serving ceiling: coherent, and the self-check fails |
| `EvaluationProofs.EvaluateRefinesFences` | src/coordinator.cpp:729-1190 | refused exactly when a fence of the order-free list is down, stated by freshness, contracts, routes and deadlines themselves |
| `EvaluationPressure.VerdictExactly` | src/coordinator.cpp:729-1190 | the whole verdict by order-free conditions: refused iff a fence is down; deferred iff the fences hold, the traffic is pressed and its pair has not waited enough by count or by time; permitted otherwise; a deferral names a cause that holds and an admission against pressure says so |
| `EvaluationPressure.PressureMeaning` | src/coordinator.cpp:1091-1109 | yielding traffic is pressed exactly by fresh congestion the policy yields to, by protected traffic that waits, or by the bulk ceiling; other traffic exactly by fresh congestion at depth without a reservation |
| `EvaluationPressure.GuardMeaning` | src/coordinator.cpp:1111-1148 | the guard admits exactly when one more deferral reaches the limit or the wait has reached the horizon |
| `EvaluationPressure.DeferralTells` | src/coordinator.cpp:1111-1145 | a deferral reports the rule's class of service, when to come back and how often the pair has been put off |
| `EvaluationPressure.OverflowIsSeenExactly` | src/coordinator.cpp:1098-1102 | bulk over the ceiling is noticed exactly when the 64-bit sum does not wrap below it |
| `FlowWitnesses.HugePayloadIsNotPutOff` | src/coordinator.cpp:1098-1102 | a run in which the largest payload is permitted although it overflows the ceiling, while six bytes are put off |
| `EvaluationGrants.GrantExactly` | src/coordinator.cpp:1149-1190 | every field of a granted treatment by the circumstance that sets it; a permission is labelled degraded exactly when it falls short, and the label names the shortcoming |
| `EvaluationProofs.GateMeaning` | src/coordinator.cpp:759-1089 | the questions asked in sequence let through exactly the requests that meet every fence |
| `EvaluationProofs.CanonicalIsLegal` | src/traffic.cpp:113-169 | on an active stage the canonical class is legal, so the unknown-class branch is dead |
| `EvaluationProofs.PermittedClassIsLegal` | src/coordinator.cpp:916-967 | a permitted serving class is legal for the ledger's stage, unless the stage is unknown and allowed |
| `EvaluationProofs.GuardOnlyOverridesPressure` | src/coordinator.cpp:1111-1148 | an admission by the starvation guard is what the same request gets, with the same treatment, without capacity pressure |
| `EvaluationProofs.DecisionsValidateExactly` | src/coordinator.cpp:1197-1260 | a decision validates in the state its evaluation left exactly when it permits |
| `EvaluationReasons.RefusalsNameTheirFence` | src/coordinator.cpp:759-1089 | every refusal gives the reason of a fence that is down |
| `EvaluationReasons.PermissionsStayWithinRule` | src/coordinator.cpp:1149-1190 | a grant never exceeds the rule: no higher priority, no more weight, no less integrity than rule and transfer ask |
| `EvaluationReasons.ConservativeExactly` | src/coordinator.cpp:1149-1190 | traffic of unknown stage is isolated as background exactly when no later degradation replaced the first or the rule for unknown traffic isolates it so itself |
| `GraceWitnesses.UnknownStageIsNotIsolated` | src/coordinator.cpp:1149-1190 | a run in which such traffic is permitted on stale evidence in its grace period and is not isolated as background |
| `EvaluationReasons.AdmittedFitsCeiling` | src/coordinator.cpp:1091-1109 | bulk traffic admitted for lack of pressure fits the ceiling that opening enforces |
| `EvaluationReasons.ValidationMeaning` | src/coordinator.cpp:1197-1260 | a decision validates exactly when every condition of an order-free list holds |
| `Deferral.DeferKeySeparatesClasses` | src/coordinator.cpp:614-627 | one subject never has two classes under one key |
| `Mixing.MixIsPermutation` | src/coordinator.cpp:16-23 | the mixing function is a permutation of 64-bit words |
| `Deferral.NoteTakesExactly` | src/coordinator.cpp:638-677 | deferring another pair forgets this one's record exactly when it makes a new record under the same key or in a full table that retires this one |
| `Deferral.FoundUnderItsClass` | src/coordinator.cpp:629-636 | the class need not be compared: a record found under a pair's key for its subject is of that class |
| `Deferral.TableIsSoundCache` | src/coordinator.cpp:614-686 | over every run in which nothing takes the record, the hashed table agrees with the exact map keyed by subject and class |
| `Deferral.NoteOk` | src/coordinator.cpp:647-677 | noting keeps the protected count equal to the protected records and the size within its ceiling |
| `Deferral.DropOk` | src/coordinator.cpp:638-645 | so does dropping, and its zero guard never acts |
| `Starvation.DeferralsAreBounded` | src/coordinator.cpp:1111-1148 | under one policy a protected pair whose record nothing takes is deferred at most limit - 1 times between two admissions, whatever else happens |
| `Starvation.LimitAdmits` | src/coordinator.cpp:1111-1148 | at the limit the next question about the pair is admitted |
| `Starvation.HorizonAdmits` | src/coordinator.cpp:1111-1148 | once a protected pair has waited its horizon the next question about it is admitted |
| `Starvation.WaitIsRemembered` | src/coordinator.cpp:647-677 | a run that neither admits the pair nor takes its record remembers when its wait began |
| `Starvation.HorizonIsHonoured` | src/coordinator.cpp:1111-1148 | so after any such run a question asked when the horizon has passed is admitted |
| `Starvation.ProtectedIsNotStarved` | src/policy.cpp:57-87 | every valid policy gives each enabled protected class such a limit |
| `Policies.ValidPolicyPromises` | src/policy.cpp:57-87 | what every valid policy guarantees of each class and of each pair of classes |
| `Restart.RecoveryIsAllOrNothing` | src/coordinator.cpp:140-254 | a boot succeeds exactly when the document validates; otherwise the coordinator is cleared and nothing of it applied |
| `Restart.InspectMeaning` | src/coordinator.cpp:167-218 | the walk accepts exactly the lists of usable records with distinct unseen identities |
| `Restart.DocumentExactly` | src/coordinator.cpp:167-218 | a document validates exactly when every condition of an order-free list holds |
| `Restart.RestoredCoherent` | src/coordinator.cpp:220-254 | a boot from sound records starts coherent |
| `Restart.FreshBootCoherent` | src/coordinator.cpp:104-114 | so does a fresh boot |
| `Restart.SourceHashConfigures` | src/coordinator.cpp:614-627 | with the source's hash a coordinator is configured as soon as its limits fit |
| `RestartProofs.EpochsIncrease` | src/coordinator.cpp:140-155 | along any chain of restarts epochs strictly increase |
| `RestartProofs.EarlierDecisionsAreRefused` | src/coordinator.cpp:1197-1260 | a decision stamped in an earlier life is refused in every later one |
| `RestartProofs.RegistryComesBack` | src/coordinator.cpp:220-254 | an exported registry comes back with the same numbers, all unconfirmed |
| `RestartProofs.FirstEntryCounts` | src/coordinator.cpp:220-254 | of the entries with one hash the first counts, whatever the document |
| `RestartProofs.RestartForgets` | src/coordinator.cpp:140-254 | a boot from a document starts the next epoch and policy number with nothing open, and evidence it carries over is not fresh in another incarnation |
| `RestartProofs.FirstBootIsEmpty` | src/coordinator.cpp:104-114 | a first boot starts with nothing known and nothing open |
| `RestartProofs.EndedRecordsComeBack` | src/ledger.cpp:830-863 | whatever the document, an ended record of it that the boot retains is unchanged |
| `RestartProofs.EndedRecordsAreRetained` | src/ledger.cpp:830-863 | a document that separates ended from live and fits the ceiling loses no ending |
| `RestartProofs.UnconfirmedStays` | src/coordinator.cpp:426-536 | an unconfirmed registration keeps its number and is unusable until confirmed |
| `RestartProofs.LiveRequestsWait` | src/ledger.cpp:830-863 | every live record of a document comes back interrupted and awaiting revalidation |
| `RestartProofs.WaitingStays` | src/coordinator.cpp:566-569 | it goes on waiting until a revalidation names it |
| `RestartChain.LivesCohere` | src/coordinator.cpp:140-254 | every life of a chain of restarts starts and ends coherent |
| `RestartChain.LiveRequestsAreRefusedUntilRevalidated` | src/coordinator.cpp:140-254 | a request live at the end of one life is, in every retained state of the next before a revalidation names it, refused every evaluation and every decision, and holds no flow |
| `RestartChain.RegistrationsAreWithheldUntilConfirmed` | src/coordinator.cpp:426-536 | a model or state generation of one life keeps its number in the next and is withheld there until confirmed |
| `RestartChain.EndingsSurviveRestarts` | src/coordinator.cpp:140-254 | along any chain a request that was completed, cancelled or failed when one life ended is so, in the same words, when the next begins, and is there whenever the next process may retain as many |
| `RestartChain.RepeatsAreSuppressedAfterRestart` | src/ledger.cpp:478-614 | a completion published again after a restart is suppressed |
| `RestartProofs.RestartReversesHistory` | src/ledger.cpp:865-874 | a restart turns the order of the retained endings around, so the newest is evicted first; the queue is kept exactly when it is empty or holds one retained ending |
| `RestartFindings.RestartTurnsTwoAround` | src/ledger.cpp:865-874 | two requests end, and after the restart they are queued the other way round |
| `RestartProofs.PersistableStays` | src/coordinator.cpp:299-510 | no run leaves evidence that a snapshot could not hold |
| `RestartProofs.OwnExportBootsExactly` | src/coordinator.cpp:1771-1795 | a coordinator boots from its own export exactly when no retained identity is queued twice and every queued identity that is retained has ended |
| `RestartFindings.BootsPlain` | src/coordinator.cpp:104-114 | every first boot with a valid policy and limits that fit is one from which the runs of this module start |
| `RestartFindings.TwiceEndedExportIsRefused` | src/coordinator.cpp:1771-1795 | a run in which a request ends twice: no coordinator so configured boots from what is exported then |
| `RestartFindings.ReusedNameExportIsRefused` | src/coordinator.cpp:1771-1795 | a run in which a live request is queued under its old name, each identity once: the export is refused as well |
| `Coordinators.Coordinator.constructor` | src/coordinator.cpp:84-91 | an unbooted coordinator with a numbered policy |
| `Coordinators.Coordinator.MintStamp` | src/coordinator.cpp:93-102 | the next sequence number under the current authority |
| `Coordinators.Coordinator.BootFresh` | src/coordinator.cpp:104-114 | the state of a first boot |
| `Coordinators.Coordinator.ClearState` | src/coordinator.cpp:116-138 | everything but authority and policy cleared |
| `Coordinators.Coordinator.BootFrom` | src/coordinator.cpp:140-155 | the state and result of booting from a document, failures included |
| `Coordinators.Coordinator.ValidateRestored` | src/coordinator.cpp:167-218 | the first objection to a document, or none |
| `Coordinators.Coordinator.RestoreState` | src/coordinator.cpp:220-254 | the state and result of applying a document |
| `Coordinators.Coordinator.ApplyPolicy` | src/coordinator.cpp:299-309 | the state and result of the specified operation |
| `Coordinators.Coordinator.PublishTopology` | src/coordinator.cpp:311-333 | the same, for topology evidence |
| `Coordinators.Coordinator.RegisterSlo` | src/coordinator.cpp:358-392 | the same, for an SLO contract |
| `Coordinators.Coordinator.IssueRoute` | src/coordinator.cpp:394-424 | the same, for a route decision |
| `Coordinators.Coordinator.SetModelGeneration` | src/coordinator.cpp:426-457 | the same, as a compare-and-set on the model registry |
| `Coordinators.Coordinator.RevalidateModel` | src/coordinator.cpp:459-467 | the same, for confirming a model |
| `Coordinators.Coordinator.AdvanceStateGeneration` | src/coordinator.cpp:469-500 | the same, as a compare-and-set on the state registry |
| `Coordinators.Coordinator.RevalidateState` | src/coordinator.cpp:502-510 | the same, for confirming a state |
| `Coordinators.Coordinator.RegisterRequest` | src/coordinator.cpp:548-551 | the same, through the ledger |
| `Coordinators.Coordinator.RegisterAttempt` | src/coordinator.cpp:553-564 | the same, bound to the current model generation |
| `Coordinators.Coordinator.RevalidateRequest` | src/coordinator.cpp:566-569 | the same, through the ledger |
| `Coordinators.Coordinator.AdvanceStage` | src/coordinator.cpp:571-574 | the same, through the ledger |
| `Coordinators.Coordinator.CancelRequest` | src/coordinator.cpp:576-585 | the same, with the authority floor raised and all flows released |
| `Coordinators.Coordinator.FailAttempt` | src/coordinator.cpp:587-593 | the same, with all flows released |
| `Coordinators.Coordinator.ReplaceAttempt` | src/coordinator.cpp:595-612 | the same, with flows released and the route of the old attempt dropped |
| `Coordinators.Coordinator.EvictDefer` | src/coordinator.cpp:638-645 | one record retired, whichever the table yields first |
| `Coordinators.Coordinator.NoteDefer` | src/coordinator.cpp:647-677 | one more deferral of the pair |
| `Coordinators.Coordinator.ClearDefer` | src/coordinator.cpp:679-686 | the pair forgotten |
| `Coordinators.Coordinator.Evaluate` | src/coordinator.cpp:729-1190 | the decision and the state of the specified evaluation |
| `Coordinators.Coordinator.Weigh` | src/coordinator.cpp:1091-1190 | pressure, guard and grant of a request that passed every gate |
| `Coordinators.Coordinator.ValidateDecision` | src/coordinator.cpp:1197-1260 | the first objection to a decision, or none |
| `Coordinators.Coordinator.OpenFlow` | src/coordinator.cpp:1267-1312 | the state and result of opening a flow |
| `Coordinators.Coordinator.ReleaseFlowLocked` | src/coordinator.cpp:1319-1351 | one flow taken out of every table |
| `Coordinators.Coordinator.ReleaseRequestFlows` | src/coordinator.cpp:1353-1378 | a request's flows and the transfers that end with it |
| `Coordinators.Coordinator.ReleaseTransferFlows` | src/coordinator.cpp:1380-1391 | a transfer's flows |
| `Coordinators.Coordinator.ReleaseFlow` | src/coordinator.cpp:1393-1400 | the public form, unknown flows refused |
| `Coordinators.Coordinator.RecordFlowBytes` | src/coordinator.cpp:1402-1413 | observed bytes in both tables |
| `Coordinators.Coordinator.RegisterTransfer` | src/coordinator.cpp:1415-1461 | the state and result of taking on a transfer |
| `Coordinators.Coordinator.AuthorizeTransfer` | src/coordinator.cpp:1463-1510 | the same, for an authorization |
| `Coordinators.Coordinator.StartTransfer` | src/coordinator.cpp:1512-1529 | the same, for a start |
| `Coordinators.Coordinator.CompleteTransfer` | src/coordinator.cpp:1531-1562 | the same, for a completion with its integrity check |
| `Coordinators.Coordinator.AbandonTransfer` | src/coordinator.cpp:1564-1576 | the same, for an abandonment |
| `Coordinators.Coordinator.PublishCompletion` | src/coordinator.cpp:1578-1602 | the same, for a publication, flows released when it commits |
| `Coordinators.Coordinator.VerifyInvariants` | src/coordinator.cpp:1645-1707 | true exactly when the self-check's comparisons hold, its sums wrapping as 64-bit words do |
| `Coordinators.Coordinator.ExportState` | src/coordinator.cpp:1771-1795 | a document of the current state, registries in order of hash |
| `Crc32c.BurstDetected` | src/crc32c.cpp:29-39 | two messages of equal length that differ only within four consecutive bytes have different checksums |
| `Crc32c.TableStep` | src/crc32c.cpp:29-31 | the table lookup equals eight bitwise steps |
| `Crc32c.DivideInjective` | src/crc32c.cpp:29-39 | over any message different states stay different |
| `Crc32c.DivideConcat` | src/crc32c.cpp:33-39 | streaming in pieces equals one pass |
| `Crc32c.ChecksumInvertsHead` | include/itf/crc32c.hpp:20-34 | for every message of four bytes or more the checksum is the inverted remainder of the message with its first word inverted, so leading zeros count |
| `Crc32c.EmptyChecksum` | include/itf/crc32c.hpp:20-34 | the checksum of nothing is zero |
| `Crc32c.CheckValue` | tests/unit/test_foundation.cpp:58-66 | the digits one to nine have the standard check value |
| `Crc32c.SealedBurst` | src/persistence.cpp:393-428 | of two sealed headers that differ only within four consecutive bytes, one is not sealed |
| `Crc32c.MakeTable` | src/crc32c.cpp:11-23 | the nested loops fill in the table of the engine |
| `Crc32c.Crc.UpdateByte` | src/crc32c.cpp:29-31 | one byte divided |
| `Crc32c.Crc.Update` | src/crc32c.cpp:33-39 | a span divided |
| `Utf8.ValidIsEncoding` | src/codec.cpp:30-69 | a byte string is accepted exactly when it is the encoding of some sequence of Unicode scalar values |
| `Utf8.IsValidUtf8` | src/codec.cpp:30-69 | the loop accepts exactly the octet sequences of the grammar in section 4 of RFC 3629 |
| `Utf8.AcceptsByTable` | src/codec.cpp:30-69 | the arithmetic checks accept a first character exactly when the byte-range table does, with the same length |
| `Utf8.CharacterAt` | src/codec.cpp:30-69 | the inner loop finds the length of the next character, or that there is none |
| `Codec.FieldsRound` | src/codec.cpp:92-220 | a record in range comes back from its bytes and what follows is left |
| `Codec.FieldsBack` | src/codec.cpp:151-220 | what is read without a failure is the one encoding of the values read, and what follows it |
| `Codec.TakenAllFit` | src/codec.cpp:151-220 | whatever is read without a failure is in the range of its field |
| `Codec.TakeAfterFailure` | src/codec.cpp:151-158 | after a failure nothing moves |
| `Codec.Reader.Require` | src/codec.cpp:151-158 | ready exactly when nothing failed and the bytes are there; never past the end |
| `Codec.Reader.Field` | src/codec.cpp:160-210 | the value and rest of the specified read; the offset never decreases and stays put after a failure |
| `Codec.Reader.Count` | src/codec.cpp:212-220 | a count within its bound, or the failure |
| `Codec.Reader.Finish` | src/codec.cpp:256-264 | Ok exactly when nothing failed and every byte was read |
| `Codec.Writer.Reserve` | src/codec.cpp:83-90 | ready exactly when nothing failed and the limit allows it |
| `Codec.Writer.Field` | src/codec.cpp:92-128 | the little-endian bytes appended, or the first failure kept and nothing written |
| `Serialize.RequestRound` | src/serialize.cpp:458-526 | a request record in range comes back exactly when the decoder accepts it, else its own bytes are refused |
| `Serialize.EarlyCancellationIsRefused` | src/serialize.cpp:520-524 | the record of a request cancelled before any attempt is refused |
| `Serialize.PolicyRound` | src/policy.cpp:312-400 | a valid policy comes back exactly when its step limit is not zero |
| `Records.WriteRequest` | src/serialize.cpp:458-481 | appends the bytes of the record's layout, or fails because they do not fit |
| `Records.ReadRequest` | src/serialize.cpp:483-526 | reads what the layout parses, or its first failure |
| `Records.WritePolicy` | src/policy.cpp:312-344 | the same, for writing a policy |
| `Records.ReadPolicy` | src/policy.cpp:346-400 | the same, for reading one |
| `Records.WriteEvidence` | src/serialize.cpp:565-578 | the same, for topology evidence behind its flag |
| `Records.ReadEvidence` | src/serialize.cpp:580-603 | the same, for reading it, a placeholder unchecked |
| `Records.WriteDocument` | src/persistence.cpp:254-270 | the same, for a whole document |
| `Records.ReadDocument` | src/persistence.cpp:272-343 | the same, for reading one |
| `Records.SaveDocument` | src/persistence.cpp:384-428 | the bytes of the snapshot file, or the refusal of a document above the ceiling |
| `Records.LoadDocument` | src/persistence.cpp:430-495 | the document of a file, or its first objection |
| `Records.SnapshotTablesOk` | src/persistence.cpp:254-343 | the methods work in the layout the round trips are about |
| `Snapshot.SnapshotLoadsExactly` | src/persistence.cpp:254-343 | for every document in range, loading what was saved gives it back if and only if every record is accepted, and is refused as malformed otherwise |
| `Snapshot.SnapshotRound` | src/persistence.cpp:384-495 | a well-formed document is loaded from its file, every byte consumed |
| `Snapshot.RawRound` | src/persistence.cpp:393-483 | a payload comes back from its framed file |
| `Snapshot.RawIsCanonical` | src/persistence.cpp:430-483 | only a framed payload is accepted, byte for byte apart from the two flag bytes that the reader skips |
| `Snapshot.BurstsAreRefused` | src/persistence.cpp:430-483 | a file that differs from one that loads within four consecutive bytes is refused |
| `SnapshotFindings.UnboundEndingIsRefused` | src/serialize.cpp:520-524 | any snapshot with an ended record that has no attempts is refused whole |
| `SnapshotFindings.EarlyCancellationLosesSnapshot` | src/ledger.cpp:416-454 | register, cancel before any attempt, export, save: the coordinator refuses its own file |
| `Wire.HeaderRound` | src/wire.cpp:167-226 | a header within its limits comes back from its 40 bytes |
| `Wire.HeaderIsCanonical` | src/wire.cpp:183-226 | the bytes of a header that decodes are the encoding of what it decodes to |
| `Wire.BurstsAreRefused` | src/wire.cpp:183-226 | a header that differs from an accepted one within four consecutive bytes is refused |
| `Wire.EncodeInto` | src/wire.cpp:167-181 | writes exactly the 40 header bytes, or nothing into a buffer too short |
| `Wire.Store` | src/wire.cpp:13-28 | stores a number low byte first and touches nothing after it |
| `Sessions.SessionsAreSane` | src/session.cpp:223-387 | for every stream dispatched sequence numbers strictly increase, at most nine replays are answered before the session closes, and frames sent are numbered one by one |
| `Sessions.DispatchFollowsHello` | src/session.cpp:223-387 | whatever is handed to the handler was preceded in the stream by an accepted hello |
| `Sessions.HandshakeExactly` | src/session.cpp:313-355 | a session is established by an accepted hello and by nothing else |
| `Sessions.StepExactly` | src/session.cpp:268-381 | each frame is answered exactly once, dispatched exactly when it should be, and the session stays open exactly until an event that ends it |
| `Sessions.LimitIsAgreed` | src/session.cpp:335-337 | in every stream an established session keeps the limit agreed in its hello: one side's, above neither's |
| `Sessions.ClosedIsClosed` | src/session.cpp:223-387 | a closed session answers nothing |
| `Sessions.Loop` | src/session.cpp:268-381 | the loop serves its stream as specified and is sane |

## Findings

Expectations that the code does not meet. Each has an input that shows it and the exact condition under which it is met.

- Completed is not absorbing, and an ended request can be queued twice. `LedgerFindings.UndisciplinedRun` is the run;
  `LedgerEndings.CompletedLeavesExactly`, `LedgerEndings.QueuedTwiceExactly` and `LedgerEndings.RunKeepsQueueExactly`
  give the condition: `fail_attempt` names a live current attempt of an ended request.
- A retired attempt can become current again. `LedgerFindings.RetiredAttemptReturns` is the run;
  `LedgerCurrency.RevalidationMayReturn` gives the condition.
- A cancelled request's transfer can be given a flow. `Witnesses.CancellationCanBeUndone` is the run;
  `CoordinatorSafety.DeadStaysExactly` and `CoordinatorSafety.DeadThroughoutExactly` give the condition for a call and for
  a run, `CoordinatorFindings.EndedTransferGainsFlowExactly` for a transfer. A decision without a subject kind is read
  from the wire (src/serialize.cpp:97-118) and checked for authority only.
- A second authorization can refuse a transfer and leave its flow open. `CoordinatorFindings.SecondAuthorizationStrands`
  is the run; `CoordinatorTransfers.AuthorizeEndsFlowless` gives the condition.
- Authorizing a completed transfer relabels it refused. `FlowWitnesses.CompletedTransferIsRelabelled` is the run;
  `Relabelling.CompletedIsRelabelledExactly` gives the condition.
- Two flow counters share one identity space. `FlowWitnesses.IdentitiesMeet` is the run;
  `CoordinatorFindings.OpeningCoheresExactly` gives the condition.
- A payload large enough to wrap the bulk sum is not put off by the ceiling. `FlowWitnesses.HugePayloadIsNotPutOff` is
  the run; `EvaluationPressure.OverflowIsSeenExactly` gives the condition. Opening a flow for it is still refused, since
  it exceeds the payload limit (`TransferOperations.OpenFlowExactly`).
- A policy number can come back, and old stamps with it. `PolicyFencing.OldStampReturns` is the run;
  `PolicyFencing.PolicyFencesExactly` and `PolicyFencing.PolicyFencesDecisionsExactly` give the condition.
- The self-check asks more than the operations keep. `Witnesses.CompletedOwnerFailsCheck` and
  `Witnesses.TransferFlowsFailCheck` are the runs; `CoordinatorChecks.CoherentPassesExactly` gives the condition.
- Traffic of an unknown stage is not always isolated. `GraceWitnesses.UnknownStageIsNotIsolated` is the run;
  `EvaluationReasons.ConservativeExactly` gives the condition.
- A restart reverses the order of eviction. `RestartFindings.RestartTurnsTwoAround` is the run;
  `RestartProofs.RestartReversesHistory` says when the order is kept.
- A coordinator can export a document that it will not boot from. `RestartFindings.TwiceEndedExportIsRefused` and
  `RestartFindings.ReusedNameExportIsRefused` are the runs; `RestartProofs.OwnExportBootsExactly` gives the condition.
- It can save a file that it will not load. `SnapshotFindings.EarlyCancellationLosesSnapshot` is the run;
  `Snapshot.SnapshotLoadsExactly` gives the condition.
- A policy with a step limit of zero does not come back as written (`Serialize.PolicyRound`).

## Left out

- Sockets, threads, timeouts, file handles, fsync, rename, logging, the command-line tools and the accelerator probe.
- Message bodies (src/messages.cpp) and the codecs of decisions, bindings, traffic requests and strings: they repeat the codec argument.
- The explanation steps of a decision, per-class decision tallies, the completion cache and peak counters.
- SLO and route fields that no decision reads (stream share, target node, lateral).
- Wrap-around of the 32-bit decision counters and of 64-bit generations and sequence numbers, which are unbounded here.
- Overflow of signed 64-bit clock arithmetic outside the guarded sum that sets deadlines.
- The stamp a decision carries is not signed in the source; a decision is any value, as a caller could present it.
- CoordinatorInvariant.RunsCohere: assumes that each opening mints an identity not in use, because the two counters share one space; `CoordinatorFindings.OpeningCoheresExactly` shows the assumption is exact.
- CoordinatorCoherence.BulkNeverWraps: assumes limits under which the declared bytes of all flows together stay below 2^64 (`Roomy`). The source does not check this; it is part of `Coherent`, so every theorem about coherent coordinators assumes it too.
- CoordinatorSafety.CancellationIsFinal: assumes that no call of the run revives a transfer of the cancelled request; `CoordinatorSafety.DeadThroughoutExactly` shows the assumption is exact.
- Coordinators.Coordinator.ExportState: fixes live records up to their order, which in the source is that of a hash table.
- Starvation.DeferralsAreBounded: assumes that no first deferral of another pair takes the record; `Deferral.NoteTakesExactly` says exactly when one does.
- Records of ended requests stay in the deferral table in the source, so bulk traffic is not claimed to make progress.
