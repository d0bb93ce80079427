# A model of the workhorse worker runtime

These modules model the Go worker of workhorse, a task queue on PostgreSQL, and prove what its
protocols keep over every run. PostgreSQL, clocks, timers and goroutine scheduling are the environment:
each protocol is a state machine whose events may come in any order, and every theorem about runs holds
for every list of events. Where the source changes fields under a lock or in one loop, a class has those
fields and its methods are proved against the same step functions that the theorems are about.

| part | modules |
|---|---|
| dispatch slots and claims | `Dispatch`, `DispatchProofs`, `DispatchGrants`, `DispatchProgress`, `DispatchResults`, `DispatchLoop` |
| leases against PostgreSQL's expiry | `Leases` |
| shared heartbeat transactions | `HeartbeatRounds`, `HeartbeatRouting` |
| heartbeat connections and listeners of a pool | `ConnectionGenerations`, `GenerationProgress`, `ListenerHubs` |
| the supervisor and the settlement of an attempt | `Supervisor`, `Settlement`, `SettlementTruth`, `AttemptEnd` |
| fast-tier completions and batch handlers | `CompletionQueue`, `CompletionBatches`, `CompletionFlush`, `BatchCoordinator` |
| durable checkpoints | `Checkpoints` |
| JSON syntax, tokens and parsing | `JsonSyntax`, `JsonTokens`, `JsonParser` |
| exact decimals | `Decimal`, `JsonNumbers`, `NumericText` |
| jsonb size | `JsonbSize`, `JsonbScanner`, `JsonbMeter`, `ExactSize`, `JsonbText`, `SizeCheck` |
| canonical JSON and escapes | `CanonicalNumbers`, `CanonicalJson`, `CanonicalForm`, `CanonicalWriter`, `CanonicalInputs`, `Escapes` |
| shared definitions | `Prelude`, `Sequences`, `Ordering`, `Utf8` |

The contract of PostgreSQL that the machines rely on is the one of its functions: a heartbeat renews only
an unexpired lease of its fence (sql/schema/current.sql:11921-12031); recovery by lease expiry takes only an
expired one (sql/schema/current.sql:14767-14780), while a timeout or deadline of the attempt ends a lease that
has not expired (sql/schema/current.sql:14688-14747); a saved checkpoint is immutable and an equal or
conflicting save is told so (sql/schema/current.sql:12145-12240); and a claim returns at most its limit. Which
answer each settling write gets, `SettlementTruth.AnswerTo`, follows sql/schema/current.sql:11678-11717 for
expiries, 12082-12102 for cancellations, and 14425-14639 for completions, failures and releases, for a row that
does not change while the attempt settles; all other theorems about settlements allow any answers.

JSON text is a sequence of Unicode characters, which is what valid UTF-8 holds; byte lengths are computed
from it.

## Where the code and its documentation differ

- The documentation of `Checkpoint` (go/durability.go:299-302) says that a call with the fingerprint of a
  different input than the stored one returns a conflict. A call that joins an initiator without an input
  is compared with nothing, so it can succeed against a stored checkpoint of another input
  (`Checkpoints.JoinerPassesOtherInput`). `Checkpoints.JoinedConflictExactly` gives the exact condition: the
  promise holds for a joined call if and only if its initiator has an input or the call itself has none.
  `Checkpoints.InitiatorNeverConflicts` shows that an initiator always keeps it.
- The comment at go/worker.go:778-779 expects at most twice the concurrency of executions. An execution whose
  slot was handed over may still be ending when its replacement hands over in turn, so there is no such bound:
  `DispatchResults.ExecutionsPileUp` gives a run with any number of them. `DispatchResults.TwiceConcurrencyExactly`
  says which guard at the grant would give it: fewer handed-over executions than the concurrency.
- The comments at go/value_size.go:27-30 and go/value_size.go:188-190 say that the measure is the size that
  PostgreSQL writes. The sums are machine integers, and a huge exponent makes them wrap around:
  `ExactSize.HugeNumberPasses` is a number of 2^63 digits that measures one byte. `ExactSize.MeasureIsExactly`
  and `ExactSize.LimitsAgreeExactly` give the exact condition. PostgreSQL itself refuses such a number.

A lease can end before its expiry, at a timeout or deadline of the attempt or with its own write. Until the
worker learns of it, another attempt of the task may be inside its window too; `Leases.OverlapExactly` says
exactly when that can be.

The outcome of an attempt need not be the one that its settling write says. An attempt that sets out to settle
an expiry, and is answered with a cancellation request, acknowledges the cancellation and reports the expiry
(`AttemptEnd.ExpiryReportsOtherSettlement`). `AttemptEnd.EndAttempt` shows that the two agree in every situation
whose first write is not an expiry.

## Model

| member | source | states |
|---|---|---|
| `DispatchProofs.SlotsStayWithinConcurrency` | go/worker.go:930-982 | in every reachable state, over any sequence of runs of one Worker: the slots of the current run plus those of ended runs stay within the concurrency, `activeSlots` counts exactly the slots not yet returned, no free count is negative, and the cohort counters sum to the totals (the reservations of the cohorts to at most the total, since a claim for the whole worker reserves in none) |
| `DispatchProofs.AtMostFourPlainClaims` | go/worker.go:1406-1430 | at most four plain claims are ever in flight, and at most the concurrency, so a send on `claimResults` never blocks; the reserved slots never exceed the concurrency |
| `DispatchProofs.StepInv` | go/worker.go:1378-1500 | every select case, and every end of an execution, keeps the counters equal to what the phases of all slots and claims say |
| `DispatchProofs.LaunchInv` | go/worker.go:1196-1211 | a launch into the preferred or the roomiest cohort keeps the invariant when a slot is free |
| `DispatchProofs.StartClaimInv` | go/worker.go:1226-1234 | a claim that reserves free slots keeps the invariant, and at most one claim is smaller than the refill batch |
| `DispatchProofs.SettledClaimInv` | go/worker.go:1283-1322 | a settled claim returns its reservation and launches at most that many tasks, within every cohort and in total |
| `DispatchProofs.ReserveInv` | go/worker.go:1326-1352 | a fused claim hands its own slot over and reserves it with the free ones |
| `DispatchProofs.SettledCompletionInv` | go/worker.go:1353-1376 | a settled fused claim gives the completing slot to the first replacement, or takes it back when there is none |
| `DispatchProofs.EndExecutionInv` | go/worker.go:960-973 | an execution returns its slot once, also when it outlives its run |
| `DispatchProofs.ObserveInv` | go/worker.go:1212-1225 | an observed execution leaves the counters, handed over or not |
| `DispatchProofs.FinishInv` | go/worker.go:976-982 | the end of a run moves exactly its held slots to the ended runs |
| `DispatchProofs.RoomiestIsFirstMaximum` | go/worker.go:1166-1175 | the roomiest cohort has the most free slots, and is the first one with that many |
| `DispatchProofs.RoomiestHasRoom` | go/worker.go:1196-1201 | when a slot is free in total, the roomiest cohort has one: the pigeonhole behind every launch |
| `DispatchProofs.CapacitiesCoverConcurrency` | go/worker.go:1081-1088 | the cohort capacities of an uneven split sum to the concurrency |
| `DispatchGrants.GrantedExactly` | go/worker.go:1326-1352 | a fused claim goes into flight exactly when its execution works in the current run, the gate is open, the run is not stopping, and, while a plain claim that may fill its cohort is in flight, at least a quarter of the concurrency is at stake; it then asks for every slot that is free to the worker and the cohort and for its own, and leaves none |
| `DispatchGrants.GrantsInEveryRun` | go/worker.go:1326-1352 | the same in every reachable state of every run |
| `DispatchGrants.ClosedGateGrantsNothing` | go/worker.go:1331-1333 | a run of any length in which the gate is closed puts no fused claim in flight, and their counter never grows |
| `DispatchGrants.StoppingGrantsNothing` | go/worker.go:1331-1333 | a stopping run stays so until its end and puts no fused claim in flight, whatever the gate |
| `DispatchGrants.StartsExactly` | go/worker.go:1406-1430 | a plain claim starts exactly when a slot is free and no other is in flight, or for the whole worker also beside others once a quarter of the concurrency is free; its line says for how many slots and for which cohort |
| `DispatchGrants.FreeIsUnpromised` | go/worker.go:1159-1165 | the free slots of the worker and of each cohort are exactly those that no execution and no claim of the ledger was promised |
| `DispatchGrants.LaunchAllLedger` | go/worker.go:1303-1306 | every task that a claim returned starts one execution of the run, and no earlier line changes |
| `DispatchGrants.CapacityOf` | go/worker.go:1081-1088 | the cohorts share the concurrency evenly, and the first ones take the remainder |
| `DispatchProofs.ReservedWithinConcurrency` | go/worker.go:1338-1351 | a fused claim reserves at least its own slot and at most the concurrency |
| `DispatchResults.TwiceConcurrencyExactly` | go/worker.go:778-780 | a guard at the grants, that fewer than some number of executions are handed over, keeps every run within twice the concurrency of executions exactly when that number is at most the concurrency; the source has no such guard |
| `DispatchResults.ExecutionsPileUp` | go/worker.go:1326-1376 | for every concurrency and every n some run has n executions beyond the concurrency under way, and n finished ones whose results wait |
| `DispatchResults.GuardedGrantsBound` | go/worker.go:778-780 | under a guard at the grants, the finished executions that wait and the active ones stay within the concurrency plus the guard, in every run |
| `DispatchProgress.PhaseExactly` | go/worker.go:1378-1503 | a run stops exactly at a stop or an error that reaches the loop, and ends exactly when it is stopping and no claim of either sort is in flight; the next run starts afresh |
| `DispatchProgress.SlotExactly` | go/worker.go:960-973 | a slot comes back exactly when its execution ends or its fused claim brings replacements, whichever run has it; a result is received exactly in its own run before that stops |
| `DispatchProgress.ReplacementsJoinCohort` | go/worker.go:1353-1376 | the tasks that replace an execution all join its cohort, because the fused claim reserved the room there |
| `DispatchProgress.ClaimedJoinCohort` | go/worker.go:1283-1306 | the tasks of a claim for a cohort join it, up to the share that the claim reserved there |
| `DispatchProgress.EverySlotCanComeBack` | go/worker.go:1378-1470 | from every reachable state of a run that goes on, some continuation frees every slot of the worker and of each cohort within the run, with every result received |
| `DispatchProgress.EveryRunCanEnd` | go/worker.go:1478-1503 | from every reachable state of a run, some continuation ends it, and the next run has every slot |
| `DispatchLoop.Dispatcher.constructor` | go/worker.go:1081-1110 | a loop starts with the capacities of the split and zero counters |
| `DispatchLoop.Dispatcher.RoomiestCohort` | go/worker.go:1166-1175 | the loop over the cohorts finds the roomiest one |
| `DispatchLoop.Dispatcher.LaunchTask` | go/worker.go:1196-1211 | takes a slot and counts it in total and in its cohort |
| `DispatchLoop.Dispatcher.LaunchTasks` | go/worker.go:1304-1306 | launches every claimed task in turn |
| `DispatchLoop.Dispatcher.SendClaim` | go/worker.go:1226-1234 | reserves the limit in total and the share in the cohort |
| `DispatchLoop.Dispatcher.StartWholeClaims` | go/worker.go:1410-1417 | starts claims until no slot is free, or only fewer than a refill batch beside another claim |
| `DispatchLoop.Dispatcher.StartClaimForCohort` | go/worker.go:1418-1429 | starts one claim for the roomiest cohort |
| `DispatchLoop.Dispatcher.SettlePlainClaim` | go/worker.go:1283-1322 | returns the reservation and launches the tasks |
| `DispatchLoop.Dispatcher.ReserveCompletionClaim` | go/worker.go:1326-1352 | grants a reservation exactly when the loop may claim and the refill rule allows it |
| `DispatchLoop.Dispatcher.ReleaseSlot` | go/worker.go:960-973 | only the first call returns the handler slot |
| `DispatchLoop.Dispatcher.SettleCompletionClaim` | go/worker.go:1353-1376 | settles a fused claim with or without replacements |
| `DispatchLoop.Dispatcher.ExecutionReturned` | go/worker.go:1206-1210 | an execution that ends returns its slot unless the loop already did |
| `DispatchLoop.Dispatcher.ObserveExecution` | go/worker.go:1212-1225 | takes a finished execution out of the counters |
| `DispatchLoop.Dispatcher.ReturnFromRun` | go/worker.go:976-982 | leaves the held slots to later runs |
| `DispatchLoop.Dispatcher.TakeStep` | go/worker.go:1378-1500 | any select case or end of an execution, taken in place, is the proved step and keeps the invariant of the counters |
| `Leases.LocalWindowWithinGrant` | go/worker.go:2609-2690 | over every interleaving of claims, rounds, busy answers, failed rounds, dropped and late renewals: the local end of a lease never exceeds the expiry that PostgreSQL last granted its fence, so recovery can take the task only after the window ended |
| `Leases.OpenWindowLosesFenceExactly` | go/worker.go:2609-2690 | in every run, an attempt inside its local window has lost its fence exactly when PostgreSQL ended its lease at a timeout or deadline, or committed its own write and the answer is still on its way; recovery of an expired lease never takes it |
| `Leases.OverlapExactly` | sql/schema/current.sql:14706-14747 | a run in which an attempt inside its window stands beside the holder of its task exists exactly for leases with a duration that ended at a timeout or deadline, or with an unanswered write |
| `Leases.OverlapNeedsLostFence` | go/worker.go:3069-3073 | of two attempts of one task inside their windows, one has lost its fence so |
| `Leases.StepOverlapsExactly` | go/worker.go:2609-2611 | a step leads to two open windows of one task exactly when it starts an attempt inside its window beside an open window of the task |
| `Leases.OverlapRun` | sql/schema/current.sql:11608-11634 | a run with two open windows of one task, for each of the two ways |
| `Leases.AcceptedRenewalIsReported` | go/worker.go:3057-3082 | over any events: what PostgreSQL accepts in a round is in the slot of every member still registered when the round returns, with the instant at which the round started; a full slot keeps its value |
| `Leases.ReportedRenewalMovesWindow` | go/worker.go:2679-2687 | the next turn of the supervisor inside the window moves the end to one lease after that instant, and until then no later event enables the watchdog |
| `Leases.WindowEndsOnTime` | go/worker.go:2634-2690 | an open attempt can be ended exactly from the end of its window on; the watchdog and a renewal that comes too late both end and unregister it |
| `Leases.RoundNamesRegistered` | go/worker.go:3003-3017 | a regular round names exactly the attempts of its worker that are registered when it starts, and so none that left before, however long ago |
| `Leases.AttemptLeaves` | go/worker.go:2634-2690 | an attempt that gives up, or whose write is answered, leaves its window and the batch; one that only unregisters keeps its window |
| `Leases.RoundMakesRoom` | go/worker.go:2950-3000 | a round that returned or failed lets its worker start the next one |
| `Leases.RenewalExtends` | sql/schema/current.sql:11921-12031 | a renewal runs for a whole lease from when PostgreSQL accepts it, also when the worker no longer waits for it |
| `Leases.EndedLeaseFreesTask` | sql/schema/current.sql:14767-14780 | a lease that was recovered, timed out or settled leaves its task to the next claim |
| `Leases.ClosedWindowStaysClosed` | go/worker.go:2679-2690 | however a run goes on, a closed window never opens again |
| `Leases.LeaseEndNeverMovesBack` | go/worker.go:2679-2687 | the local end of a lease only moves forward |
| `Leases.StepInv` | go/worker.go:3057-3097 | every step of PostgreSQL, with timeouts and writes that end a lease before its expiry, of the heartbeat loop and of the supervisors keeps the lease invariant |
| `Leases.Member.Renew` | go/worker.go:447-452 | an empty slot takes the instant, and a full one keeps what it holds |
| `Leases.Member.Take` | go/worker.go:2679-2687 | a renewal moves an open window, and gives up one that has ended |
| `Leases.Member.Judge` | go/worker.go:3088-3094 | a verdict cancels the handler unless it is a stale one during an expiry request, and is delivered; the first cause and the first result stay |
| `Leases.RefreshOwnership` | go/worker.go:3057-3097 | field by field, for the member at each position, if still registered: accepted fills an empty slot with the instant of the round, busy changes nothing and is returned, any other status is delivered and cancels as above; nothing else changes |
| `Leases.BusyRetrySelection` | go/worker.go:3027-3050 | the deadline is the least of the bound, the next slot and the selected windows, and too short a retry selects none |
| `HeartbeatRounds.OneLeaderServesEveryRound` | go/heartbeat_connection.go:527-600 | at most one round leads; a waiting round always has a leader; every round is waiting, leading, joined to the leader, or ended |
| `HeartbeatRounds.RoundEndsOnce` | go/heartbeat_connection.go:610-654 | a round ends once, as leader, joined or expired, and a joined round gets exactly one result |
| `HeartbeatRounds.ResultIsTheLeaders` | go/heartbeat_connection.go:639-654 | in every run the result of a joined round is what the transaction of its leader delivered while the round was in it |
| `HeartbeatRounds.DeliveryReachesGroup` | go/heartbeat_connection.go:639-649 | a delivery gives every joined round its one outcome and changes no other round |
| `HeartbeatRounds.HandOffLetsAllJoin` | go/heartbeat_connection.go:563-600 | the new leader has the earliest deadline, so every other waiting batch round may join it |
| `HeartbeatRounds.EarliestIsFirstMinimum` | go/heartbeat_connection.go:572-577 | the hand-off picks the earliest deadline, the first one on a tie |
| `HeartbeatRounds.SelectMembers` | go/heartbeat_connection.go:585-600 | joining splits the waiting rounds into the eligible ones and the others, none twice and none lost |
| `HeartbeatRounds.EnteredLeadsOrWaits` | go/heartbeat_connection.go:527-545 | a round that enters leads if none does and otherwise waits behind the others |
| `HeartbeatRounds.ExpiryLeaves` | go/heartbeat_connection.go:546-560 | a round whose context ends leaves exactly while it waits, and nothing else changes |
| `HeartbeatRounds.StepInv` | go/heartbeat_connection.go:527-682 | every step keeps a joined round on a transaction whose deadline is not later than its own |
| `HeartbeatRounds.Connection.EnterRound` | go/heartbeat_connection.go:527-545 | a round leads at once when none does, and waits otherwise |
| `HeartbeatRounds.Connection.ExpireRound` | go/heartbeat_connection.go:546-560 | a round whose context ended leaves the waiting rounds, unless a leader took it |
| `HeartbeatRounds.Connection.JoinWaiting` | go/heartbeat_connection.go:585-600 | moves every eligible round to the leader and keeps the others in order |
| `HeartbeatRounds.Connection.DeliverResults` | go/heartbeat_connection.go:639-649 | gives every joined round the outcome of the transaction |
| `HeartbeatRounds.Connection.HandOffLead` | go/heartbeat_connection.go:565-581 | passes the lead to the earliest deadline, or to none |
| `HeartbeatRouting.MemberGetsItsOwnStatus` | go/worker.go:3112-3194 | when PostgreSQL answers every batch of a shared statement, in any interleaving, each member gets exactly the status of its own lease, also when two members name one task |
| `HeartbeatRouting.StatusesComeFromOwnRows` | go/heartbeat_connection.go:702-728 | whatever rows arrive, an accepted status comes from a row of the round's own batch that names the member's task |
| `HeartbeatRouting.OrderPermutes` | go/worker.go:3126-3134 | the sent order names every member once |
| `HeartbeatRouting.OrderIsByTaskId` | go/worker.go:3130-3134 | of two leases the later one never has the smaller task ID, by the first character at which the IDs differ |
| `HeartbeatRouting.RoutedExactly` | go/heartbeat_connection.go:702-728 | an answer is routed exactly when every row names a batch of the statement and every batch has one row for each lease |
| `HeartbeatRouting.RowReachesItsRound` | go/heartbeat_connection.go:702-728 | every row of a routed answer is in the batch that it names |
| `HeartbeatRouting.PositionsAreDistinct` | go/heartbeat_connection.go:685-700 | no two batches of a statement share a position |
| `HeartbeatRouting.RowsOfExactly` | go/heartbeat_connection.go:702-728 | the rows of a batch are those that name it, in the order in which they came |
| `HeartbeatRouting.RoutePoolRows` | go/heartbeat_connection.go:702-728 | rows go back to the round of their batch, or the whole answer is refused for a wrong position or count |
| `HeartbeatRouting.ApplyBatch` | go/worker.go:3159-3178 | the rows of a batch fill the positions of its members, or one of them does not fit |
| `HeartbeatRouting.CollectStatuses` | go/worker.go:3160-3194 | statuses exist exactly when every row fits its member, and then stand at the members' positions |
| `ConnectionGenerations.StartsAfterEarlierSettled` | go/heartbeat_connection.go:331-352 | a generation starts acquiring only after every earlier one has settled or closed unstarted |
| `ConnectionGenerations.ClosedUnstartedNeverStarts` | go/heartbeat_connection.go:841-854 | a generation that closed before it started never starts |
| `ConnectionGenerations.OneAcquireInFlight` | go/heartbeat_connection.go:300-400 | in the whole pool at most one Acquire for a heartbeat connection is in flight |
| `ConnectionGenerations.ConnectionsRemovedOnce` | go/heartbeat_connection.go:733-871 | every lent connection belongs to one generation until it is removed, exactly once; a settled generation has none; only one generation has any |
| `ConnectionGenerations.LeasedGenerationIsOpen` | go/heartbeat_connection.go:936-980 | an unreleased lease holds the current generation, which is open |
| `ConnectionGenerations.StepInv` | go/heartbeat_connection.go:300-426 | every step inside a generation, and every hold and release, keeps the chain and the ownership of connections |
| `ConnectionGenerations.ActSound` | go/heartbeat_connection.go:331-426 | an action starts or settles a generation only when it is free, and moves connections only by Acquire and removal |
| `ConnectionGenerations.ConnectionStaysHeld` | go/heartbeat_connection.go:733-774 | a round in flight, or an open generation, keeps its connection unless that round discards it; a connection that leaves goes to removal |
| `ConnectionGenerations.DiscardReplaces` | go/heartbeat_connection.go:861-871 | a discarded connection goes to removal and an open generation asks for another at once; any other connection changes nothing |
| `ConnectionGenerations.RoundsAreCounted` | go/heartbeat_connection.go:744-762 | a round counts from its start to its end, and nothing else counts |
| `ConnectionGenerations.ReleaseExactly` | go/heartbeat_connection.go:953-980 | a lease releases once; the last release lets a started generation close and hands back what an unstarted one waited for |
| `GenerationProgress.ReachableLive` | go/heartbeat_connection.go:823-871 | in every reachable state an empty generation is settling unless it was handed back, one that is not current has been left, and what a generation waits for is an earlier one that settles |
| `GenerationProgress.NoGenerationIsStuck` | go/heartbeat_connection.go:300-426 | from every reachable state there is a continuation in which a generation without holders settles or was handed back, whatever the earlier ones still do |
| `GenerationProgress.NoHolderIsStuck` | go/heartbeat_connection.go:266-383 | from every reachable state there is a continuation in which the current generation is still current and holds a connection |
| `ConnectionGenerations.Connection.StartAcquiring` | go/heartbeat_connection.go:300-313 | starts one loop unless a connection is held, a loop runs, or the generation closed |
| `ConnectionGenerations.Connection.EndAcquiring` | go/heartbeat_connection.go:418-426 | ends the loop and settles if nothing is left |
| `ConnectionGenerations.Connection.WaitEnded` | go/heartbeat_connection.go:332-350 | after the wait, an open generation starts and a closed one ends |
| `ConnectionGenerations.Connection.PrepareEnded` | go/heartbeat_connection.go:353-383 | the loop stores a prepared connection, or removes it |
| `ConnectionGenerations.Connection.ReturnHeldConnection` | go/heartbeat_connection.go:767-774 | the held connection goes to removal before the generation settles |
| `ConnectionGenerations.Connection.ReleaseConnection` | go/heartbeat_connection.go:733-742 | closes the generation; a round in flight keeps the connection |
| `ConnectionGenerations.Connection.EndRound` | go/heartbeat_connection.go:754-762 | the last round of a closed generation returns its connection |
| `ConnectionGenerations.Connection.DiscardConnection` | go/heartbeat_connection.go:861-871 | only the held connection is discarded, and its replacement starts at once |
| `ConnectionGenerations.Connection.RemovalEnded` | go/heartbeat_connection.go:781-790 | an ended removal lets the generation settle |
| `ConnectionGenerations.Connection.SettleLocked` | go/heartbeat_connection.go:823-839 | settles only with no holder, round, loop or removal left |
| `ConnectionGenerations.Connection.TakeAction` | go/heartbeat_connection.go:300-426 | any action inside a generation, taken in place, is the proved action and keeps the invariant of the generation |
| `ConnectionGenerations.Registry.HoldConnection` | go/heartbeat_connection.go:936-949 | a holder shares the current generation or opens one that follows the settling one |
| `ConnectionGenerations.Registry.ReleaseLease` | go/heartbeat_connection.go:953-979 | a lease releases once, and the last one leaves the generation |
| `ConnectionGenerations.Registry.LeaveGeneration` | go/heartbeat_connection.go:966-993 | an unstarted generation hands back what it waited for; a started one is waited for |
| `ListenerHubs.OneListenerAtATime` | go/notifications.go:86-148 | a hub listens only after every earlier one ended, so a pool never has two listener connections |
| `ListenerHubs.SubscribersKeepTheirHub` | go/notifications.go:95-148 | a hub with a subscriber is the current one and has not been stopped |
| `ListenerHubs.NoHubIsStuck` | go/notifications.go:86-148 | from every state that a run can reach, the hub of the current subscribers can still come to listen |
| `ListenerHubs.SubscriptionIsKept` | go/notifications.go:86-112 | a subscription joins the current hub or a new one, and no other subscription changes |
| `ListenerHubs.SubscriptionLeaves` | go/notifications.go:129-148 | a subscription that leaves is gone and the others stay; exactly the last one stops its hub |
| `ListenerHubs.StepInv` | go/notifications.go:86-148 | every step keeps the hand-over chain of hubs |
| `ListenerHubs.Hubs.SubscribeWorker` | go/notifications.go:86-112 | a worker joins the current hub or opens one behind the stopping hub |
| `ListenerHubs.Hubs.LeaveHub` | go/notifications.go:129-148 | the last subscriber stops the hub |
| `JsonbScanner.ScannerIsMeasure` | go/value_size.go:229-317 | on the text of any document, at any depth, with white space and duplicate keys, the stack scanner returns the recursive measure of the decoded value, where the last member of a key wins; the two agree before they wrap around, and so after |
| `JsonbScanner.ScanValue` | go/value_size.go:229-317 | whatever containers are open, the text of a value adds its size to the innermost one |
| `JsonbScanner.ScanMembers` | go/value_size.go:240-297 | an object closes with the size of the last member of each key |
| `JsonbScanner.ScanItems` | go/value_size.go:240-275 | an array closes with the sizes and the count of its elements |
| `JsonbScanner.SizeIsMeasure` | go/value_size.go:131-165 | the size by the syntax tree is the measure of the decoded value |
| `JsonbMeter.ScannedTextBytes` | go/value_size.go:229-317 | the token loop, in machine integers, leaves the machine integer of the scanner, and so of the recursive measure |
| `JsonbMeter.ReadToken` | go/value_size.go:254-315 | one turn of the loop consumes one token and changes the stack as the scanner says |
| `JsonbMeter.FindLiteralEnd` | go/value_size.go:279-286 | a literal ends at its closing quote, whatever its escapes hold |
| `JsonbMeter.FindNumberEnd` | go/value_size.go:304-308 | a number ends at the first byte that cannot be part of it |
| `JsonbMeter.SumMembers` | go/value_size.go:264-269 | the member sizes add up in any map order, in machine integers |
| `JsonbMeter.Meter.AddValue` | go/value_size.go:240-253 | a value is added to the innermost open array or object, and without one it is the size of the document |
| `JsonbMeter.Meter.CloseContainer` | go/value_size.go:260-275 | a closed container is measured and added to the one around it |
| `JsonbMeter.Meter.ReadString` | go/value_size.go:287-296 | a string is a key where one is expected, and a value elsewhere |
| `JsonbSize.Measure` | go/value_size.go:131-165 | the recursive measure in machine integers, with the members of an object in any map order |
| `JsonbSize.MeasureString` | go/value_size.go:170-186 | a string measures as escape_json writes it, in machine integers |
| `JsonbSize.SumOverAny` | go/value_size.go:157-161 | the sum over a map does not depend on the order |
| `NumericText.NumericTextBytesIsLength` | go/value_size.go:191-224 | for any JSON number token whose exponent fits an integer, the measure is the length of its plain decimal notation exactly when that length fits a machine integer, and the place of the point does or the number is zero |
| `NumericText.PartsBytesIsExactly` | go/value_size.go:206-223 | the wrapped point, scale and sum give the exact length exactly under that condition, and never more than a length that fits |
| `NumericText.HugeExponentMeasuresOne` | go/value_size.go:206-223 | one followed by 2^63 - 1 zeros measures one byte |
| `JsonbText.TextHasExactSize` | go/value_size.go:127-165 | every jsonb text of a value, written out as a string with its separators, escapes and plain numbers and with the members in any order, has the exact size in UTF-8 bytes |
| `JsonbText.MeasureIsTextLength` | go/value_size.go:127-165 | the machine measure is the length of that text exactly when the length fits a machine integer and so does the point of every number |
| `JsonbText.HasText` | go/value_size.go:127-131 | every value whose exponents fit an integer has such a text |
| `Utf8.Utf8BytesIsLength` | go/value_size.go:170-186 | the bytes that are counted are those of the UTF-8 encoding, which reads back |
| `ExactSize.MeasureIsExactly` | go/value_size.go:131-165 | the machine measure of a value is the exact size of its jsonb text exactly when that fits a machine integer and the point of every number does, or the number is zero |
| `ExactSize.LimitsAgreeExactly` | go/value_size.go:31-39 | every limit decides alike on the measure and on the exact size exactly under that condition |
| `ExactSize.SizesCompare` | go/value_size.go:131-224 | while the exact size fits a machine integer, the measure is never above it |
| `ExactSize.HugeNumberPasses` | go/value_size.go:31-39 | a number of 2^63 digits measures one byte, so no limit refuses it |
| `NumericText.RenderedRenders` | go/value_size.go:188-190 | every token has such a notation: of the same value, signed only below zero, without leading zeros, and with the fraction digits of the token less its exponent |
| `NumericText.PlainTokenBound` | go/value_size.go:191-224 | without an exponent the measure is at least one and at most the length of the token |
| `SizeCheck.CheckValueSize` | go/value_size.go:27-39 | a value is refused exactly when there is a limit and the measure is above it; where the length of its jsonb text fits a machine integer and so does the point of every number, exactly when that text is longer than the limit, and the length is reported |
| `SizeCheck.DoublingBound` | go/value_size.go:27-39 | without exponents, the jsonb text is at most twice the encoded text |
| `SizeCheck.TokensAreShort` | go/value_size.go:131-141 | no number token of a decoded document is longer than its text |
| `SizeCheck.FindExponentNumber` | go/value_size.go:118-125 | finds a digit before an exponent marker exactly when there is one |
| `SizeCheck.PiecesBound` | go/value_size.go:170-186 | no escape of a literal is shorter than what PostgreSQL writes for it |
| `JsonNumbers.ExceedsSafeIntegerIsExact` | go/checkpoint_fingerprint.go:459-493 | true exactly when the rational value of the text exceeds 2^53 - 1 in magnitude, for any digits, zeros and exponent, also one outside the integer range; the limit of section 2.2 of RFC 7493 |
| `JsonNumbers.DigitsAboveIsExact` | go/checkpoint_fingerprint.go:483-492 | the comparison of the padded integer digits, with the fraction deciding a tie, is exact for any limit |
| `Decimal.TextOrderIsNumeric` | go/checkpoint_fingerprint.go:488-489 | digit strings of one length compare as text exactly as they compare as numbers |
| `JsonParser.DocumentParses` | go/checkpoint_fingerprint.go:116-121 | every JSON text parses back to its own syntax tree, so a text has one reading |
| `JsonTokens.PiecesParse` | go/value_size.go:279-290 | the pieces of a string literal are read back from its text |
| `CanonicalForm.CanonicalExactly` | go/checkpoint_fingerprint.go:500-634 | a document keeps the rules of RFC 8785, stated without the writer, exactly when it is the canonical document of the value that it denotes |
| `CanonicalForm.OneCanonicalText` | go/checkpoint_fingerprint.go:500-634 | every value has exactly one text that keeps the rules, and that is its canonical text |
| `CanonicalForm.ShortestExactly` | go/checkpoint_fingerprint.go:563-592 | of all literals that denote a text, the canonical one is the only shortest one with lowercase hexadecimal digits, per section 3.2.2.2 of RFC 8785 |
| `CanonicalForm.CharUnitsExactly` | go/checkpoint_fingerprint.go:537-540 | the code units that order the keys are the surrogate pair of a character outside the basic plane, and any other character itself |
| `CanonicalForm.CharPieceIsShortest` | go/checkpoint_fingerprint.go:563-592 | no escape of a character is shorter than the one written, and no other lowercase one is as short |
| `CanonicalForm.EcmaScriptExactly` | go/checkpoint_fingerprint.go:599-634 | a number token has an exponent only from 10^21 on or below 10^-6, after one digit and with its sign, and no zero that could be left out, exactly when it is the layout of its double, per section 3.2.2.3 of RFC 8785 |
| `CanonicalJson.CanonicalParses` | go/checkpoint_fingerprint.go:500-557 | canonical text is JSON that parses back to the value it was written for, per section 3.2 of RFC 8785 |
| `CanonicalJson.CanonicalInjective` | go/checkpoint_fingerprint.go:500-557 | two values with one canonical text are the same value |
| `CanonicalJson.KeysAreOrdered` | go/checkpoint_fingerprint.go:536-540 | the keys of an object stand in strict order of their UTF-16 code units, per section 3.2.3 of RFC 8785 |
| `CanonicalJson.OrderIsIndependent` | go/checkpoint_fingerprint.go:532-540 | whatever order the map gives the keys in, sorting gives the one canonical order |
| `CanonicalJson.Utf16Injective` | go/checkpoint_fingerprint.go:536-540 | different keys have different code units, so the order is total |
| `CanonicalJson.CanonicalPiecesRead` | go/checkpoint_fingerprint.go:563-592 | the escapes of a canonical string are reversible, per section 3.2.2.2 of RFC 8785 |
| `CanonicalNumbers.LayoutReadsBack` | go/checkpoint_fingerprint.go:599-634 | the ECMAScript layout loses neither sign, digits nor point, per section 3.2.2.3 of RFC 8785 |
| `CanonicalNumbers.LayoutKeepsValue` | go/checkpoint_fingerprint.go:612-634 | the layout denotes the decimal that its digits and its point denote |
| `CanonicalNumbers.LayoutSpells` | go/checkpoint_fingerprint.go:616-634 | the written text is the text of the structured number that the two laws above are about |
| `CanonicalWriter.WriteCanonical` | go/checkpoint_fingerprint.go:500-557 | writes the canonical text of what the value denotes, and fails exactly when some number is out of range, or too large as a double or by its text |
| `CanonicalInputs.CanonicalInput` | go/checkpoint_fingerprint.go:98-127 | an input has canonical text exactly when every number is in the range of doubles and the magnitudes of its double and of its exact value stay within 2^53 - 1; that text parses back to what the input says, entry by entry, with each number as its double and is the one text of it that keeps the rules of the canonical form |
| `CanonicalInputs.LargeIsWritten` | go/checkpoint_fingerprint.go:506-518 | a double is refused for its magnitude exactly when the number written for it denotes more than 2^53 - 1 |
| `CanonicalInputs.AcceptableIsSafe` | go/checkpoint_fingerprint.go:506-518 | the checks of the writer refuse exactly the values with a number that is unsafe by its double or by its exact value |
| `CanonicalWriter.WriteString` | go/checkpoint_fingerprint.go:563-592 | writes the canonical literal, which no other literal of the text undercuts |
| `CanonicalWriter.WriteArray` | go/checkpoint_fingerprint.go:521-531 | writes the elements in order, or fails with one of them |
| `CanonicalWriter.WriteObject` | go/checkpoint_fingerprint.go:532-553 | writes the members in canonical key order, from any map order |
| `CanonicalWriter.SortedKeys` | go/checkpoint_fingerprint.go:532-540 | gathers and sorts the keys into the one canonical order |
| `Escapes.ScannersAgree` | go/value_size.go:55-114 | on every JSON document jsonb refuses a text exactly when the fingerprint scanner finds a lone surrogate or there is an escape of NUL, and the prefilter hides no refused text |
| `Escapes.ScanEscapesFinds` | go/checkpoint_fingerprint.go:132-161 | the fingerprint scanner finds exactly the surrogates outside a pair, and counts the escapes of U+FFFD |
| `Escapes.FullScanFinds` | go/value_size.go:55-92 | the storage scan finds exactly the surrogates outside a pair and the escapes of NUL |
| `Escapes.PrefilterKeeps` | go/value_size.go:94-114 | every text with such an escape passes the prefilter |
| `Escapes.FindUnstorableEscape` | go/value_size.go:55-92 | the index loop with its expected position computes the storage scan |
| `Escapes.FindRefusedStart` | go/value_size.go:97-109 | the backslash loop computes the prefilter |
| `Escapes.ScanAllEscapes` | go/checkpoint_fingerprint.go:132-161 | the index loop computes the fingerprint scan |
| `AttemptEnd.EndAttempt` | go/worker.go:2441-2572 | for every run of the supervisor and any answers of PostgreSQL: from the first expiry request to the last write the attempt observes at most one settling write, and it is the last; each answer is followed by the write that it calls for; the error is a stop of the run exactly when nothing else decides, never a lost lease; without a settling write and without an error the lease is lost, by the verdict, the cause or the last answer; the outcome is what the settling write says, or the expiry that the attempt set out to settle |
| `AttemptEnd.ExpiryReportsOtherSettlement` | go/worker.go:2501-2534 | the outcome need not be what the settling write says: whenever the attempt sets out to settle an expiry, an answer can make it acknowledge a cancellation and still report the expiry; by `EndAttempt` this happens in no other situation |
| `AttemptEnd.VerdictIsConsistent` | go/worker.go:2461-2521 | every verdict of every run of the supervisor is one that the settlement can start from: settled only as a deadline or timeout, with the expiry answered as its last request, and otherwise with no settling answer so far |
| `AttemptEnd.RunAgrees` | go/worker.go:2701-2716 | in every run the verdict says settled exactly when an answer to an expiry request was a settled expiry, and names it |
| `Settlement.Attempt.Execute` | go/worker.go:2386-2572 | for any answers of PostgreSQL: the attempt stops at the first write that settles it; the first write is the one that the situation calls for, and each later one the one that the answer before it calls for; a suspended attempt writes nothing; a lost lease gives the outcome lease_lost and no error; any other error comes from the stop of the run, an answer that decides nothing, or a failure that cannot be sent; the outcome is what the settling write says, or the expiry that the attempt set out to settle |
| `Settlement.FirstWriteExactly` | go/worker.go:2487-2571 | each write is the first one in exactly the stated situations: the verdict comes before the cause, the cause before the stop, and the result of the handler last |
| `Settlement.StopWritesNothingExactly` | go/worker.go:2477-2546 | an attempt that ends with the stop of its run writes nothing exactly if it is suspended, or its handler ended before the stop or not because of it |
| `Settlement.ExpiryOutcomeExactly` | go/worker.go:2501-2534 | the verdict names the expiry that is reported, and the cause does where the verdict decides nothing |
| `SettlementTruth.WritesFindFate` | go/worker.go:3343-3390 | against the answers that the row of the task gives, the writes end with the cancellation or the expiry that overruled a settlement, whichever was tried first, and tell a lost lease exactly when nothing can settle the attempt |
| `SettlementTruth.ReportFate` | go/worker.go:2441-2572 | against such answers the whole attempt settles exactly when its task has a fate, and its outcome names it; otherwise it reports a lost lease |
| `Settlement.SettlesOnce` | go/worker.go:2386-2572 | the writes that `Execute` leaves are open or settled, which means that they hold no settling write, or exactly one, and that is the last |
| `Settlement.Attempt.SettleOwned` | go/worker.go:2487-2523 | the supervisor's verdict decides before anything else |
| `Settlement.Attempt.SettleByCause` | go/worker.go:2524-2548 | then the cause of the cancellation, then the stop of the run |
| `Settlement.Attempt.SettleResult` | go/worker.go:2549-2571 | a value completes the task, and anything else fails it if the failure can be sent |
| `Settlement.Attempt.ReconcileRejected` | go/worker.go:3343-3373 | after a rejected settlement, the attempt asks for the cancellation and then for the expiry; the one that PostgreSQL settles is the outcome, and otherwise the lease is lost |
| `Settlement.Attempt.SettleExpiration` | go/worker.go:3375-3390 | no error exactly when the expiry or the cancellation was settled |
| `Settlement.Attempt.ExpireOwnership` | go/worker.go:3288-3305 | asks again only while the answer is not_due, and reports a settled expiry exactly |
| `Settlement.Attempt.FailAttempt` | go/worker.go:3707-3757 | the outcome is the state that PostgreSQL settled; a failure that cannot be sent writes nothing |
| `Settlement.Attempt.SettleAfterShutdown` | go/worker.go:3531-3582 | completes or releases the task after a stop, and reports success only when the write was accepted |
| `Settlement.Attempt.ReleaseOwned` | go/worker.go:3587-3649 | reports the outcome that the release status implies |
| `Settlement.Attempt.AcknowledgeCancellation` | go/worker.go:3329-3338 | no error exactly when the acknowledgement was accepted |
| `Settlement.Attempt.CompleteTask` | go/worker.go:1965-1992 | a completion is accepted, stale or failed; the ordinary statement follows the batched one exactly when the queue of a fast-tier task left the tier |
| `Supervisor.ExactlyOneVerdict` | go/worker.go:2596-2752 | a supervisor never gives two verdicts, and one that ended gave exactly one |
| `Supervisor.RequestOnlyWhileHandlerRuns` | go/worker.go:2646-2701 | an expiry request is in flight only while the return of the handler has not been acknowledged, also after the supervisor ended |
| `Supervisor.VerdictExactly` | go/worker.go:2655-2734 | each step gives exactly the verdict of its case: the return, the stop, the end of the window, the heartbeat result outside a request, the answer that decides, or the result that waited for one that does not |
| `Supervisor.VerdictNamesCause` | go/worker.go:2673-2734 | a verdict against the attempt ends the supervisor and cancels the handler for that reason, unless it has a cause |
| `Supervisor.VerdictIsSourced` | go/worker.go:2655-2734 | in every run the status of the verdict is one that a heartbeat or an answer brought, or that the window gave |
| `Supervisor.ExpiryIsTheCause` | go/worker.go:2701-2716 | a deadline or timeout that the supervisor receives becomes the cause, never a stale heartbeat that this expiry produced, unless another source cancelled first |
| `Supervisor.BeatReachesSupervisor` | go/worker.go:3088-3094 | a heartbeat result reaches the inbox if that is empty, and cancels the handler on its way unless it is stale during an expiry request or a cause is set |
| `Supervisor.ExpiryIsAsked` | go/worker.go:2691-2700 | while the handler runs, an expiry that is due is asked for, one request at a time |
| `Supervisor.RequestIsAnswered` | go/worker.go:2691-2738 | an expiry that PostgreSQL settles for the request is reported as settled, and a request that fails lets the attempt go on |
| `Supervisor.AnswerEndsRequest` | go/worker.go:2701-2738 | an answer ends the request, and only one that decides keeps stale results from cancelling |
| `Supervisor.ResultWaits` | go/worker.go:2663-2670 | a heartbeat result that comes during a request is kept until its answer |
| `Supervisor.SettledVerdictIsExpiry` | go/worker.go:2709-2715 | only an expiry that PostgreSQL settled is reported as settled |
| `Supervisor.StepInv` | go/worker.go:2641-2740 | every select case, and every step of the heartbeat loop beside it, keeps the supervisor's invariant |
| `Supervisor.Loops.ReceiveResult` | go/worker.go:2663-2678 | a heartbeat verdict waits for an expiry request in flight |
| `Supervisor.Loops.FireWatchdog` | go/worker.go:2634-2640 | a lost lease cancels a running handler and reports it |
| `Supervisor.Loops.StartExpiry` | go/worker.go:2691-2700 | an expiry is asked only while the handler runs |
| `Supervisor.Loops.ReceiveAnswer` | go/worker.go:2701-2738 | a deciding answer ends the attempt before the heartbeat may cancel again |
| `Supervisor.Loops.RejectRenewal` | go/worker.go:3088-3094 | a stale status does not cancel while an expiry request runs |
| `Supervisor.Loops.TakeStep` | go/worker.go:2641-2740 | any select case or step beside the loop, taken in place, is the proved step and keeps the invariant |
| `CompletionQueue.OneFlusherPerKey` | go/worker.go:2068-2110 | no key ever has two live flushers |
| `CompletionQueue.PendingHasFlusher` | go/worker.go:2068-2110 | completions never wait for a key without a live flusher |
| `CompletionQueue.AnsweredExactlyOnce` | go/worker.go:2068-2110 | a completion is answered at most once, and until then a live flusher of its key has it or will take it |
| `CompletionQueue.NoCompletionIsStuck` | go/worker.go:2068-2110 | from every state that a run can reach, some continuation gives each unanswered completion its one answer |
| `CompletionQueue.SubmittedWaits` | go/worker.go:2068-2086 | a submitted completion waits at the end of its key, and a flusher runs for that key |
| `CompletionQueue.StepInv` | go/worker.go:2068-2110 | every submit, take, answer and return keeps a completion in exactly one place |
| `CompletionQueue.Batcher.SubmitCompletion` | go/worker.go:2068-2086 | joins the batch of the key and starts a flusher unless one runs |
| `CompletionQueue.Batcher.TakeBatch` | go/worker.go:2088-2100 | takes the whole batch, or ends under the same lock |
| `CompletionQueue.Batcher.AnswerCompletion` | go/worker.go:2217-2221 | one more answer for a completion of the batch in flight |
| `CompletionFlush.Flush` | go/worker.go:2088-2110 | one turn takes all completions that wait for the key, and when the flusher is back at its head each of them, and no other, has had one answer more; under its ID stands what the one statement that it went out with answered to it: acceptance by its own task ID, rows within its own limit; with nothing to take it ends |
| `CompletionFlush.SendBatch` | go/worker.go:2099-2108 | the statements together hold each completion of the batch once; in each statement every completion has the answer to its own task, and every row that the statement claimed is with exactly one of them |
| `CompletionFlush.SendStatement` | go/worker.go:2137-2224 | one chunk goes out whole; without a connection, after a failure or without accepted IDs all of it is refused |
| `CompletionFlush.CollectAnswers` | go/worker.go:2214-2223 | the answers by completion ID are those of the statements, none lost and none replaced |
| `CompletionFlush.AnswerBatch` | go/worker.go:2214-2223 | every completion of the batch in flight gets its answer, and nothing of the batch is left |
| `CompletionBatches.CompletionChunks` | go/worker.go:2112-2127 | the chunks concatenate to the input, and of a batch none is empty, none holds more than 100 completions, and none asks for more than 100 claims unless one completion asks for them alone |
| `CompletionBatches.ReservationFits` | go/worker.go:1334-1345 | a reservation never exceeds the concurrency, so every chunk claims at most 100 |
| `CompletionBatches.CompleteChunk` | go/worker.go:2137-2224 | every completion is answered once; each claimed row goes to exactly one of them, within the limit that the gate left it; a missing connection, a failed statement or an answer without accepted IDs refuses them all |
| `CompletionBatches.AnsweredForOwnTask` | go/worker.go:2185-2223 | whatever the gate took from the limits, acceptance is by the own task ID of each completion, its rows stay within its own limit, and the claimed rows are handed out completely |
| `CompletionBatches.GatedKeepsTasks` | go/worker.go:2180-2189 | a closed gate changes limits to zero and nothing else |
| `CompletionBatches.SendFenced` | go/fenced_write.go:35-59 | sent again exactly after a deadlock, up to three attempts, with the claim gate read before each |
| `CompletionBatches.ClosedGateClaimsNothing` | go/worker.go:2175-2189 | once an attempt finds the gate closed, no later attempt claims |
| `CompletionBatches.OpenGateKeepsClaims` | go/worker.go:2175-2189 | while every attempt finds the gate open, each claims for all that the chunk asks |
| `CompletionBatches.ClaimedExactly` | go/worker.go:2370-2378 | every row that claims a task is kept, after as many rows as claim one before it, and nothing else is |
| `CompletionBatches.ShareRows` | go/worker.go:2213-2223 | rows are handed out from the front, within each limit, and none is lost |
| `CompletionBatches.ClaimedFastRows` | go/worker.go:2370-2378 | keeps the claimed rows, in order, at the front of the same array |
| `CompletionBatches.AnswerAll` | go/worker.go:2207-2223 | answers a chunk from the rows of its statement |
| `BatchCoordinator.PendingBelowMaximum` | go/batch.go:156-166 | outside the lock no queue holds a full batch |
| `BatchCoordinator.MemberInOnePlace` | go/batch.go:143-244 | a member waits in its queue, or has withdrawn, or is in exactly one batch |
| `BatchCoordinator.BatchesAreOrdered` | go/batch.go:205-226 | a batch holds at most the maximum, by priority and then by arrival |
| `BatchCoordinator.ArrivalIsKept` | go/batch.go:143-170 | a member that arrives keeps its queue and priority; it completes a batch exactly when its queue reaches the maximum |
| `BatchCoordinator.BatchTakesAllWaiting` | go/batch.go:205-226 | a batch is all that waits in its queue, and so the oldest members |
| `BatchCoordinator.OneResultEach` | go/batch.go:246-309 | a dispatched member receives exactly one result, and no other member any |
| `BatchCoordinator.StepInv` | go/batch.go:143-309 | every arrival, flush, withdrawal and delivery keeps every member in one place |
| `BatchCoordinator.NormalizeOutcomes` | go/batch.go:356-389 | one valid outcome for each member gives each its own result; anything else gives none |
| `BatchCoordinator.Coordinator.Handle` | go/batch.go:156-170 | a member joins its queue, and a full queue leaves at once |
| `BatchCoordinator.Coordinator.TakeBatch` | go/batch.go:205-226 | cuts the oldest members and sorts them |
| `BatchCoordinator.Coordinator.Remove` | go/batch.go:228-244 | finds a waiting member and closes the gap |
| `BatchCoordinator.Coordinator.DeliverBatch` | go/batch.go:297-308 | gives every member of the batch exactly one result |
| `Checkpoints.OneValuePerName` | go/durability.go:303-465 | over any number of activations, with answers that are lost and saves that commit after their calls gave up, every successful call for a name returned the one stored value |
| `Checkpoints.StoredForGood` | go/durability.go:425-465 | a stored checkpoint never changes |
| `Checkpoints.OperationsNeverOverlap` | go/durability.go:325-361 | inside an activation the operations for a name never overlap |
| `Checkpoints.NoOperationAfterSave` | go/durability.go:398-420 | a call whose read follows the save does not run its operation |
| `Checkpoints.InitiatorNeverConflicts` | go/durability.go:380-420 | an initiating call with the fingerprint of another input never succeeds |
| `Checkpoints.JoinSucceedsExactly` | go/durability.go:325-339 | for any three fingerprints, a run exists in which the call joins and succeeds exactly when it agrees with its initiator and the initiator agrees with the checkpoint; an absent fingerprint agrees with any |
| `Checkpoints.JoinedAgreesThroughInitiator` | go/durability.go:325-339 | in every run a joined call that succeeded agrees with its initiator, and that with the stored checkpoint |
| `Checkpoints.JoinedConflictExactly` | go/durability.go:297-302 | no run lets a joined call pass the checkpoint of another input exactly when its initiator has an input or the call has none |
| `Checkpoints.JoinerPassesOtherInput` | go/durability.go:325-339 | a run in which a call without an input lets a joined call pass the checkpoint of another input |
| `Checkpoints.BeginExactly` | go/durability.go:325-345 | a call joins the initiator in flight if their inputs agree and conflicts if not; without one it is the initiator |
| `Checkpoints.ReadExactly` | go/durability.go:398-420 | a read replays what is stored for an input that agrees, refuses another input, and runs the operation only if nothing is stored |
| `Checkpoints.SaveExactly` | go/durability.go:428-464 | a save stores the first value of its name; it succeeds exactly when its own value is stored for an input that agrees and the answer arrives, and conflicts exactly when the inputs differ |
| `Checkpoints.GivenUpSaveMayCommit` | go/durability.go:439-441 | a save that its call gave up can still commit, if nothing is stored by then |
| `Checkpoints.StepInv` | go/durability.go:303-465 | every step keeps single flight, replay and the results of joined calls |
| `Checkpoints.HandlerContext.Checkpoint` | go/durability.go:325-340 | a call joins the initiator in flight, after the comparison of their inputs, or becomes it |
| `Checkpoints.HandlerContext.ReadCheckpoint` | go/durability.go:398-420 | a stored value is replayed, and only a missing one lets the operation run |
| `Checkpoints.HandlerContext.Finish` | go/durability.go:345-358 | the initiator leaves the calls in flight with its result |
| `Checkpoints.HandlerContext.SaveCheckpoint` | go/durability.go:428-464 | the first saved value of a name stays, an equal one is confirmed, and another one or another input is refused |
| `Checkpoints.HandlerContext.FailCall` | go/durability.go:439-441 | a call that gives up its save ends with a failure, and PostgreSQL may still commit that save |
| `Checkpoints.HandlerContext.WakeCall` | go/durability.go:333-335 | a joined call takes the result of its initiator |

## Left out

- PostgreSQL's functions and the SQL catalogue, beyond the contract above.
- Telemetry, logging, error texts, the failure envelope, and validation of options and names.
- `hasReplacedText` and the reflection around it, SHA-256, `ParseFloat`, the shortest digits of a double and
  JSON Schema validation; `ParseFloat` is a parameter of the canonical writer, and its doubles carry their
  shortest digits.
- Poll delays, empty waits, notification wake-ups, jitter and random IDs of the dispatch loop: a claim may
  start whenever the loop could start one.
- Fairness: the progress theorems say that every run can be continued until the work is done, not that every run is.
- Several pools: the heartbeat and listener registries are maps by pool, and the model is of one pool.
- The rest of the queue's client and administration, child tasks, waits, task groups, schedules and policies.
- JsonNumbers.ExceedsSafeIntegerIsExact: needs a text shorter than 2^62 characters, and computes the point
  in mathematical integers; an exponent near the end of the integer range, which could wrap in Go, is one
  that `ParseFloat` refuses before the check.
- NumericText.NumericTextBytesIsLength: an exponent that does not fit an integer keeps the length of the
  token, as in the source; the token is at most 2^63 - 1 characters long, as every string is.
- SizeCheck.CheckValueSize: the encoded text is at most 2^62 bytes long, which no slice of bytes exceeds.
- Leases.LocalWindowWithinGrant: a task without a claim instant (go/worker.go:2754-2759) is not modelled, since
  every claim sets one (go/worker.go:1943).
- Supervisor.ExactlyOneVerdict: a heartbeat result may reach the supervisor at any time, also after the
  member left the heartbeat batch, which is more than the source allows.
- Settlement.Attempt.Execute: resends of a write after a deadlock count as one write, and a write whose
  answer was lost, or came with rows that cannot be decoded, counts as not observed.
- SettlementTruth.ReportFate: the row of the task does not change while the attempt settles.
- CompletionFlush.Flush: the chunks of a batch are sent one after another; the source sends them side by side,
  and `CompletionQueue` allows their answers in any order.
- CompletionBatches.CompleteChunk: the accepted IDs of a row are a set of task IDs; their parsing is not modelled.
- The default number of cohorts (go/worker.go:888-894): the model takes any number up to the concurrency.
- CanonicalInputs.CanonicalInput: starts from the decoded value, whose numbers are JSON number tokens; the scan for invalid text before it is `Escapes`,
  and the reflection that finds replaced text is not modelled.
