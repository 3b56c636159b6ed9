# Verified model of the deployment control loop

The repository runs proxy nodes. A control plane compiles a profile into an xray configuration, stores
it, plans a deployment and queues a signed command; a runner on each node polls for commands, checks
them, stages, tests and activates configurations and reports back; bad deployments are rolled back.
Around this loop sit usage accounting with quotas, the profile compiler, the subscription that
advertises credentials to clients, and registration and subscription tokens.

This project models that logic in Dafny and proves what it promises. `dafny verify dfyconfig.toml`
verifies all of it.

## How it is organised

| files | what |
|---|---|
| `Domain`, `Runner`, `Outbound` | entities, the runner with its release directories and `active` link, the polling loop |
| `CommandQueue`, `QueueOrder`, `Store`, `Audit`, `ControlPlane`, `Readiness` | the two command queues and the orders they are safe in, the deployment store and its log, the handlers, readiness |
| `ControlLoop`, `ControlLoopInvariant`, `ControlLoopTheorems`, `Rollout` | one machine over control plane, store, queues, runners and network, every lock acquisition a step; its joint invariant; what follows, and what plans, results and samples mean for later advance calls |
| `SharedIds`, `Collisions`, `RollbackChains`, `Delivery` | an id on two nodes, an id with two contents, rollback pointers, delivery under interleaving |
| `Idempotency`, `OverlappingCompiles`, `Service` | idempotent compiles one after the other and overlapping; the compile and result handlers whole |
| `Calendar`, `Usage`, `Quota` | hour, day and month buckets; rollups; the two quota checks |
| `Version`, `Base64`, `Profile`, `Selection`, `XrayCompiler`, `Subscription`, `SubscriptionText`, `LinkReading` | the compiler, the subscription view of the same credentials, its text, and what clients read out of it |
| `Registration`, `SubscriptionTokens` | the two kinds of token |

Code that updates state is a class whose methods are proved equal to functions on values; the theorems
are about those functions over all runs. `MemoryState`'s fields are spread over several classes by
concern: `MemoryStore`, `UsageStore`, `ProfileStore`, `RegistrationStore`, `SubscriptionTokenStore`.

## What stands for what

- SHA-256, signature checking and token hashing are function parameters. Signatures of commands that
  verify exist only for commands the control plane signed, and a submitted result is one that node's
  runner produced, possibly long ago; both are conditions on steps of the machine.
- Four hypotheses on what a run plans are stated where a theorem needs them: no id is for two nodes
  (`OneNode`), no node gets one id with two configurations (`OneConfigPerNode`), 12-digit prefixes decide
  digests (`PrefixesDecide`), no id is planned twice (`FreshIds`). Ids are made from the first 12 hex
  digits of the configuration's digest, so each can fail. `TargetsExistIff`, `KeepsServingIff`,
  `RestoresIff` and `PlanClosesCycleIff` show that they are exactly what is needed.
- A configuration in the control loop is represented by its rendered bytes. A digest is split after 12
  digits.
- Test, reload and health commands are Boolean outcomes chosen per command.
- Clock readings, generated ids and nonces are arguments. Times are whole seconds; a call that reads
  the clock several times gets one value. Maps are searched in an arbitrary order.
- Actor and action strings are enumerations; error messages and fixed JSON fields are omitted.
- Signed 64-bit sums wrap, as in release builds; the quota results are about the wrapped sums.
- Where code and documentation differ, the model follows the code. `docs/runner/trust-model.md` calls
  the `active` switch atomic; the code removes the link before renaming the new one into place
  (`SwitchIsAtomicIff`).
- One control-plane lifetime: sequence counters live in memory only.

## Model

| member | source | states |
|---|---|---|
| `ControlLoopTheorems.RollbackTargetsExist` | crates/storage/src/lib.rs:855-902 | In every reachable state of the interleaved machine that plans each id for one node only, every rollback command ever signed names a release held by its node's runner |
| `ControlLoopTheorems.AcceptedRollbackSwitches` | crates/runner/src/lib.rs:203-230 | Hence an accepted rollback always reports RolledBack, with the target active and served; it never reports a missing release |
| `SharedIds.TargetsExistIff` | crates/control-plane/src/lib.rs:1051-1062 | The exact condition: for any signature scheme in which every command can be signed, rollbacks find their targets in every run that plans no more than a given set if and only if no id in the set is for two nodes |
| `SharedIds.RollbackToAReleaseNeverHeld` | crates/control-plane/src/lib.rs:1221-1285 | For any two nodes given one id, by the same bytes or by colliding ones, the run that ends with a rollback to a release never held |
| `SharedIds.SuccessOnTheWrongNode` | crates/storage/src/lib.rs:945-974 | Its first part: one node's late success report counts for the other node, for which the id is then the previous deployment |
| `ControlLoopTheorems.RollbackRestoresBytes` | crates/control-plane/src/lib.rs:1254-1271 | In every run whose 12-digit prefixes decide the digests of the planned configurations, after a rollback reported as RolledBack the active configuration hashes to the digest in the command |
| `Collisions.RestoresIff` | crates/control-plane/src/lib.rs:1254-1271 | The exact condition: rollbacks restore what their command names in every run that plans no more than a given set if and only if prefixes decide digests in it, on one node or across nodes |
| `ControlLoopTheorems.RollbackDigestIsTheOriginal` | crates/control-plane/src/lib.rs:1036-1087 | That digest is the one every apply command for the target carried, and the digest of the bytes it carried |
| `ControlLoopTheorems.FailedApplyKeepsServing` | crates/runner/src/lib.rs:99-201 | In every run that gives no node one id with two configurations, an apply that ends other than Succeeded leaves the served configuration unchanged, whatever the three outcomes |
| `Collisions.KeepsServingIff` | crates/runner/src/lib.rs:149-155 | The exact condition: failed deployments leave what is served alone in every run that plans no more than a given set if and only if no node gets one id with two configurations in it |
| `Collisions.FailureReplacesServed` | crates/runner/src/lib.rs:269-299 | The run in which a deployment that fails to reload is served all the same |
| `Collisions.RollbackRestoresOthers` | crates/runner/src/lib.rs:203-230 | The run on one node in which a rollback serves bytes that do not hash to its digest |
| `Collisions.RollbackRestoresAcross` | crates/control-plane/src/lib.rs:1221-1285 | The run across two nodes: the handler reads the pointer, another node reports the id, and the handler goes on with that node's snapshot and the first node's bytes |
| `ControlLoopTheorems.AdvanceNeverFindsARecordMissing` | crates/control-plane/src/lib.rs:1221-1285 | However the lock acquisitions of all handlers interleave, no advance call ends on a missing pointer, snapshot or artifact |
| `ControlLoopTheorems.RecordsAreThere` | crates/storage/src/lib.rs:945-974 | Reachable states: equal key sets; anything not pending has a snapshot; a pointer with a previous id has an artifact whose bytes are stored |
| `ControlLoopTheorems.AdvanceOnUnhealthy` | crates/control-plane/src/lib.rs:1436-1476 | On a succeeded deployment whose latest sample is unhealthy, advance queues a rollback if there is a previous deployment and otherwise says there is none |
| `ControlLoopTheorems.OperatorRollback` | crates/control-plane/src/lib.rs:1221-1285 | An operator's rollback is queued if and only if the deployment has a previous one and has reported a result |
| `ControlLoopTheorems.NoRolloutWithoutSuccess` | crates/control-plane/src/lib.rs:1381-1476 | From any state where an id is not succeeded and until a success for it is submitted, every advance call started meanwhile can only wait |
| `Rollout.NoRolloutAfter` | crates/control-plane/src/lib.rs:1381-1476 | From any reachable state: after a plan of an id, the first or a repeated one, or a result for it other than success, and until a success for it is submitted, every advance call started meanwhile only waits, interleaved or in one go |
| `Rollout.PlanTakesSuccessBack` | crates/storage/src/lib.rs:887-889 | Every enabled plan step leaves its id without success, whatever status it had |
| `Rollout.ResultTakesSuccessBack` | crates/storage/src/lib.rs:945-974 | So does a result other than success |
| `Rollout.ResultDecidesHealth` | crates/storage/src/lib.rs:3542-3547 | After a result for a planned id that has no later sample, the latest sample is healthy iff the result is Succeeded or RolledBack |
| `Rollout.AdvanceAfterSuccess` | crates/control-plane/src/lib.rs:1381-1476 | An advance call right after a reported success queues nothing: it promotes iff the deployment had been seen healthy before, and otherwise waits |
| `Rollout.OneMoreSampleDecides` | crates/control-plane/src/lib.rs:1381-1476 | From any reachable state, after a reported success and one more sample that is not earlier: healthy promotes; unhealthy queues a rollback if there is a previous deployment, and otherwise says there is none |
| `Rollout.CommandsLiveAMinute` | crates/control-plane/src/lib.rs:1075-1094 | A runner refuses a command as expired from sixty seconds after its allocation on, and not before |
| `Rollout.FirstCommandIsAccepted` | crates/runner/src/lib.rs:64-97 | A runner that has received nothing accepts any command signed for its node, the first included, iff less than sixty seconds have passed since its allocation |
| `Rollout.AdvanceIsItsReads` | crates/control-plane/src/lib.rs:1381-1476 | An advance call that runs undisturbed is its interleavable reads in a row |
| `ControlLoopTheorems.CompileIsItsSteps` | crates/control-plane/src/lib.rs:1036-1094 | An undisturbed compile handler equals its four interleavable steps in a row |
| `ControlLoopTheorems.RollbackIsItsReads` | crates/control-plane/src/lib.rs:1221-1285 | The separate reads of the rollback handler find what the whole handler finds |
| `ControlLoopInvariant.StepKeepsInv` | crates/control-plane/src/lib.rs:1036-1285 | Each of the fifteen kinds of step keeps the joint invariant of store, handlers in progress, signed commands, runners and reports |
| `ControlLoopInvariant.RunKeepsInv` | crates/control-plane/src/lib.rs:1036-1285 | So does every run, of any length and interleaving |
| `ControlLoopInvariant.SucceededMeansHeld` | crates/storage/src/lib.rs:945-974 | A reported success, under one node per id, is held by the runner of the node the id is planned for |
| `ControlLoopInvariant.PointerNamesTarget` | crates/storage/src/lib.rs:855-902 | A rollback pointer names an artifact that hashes to the previous id, planned, and held by the node the pointer was made for |
| `ControlLoopInvariant.ReceiveIsSound` | crates/runner/src/lib.rs:64-97 | Whatever envelope arrives, a runner only ever holds releases planned for its node, under ids made from their own bytes |
| `Readiness.ReadinessMeans` | crates/control-plane/src/lib.rs:1381-1425 | Readiness over the raw sample list: blocked without success, unhealthy iff the latest sample (last recorded among ties) is, ready iff also two distinct healthy samples exist |
| `Readiness.PromotedIff` | crates/control-plane/src/lib.rs:1436-1476 | Advance promotes exactly then; and whenever it queues nothing it changes nothing |
| `Readiness.QueuedOnlyWhenUnhealthy` | crates/control-plane/src/lib.rs:1436-1476 | Advance queues only rollbacks to the previous deployment, and only after success with an unhealthy latest sample |
| `ControlPlane.LatestIndex` | crates/control-plane/src/lib.rs:1397-1400 | The latest sample, the last one among equally late |
| `RollbackChains.ChainsAreWellFounded` | crates/storage/src/lib.rs:855-902 | In every run with fresh ids, following previous ids stays on the node, goes strictly back in planning order and ends within as many hops as the id has predecessors |
| `RollbackChains.PlanClosesCycleIff` | crates/storage/src/lib.rs:855-902 | With recurring ids: a plan keeps acyclic pointers acyclic if and only if its id is not on the chain of the deployment it will point to |
| `RollbackChains.ReplanPointsAtItself` | crates/control-plane/src/lib.rs:1051-1062 | Re-planning the latest succeeded id makes it its own rollback target |
| `Delivery.HandedOutAtMostOnce` | crates/storage/src/lib.rs:1190-1222 | With allocation and enqueueing interleaved arbitrarily, across runner restarts: the store hands a node only commands signed for it, no sequence twice, none that is still queued |
| `Delivery.StepKeepsDelivery` | crates/control-plane/src/lib.rs:119-124 | Every step keeps sequences unique per node and each command in one place: with a handler, queued or delivered |
| `Runner.RunnerIsSafe` | crates/runner/src/lib.rs:99-201 | Over all envelope sequences, restarts and outcomes: active never dangles, and every release on disk, the active one included, came in a correctly signed command and passed the test |
| `Runner.AcceptedCommandsAreProper` | crates/domain/src/lib.rs:349-380 | Within a lifetime, for any envelopes, replays included: accepted commands have strictly increasing sequences, distinct nonces, the runner's node and an expiry after acceptance |
| `Runner.EveryApplyInARun` | crates/runner/src/lib.rs:64-97 | At every point of a run: success serves the commanded bytes, any other end leaves the active link, a refusal leaves files and sequence, releases are never dropped |
| `Runner.ApplyOutcome` | crates/runner/src/lib.rs:99-201 | Which status an attempt ends with, as iffs on the three outcomes and on whether anything was active; what it may change on disk |
| `Runner.FailedApplyKeepsServed` | crates/runner/src/lib.rs:99-201 | An unsuccessful attempt keeps the served configuration if and only if it does not re-deploy the active id with other bytes past the test |
| `Runner.FailedApplyCanReplaceServed` | crates/runner/src/lib.rs:149-155 | That exception occurs: a rolled-back attempt that changed what is served |
| `Runner.RollbackOutcome` | crates/runner/src/lib.rs:203-230 | A rollback reports RolledBack iff the target is held, and then serves it; otherwise it reports Failed and changes nothing |
| `Runner.ReplayAfterRestartIff` | crates/runner/src/lib.rs:27-44 | After a restart a runner accepts a command it had accepted before if and only if it has not expired |
| `Runner.SwitchIsAtomicIff` | crates/runner/src/lib.rs:232-247 | Over the elementary states that SwitchActive emits, the link is always the old or the new one if and only if there was no old one, although docs/runner/trust-model.md calls the switch atomic; releases are untouched throughout |
| `Runner.SwitchLeavesNoLink` | crates/runner/src/lib.rs:232-247 | A leftover active.next is cleared before the new one is made, the new one is there to be renamed, and none is left |
| `Runner.LinkResolvesThroughoutIff` | crates/runner/src/lib.rs:149-155 | Over the elementary states of a deployment, the link leads to a release at every one if and only if the test fails or the deployed id is not the active one; the last state is the result |
| `Runner.RefusalChangesNothing` | crates/domain/src/lib.rs:349-380 | Accepted iff five conditions hold; a refusal touches at most the nonce set, and a nonce is recorded exactly when node, expiry and sequence pass |
| `Runner.LocalRunner.Verify` | crates/domain/src/lib.rs:349-380 | The verdict and the new nonce set, the nonce recorded before the signature is checked |
| `Runner.LocalRunner.SwitchActive` | crates/runner/src/lib.rs:232-247 | The new link state, and the trace of states passed through on the way |
| `Runner.LocalRunner.RollbackAfterApplyFailure` | crates/runner/src/lib.rs:269-299 | Back to the previous target and RolledBack, or no link and Failed; and the trace |
| `Runner.LocalRunner.Stage` | crates/runner/src/lib.rs:105-117 | Staged in tmp and tested; nothing else touched |
| `Runner.LocalRunner.Activate` | crates/runner/src/lib.rs:149-155 | The old release removed, the staged one moved in, the link switched; and the trace |
| `Runner.LocalRunner.ApplyDeployment` | crates/runner/src/lib.rs:99-201 | New disk and status as specified, through staging, test, move, switch, reload and health; and the trace |
| `Runner.LocalRunner.RollbackDeployment` | crates/runner/src/lib.rs:203-230 | New disk and status as specified |
| `Runner.LocalRunner.Apply` | crates/runner/src/lib.rs:64-97 | New state, acceptance and report as specified |
| `Outbound.PolledIsNotStale` | crates/runner/src/lib.rs:325-334 | A polled command is never refused for its sequence |
| `Outbound.GenuineQueueIsDrained` | crates/runner/src/lib.rs:325-334 | Every queue of genuine commands is worked off completely and in order, poll i accepting command i, whatever the commands' outcomes |
| `Outbound.QueueRunsDry` | crates/runner/src/lib.rs:325-334 | Whatever is in the queue, genuine or not, as many polls as it has commands empty it |
| `Outbound.OutboundRunner.PollApplyOnce` | crates/runner/src/lib.rs:325-334 | One poll, at most one application; idle iff no newer command waits, and a result is submitted iff the command produced one |
| `CommandQueue.QueuesAgree` | crates/storage/src/lib.rs:2733-2785 | For every interleaving of increasing enqueues below 2^63 and polls, deque and table give the same answer to every poll |
| `CommandQueue.PollsAgree` | crates/storage/src/lib.rs:2753-2785 | One poll of a sorted table is one poll of the deque of its pending rows |
| `QueueOrder.QueuesAgreeIff` | crates/storage/src/lib.rs:2733-2785 | The exact condition: commands enqueued in an order get the same answers from deque and table, however polls that report less than a bound fall in between, if and only if there are none, or their sequences ascend and stay below 2^63 and so does what polls report |
| `QueueOrder.WidePollsDisagree` | crates/storage/src/lib.rs:2753-2785 | A poll that reports 2^63 or more empties the deque, while the table hands out a command |
| `QueueOrder.AgreementMeansOrder` | crates/storage/src/lib.rs:2753-2785 | Agreement on one run, enqueue all and poll with 0, already forces it, since the table hands out rising positive column values |
| `CommandQueue.AtMostOnce` | crates/storage/src/lib.rs:1205-1222 | Whatever is enqueued and polled, what was handed out and what still waits is contained, with multiplicity, in what was enqueued |
| `CommandQueue.NothingIsLost` | crates/storage/src/lib.rs:1190-1222 | With increasing enqueues and polls that report 0 or a delivered sequence: enqueued = handed out, then waiting |
| `CommandQueue.AtomicSendsLoseNothing` | crates/control-plane/src/lib.rs:119-124 | The same for any traffic in which numbering and enqueueing are one step |
| `QueueOrder.NothingIsLostIff` | crates/control-plane/src/lib.rs:1075-1094 | The exact condition: commands enqueued in an order are safe from being dropped unseen, however honest polls fall in between, if and only if their sequences ascend |
| `QueueOrder.DescentLosesACommand` | crates/storage/src/lib.rs:1213-1219 | At any descent, honestly reporting the larger sequence makes the store drop the smaller one |
| `CommandQueue.StaleCount` | crates/storage/src/lib.rs:1213-1219 | Longest stale prefix |
| `CommandQueue.LeaseIndex` | crates/storage/src/lib.rs:2765-2781 | The leasable row with the smallest sequence |
| `CommandQueue.RowsAreDistinct` | crates/storage/src/lib.rs:2733-2751 | Whatever is enqueued and polled, no column value has two rows, and exactly the enqueued ones have one |
| `CommandQueue.ColumnIsTwosComplement` | crates/storage/src/lib.rs:2733-2751 | The column value of a 64-bit sequence is the sequence or the sequence less 2^64, between -2^63 and 2^63 - 1 |
| `CommandQueue.RecordingCommandSource.NextCommand` | crates/runner/src/lib.rs:357-370 | The skip loop and pop equal the deque poll |
| `CommandQueue.RecordingCommandSource.SubmitResult` | crates/runner/src/lib.rs:372-376 | Appends the result |
| `Store.ReachableStoreIsCoherent` | crates/storage/src/lib.rs:802-974 | After any sequence of calls: plans, statuses and pointers have equal keys; snapshots and samples are of planned ids; status is pending or the snapshot's; previous id and artifact both or neither; blobs hash to their keys; audit and outbox match entry by entry |
| `Store.HistoryIsAppendOnly` | crates/storage/src/lib.rs:1454-1478 | Between any two points of a run, audit, outbox and health only grow and recorded responses are final |
| `Audit.AuditTellsTheState` | crates/storage/src/lib.rs:802-1052 | After any calls: every audit entry names the store's tenant and the right actor and is about something in the tables; every artifact, plan and snapshot has its entry; there are as many health samples as reported results and health checks |
| `Audit.CompileLeaves` | crates/control-plane/src/lib.rs:1036-1062 | After a compile the bytes can be read back under the artifact, and the deployment is planned for the node, profile and artifact and pending |
| `Audit.CompileSends` | crates/control-plane/src/lib.rs:1075-1094 | One apply command, numbered next for the node and good for sixty seconds, joins the end of that node's queue; every other queue stays |
| `Audit.CompileLogs` | crates/control-plane/src/lib.rs:1036-1062 | A compile logs the artifact, by the control plane, and then the plan, by the administrator |
| `Audit.CompileAnswers` | crates/control-plane/src/lib.rs:1095-1104 | The answer names dep- and 12 digits of the digest, the digest, and two more audit and outbox entries than before |
| `Audit.ResultLeaves` | crates/storage/src/lib.rs:945-974 | A planned id gets the reported status and a snapshot with the plan's node, profile and artifact and the reported digest; any other changes nothing |
| `Audit.PreviousIsTheLatest` | crates/storage/src/lib.rs:861-876 | With a running clock, the deployment a plan points back to is the one planned last among those that count as succeeded on the node |
| `Audit.PlansAreTheLast` | crates/storage/src/lib.rs:855-902 | A plan record is that of the last call that planned its id |
| `Store.MemoryStore.Record` | crates/storage/src/lib.rs:1454-1478 | One audit and one matching outbox entry |
| `Store.MemoryStore.RecordArtifactBlob` | crates/storage/src/lib.rs:802-843 | Accepted iff the bytes hash to the digest; new state |
| `Store.MemoryStore.FindPrevious` | crates/storage/src/lib.rs:861-876 | A succeeded deployment of the node that no other succeeded one was planned after, if any |
| `Store.MemoryStore.RecordDeploymentPlan` | crates/storage/src/lib.rs:855-902 | Plan, pending status and pointer to the previous deployment; new state |
| `Store.MemoryStore.RecordDeploymentResult` | crates/storage/src/lib.rs:945-974 | Accepted iff planned; status, snapshot and health sample; new state |
| `Store.MemoryStore.RecordDeploymentHealthCheck` | crates/storage/src/lib.rs:1027-1052 | Accepted iff planned for that node; new state |
| `Store.MemoryStore.EnqueueRunnerCommand` | crates/storage/src/lib.rs:1190-1203 | Appended to the node's queue |
| `Store.MemoryStore.NextRunnerCommand` | crates/storage/src/lib.rs:1205-1222 | The skip loop and pop equal the deque poll |
| `Store.MemoryStore.RecordIdempotencyResponse` | crates/storage/src/lib.rs:930-943 | The first response recorded under a key wins |
| `ControlPlane.Handlers.NextSequence` | crates/control-plane/src/lib.rs:119-124 | Per-node counter |
| `Service.ControlPlaneService.CompileDeployment` | crates/control-plane/src/lib.rs:997-1117 | From request to answer: a replayed key gets the recorded answer; missing profile, missing node and ill-formed profile are told apart and change nothing; otherwise the rendered translation of the whole profile is stored, planned, queued and remembered |
| `ControlPlane.Handlers.DeployCompiled` | crates/control-plane/src/lib.rs:1036-1117 | What is done with the compiled bytes: new state and response |
| `ControlPlane.Handlers.EnqueueRollbackCommand` | crates/control-plane/src/lib.rs:1221-1285 | Outcome and new state |
| `Service.ControlPlaneService.SubmitRunnerResult` | crates/control-plane/src/lib.rs:1145-1171 | Recorded and counted iff the runner token is right, the node known, its key readable, the result signed under it for this node, and the deployment planned |
| `Service.VerifyResult` | crates/domain/src/lib.rs:424-442 | A result verifies iff it names the node and is signed under the key; which error otherwise |
| `Service.OwnKeyCounts` | crates/control-plane/src/lib.rs:1596-1604 | A node that registered a key has its results checked under that key only; the shared key is for nodes without one |
| `Service.OnlyOneSecret` | crates/control-plane/src/lib.rs:1029-1030 | A VLESS inbound over REALITY is well formed for the handler iff the core version supports it and its key reference is the one the handler knows |
| `ControlPlane.Handlers.RecordResult` | crates/control-plane/src/lib.rs:1165-1169 | Recorded and counted iff planned |
| `ControlPlane.Handlers.AdvanceDeploymentRollout` | crates/control-plane/src/lib.rs:1436-1476 | Outcome and new state |
| `Idempotency.ReplayReturnsFirstAnswer` | crates/control-plane/src/lib.rs:1002-1012 | Over any run of non-overlapping calls, a later request with an answered key gets the first answer, changes nothing and issues nothing |
| `Idempotency.CompileCount` | crates/control-plane/src/lib.rs:997-1117 | Apply commands issued in a run number exactly the keyless successes plus the remembered keys |
| `Idempotency.CompileBound` | crates/control-plane/src/lib.rs:997-1117 | Hence at most the keyless successes plus the distinct keys |
| `Idempotency.IssuedIsEnqueued` | crates/control-plane/src/lib.rs:1075-1094 | The issued commands are exactly what joins the node's queue |
| `Idempotency.PollsTakeCommands` | crates/storage/src/lib.rs:1205-1222 | Polls between compiles take commands off one queue and leave answers and sequences |
| `OverlappingCompiles.CommandsPerKey` | crates/control-plane/src/lib.rs:997-1117 | With lookup, work and recording as separate steps, interleaved arbitrarily: the commands issued under a key number the handlers that looked it up before the first answer was recorded and did the work |
| `OverlappingCompiles.OneCommandIff` | crates/control-plane/src/lib.rs:997-1117 | A condition on lookups alone: over every interleaving in which only given handlers look an unanswered key up before the first answer is recorded, it costs at most one command if and only if there is at most one such handler |
| `OverlappingCompiles.OverlapIssuesTwo` | crates/control-plane/src/lib.rs:1002-1012 | For any two handlers, from any state in which the key is unanswered, the run that issues two is there |
| `OverlappingCompiles.WorkIssuesOne` | crates/control-plane/src/lib.rs:1075-1094 | The work step adds exactly one command to the node's queue |
| `OverlappingCompiles.HandlersEnd` | crates/control-plane/src/lib.rs:1105-1117 | A handler that has answered or refused does nothing more, whatever else happens to the store in between |
| `Usage.RollupsConserve` | crates/storage/src/lib.rs:1070-1094 | Any selection of rollups adds up to the raw samples behind it, each counted once per selected bucket |
| `Usage.EachRollupIsItsSamples` | crates/storage/src/lib.rs:1070-1094 | Each rollup is the sum of its credential's samples in its bucket |
| `Usage.DirectionsAreKept` | crates/storage/src/lib.rs:1070-1094 | A rollup's two sides are the uplink and the downlink sums of its samples |
| `Usage.WrapIsTwosComplement` | crates/storage/src/lib.rs:1070-1094 | A wrapped sum is between -2^63 and 2^63 - 1 and differs from the exact one by a multiple of 2^64 |
| `Usage.RollupExists` | crates/storage/src/lib.rs:1070-1094 | A rollup exists iff some sample falls in its bucket |
| `Usage.DayIsSumOfHours` | crates/storage/src/lib.rs:3711-3717 | A day's rollup is the sum of its hour rollups |
| `Usage.MonthIsSumOfDays` | crates/storage/src/lib.rs:3711-3717 | A month's rollup is the sum of its day rollups |
| `Usage.RollupsWrap` | crates/storage/src/lib.rs:1070-1094 | Whatever is reported, 64-bit rollups are the exact sums modulo 2^64 |
| `Usage.NoOverflow` | crates/storage/src/lib.rs:1070-1094 | Non-negative samples and totals that fit: 64-bit rollups are exact |
| `Usage.PrefixesFit` | crates/storage/src/lib.rs:1070-1094 | Nor does any earlier state of such a run overflow |
| `Usage.DecisionIsRawTotal` | crates/storage/src/lib.rs:1138-1155 | Whatever was reported, used_bytes as the 64-bit code computes it is the raw total U modulo 2^64, so U itself whenever U fits |
| `Usage.FilterIsThreeTimesRaw` | crates/storage/src/lib.rs:3568-3579 | The subscription filter's total is 3 U modulo 2^64, so 3 U itself whenever that fits |
| `Quota.DecisionAndFilterDisagreeIff` | crates/storage/src/lib.rs:3549-3579 | For all samples and quotas, the 64-bit decision and filter disagree iff one of U and 3 U, both modulo 2^64, is over the quota and the other is not; for U >= 0 with 3 U in 64 bits, iff 3 U > quota >= U |
| `Quota.ThirdOfQuotaIff` | crates/storage/src/lib.rs:3549-3579 | For 0 <= U in 64 bits, the condition 3 U > quota >= U is right for every quota if and only if 3 U still fits 64 bits |
| `Quota.DeniedButAdvertised` | crates/storage/src/lib.rs:3568-3579 | An input past that bound: with 2^62 bytes used, decision and filter agree at a quota of 2^62, and one byte below a denied credential is advertised |
| `Quota.AllowedButSuppressed` | crates/storage/src/lib.rs:3568-3579 | Within the bound, any usage above zero is allowed and yet suppressed under a quota of its own size |
| `Quota.DeniedStaysDenied` | crates/storage/src/lib.rs:1138-1155 | Through any run of non-negative samples and quota changes that do not raise it, a denied credential stays denied as long as its usage fits 64 bits |
| `Quota.DeniedCarriesIff` | crates/storage/src/lib.rs:1138-1155 | The exact condition: whoever is denied with some samples, under whatever quota, is denied with others if and only if the total modulo 2^64 has not fallen |
| `Quota.OverflowAllowsAgain` | crates/storage/src/lib.rs:1138-1155 | An input for which it has: under a quota of 0, 2^62 bytes are denied and twice as many are allowed |
| `Usage.UsageStore.RecordUsageSample` | crates/storage/src/lib.rs:1070-1094 | The three-bucket loop keeps rollups an index of the samples; unknown nodes are refused |
| `Usage.UsageStore.SumRollups` | crates/storage/src/lib.rs:1144-1154 | The sum, whatever order the map yields |
| `Usage.UsageStore.CredentialQuotaDecision` | crates/storage/src/lib.rs:1138-1155 | used_bytes is the raw total modulo 2^64; allowed iff within quota; unknown without a quota |
| `Usage.UsageStore.QuotaExceededInMemory` | crates/storage/src/lib.rs:3568-3579 | Exceeded iff three times the raw total modulo 2^64 is over quota |
| `Calendar.MonthStartIsFirstDay` | crates/storage/src/lib.rs:3701-3709 | The month bucket starts at midnight of the first of the sample's month, negative timestamps included |
| `Calendar.SameMonthBucket` | crates/storage/src/lib.rs:3701-3709 | Two instants share a month bucket iff they are in the same month of the same year |
| `Calendar.StartsAreNested` | crates/storage/src/lib.rs:3689-3717 | Starts are idempotent, nested and never after their sample |
| `Calendar.DatesIncrease` | crates/storage/src/lib.rs:3701-3709 | The calendar counted day by day is strictly increasing |
| `Calendar.DatesAreGregorian` | crates/storage/src/lib.rs:3701-3709 | For every day number, negative ones included, the date counted out is the Gregorian one: the closed form over 400-, 100- and 4-year cycles gives the number back |
| `Calendar.StartsInSeconds` | crates/storage/src/lib.rs:3689-3699 | Hour and day starts are multiples of 3600 and 86400, less than that before the sample |
| `Calendar.MonthInSeconds` | crates/storage/src/lib.rs:3701-3709 | The month start is 86400 times the Gregorian day number of the first of the month of the sample |
| `XrayCompiler.CompileProfile` | crates/compiler-xray/src/lib.rs:68-233 | Succeeds iff the whole profile is well formed; outputs translate the inbounds one to one and in order; otherwise the error is that of the first inbound at fault, inline keys first |
| `XrayCompiler.CompileVless` | crates/compiler-xray/src/lib.rs:77-135 | Emitted iff well formed; clients, address and stream as the inbound says; which error |
| `XrayCompiler.CompileTrojan` | crates/compiler-xray/src/lib.rs:178-208 | The same |
| `XrayCompiler.CompileShadowsocks` | crates/compiler-xray/src/lib.rs:138-177 | Emitted iff some credential matches, all share a cipher and the first one's key fits; takes cipher and password of the least matching position |
| `XrayCompiler.PushClients` | crates/compiler-xray/src/lib.rs:77-90 | The nested loops push exactly the chosen credentials |
| `XrayCompiler.SelectShadowsocks` | crates/compiler-xray/src/lib.rs:139-164 | The loops with early exit keep the first and detect mixed ciphers |
| `XrayCompiler.ApplyStreamSecurity` | crates/compiler-xray/src/lib.rs:235-253 | TLS or nothing; REALITY is refused |
| `XrayCompiler.PskCheck` | crates/compiler-xray/src/lib.rs:255-274 | The 2022 check passes iff the password is the canonical base64 (section 4 of RFC 4648) of as many bytes as the cipher takes, and the error names that number |
| `XrayCompiler.KeyLengths` | crates/compiler-xray/src/lib.rs:255-274 | In numbers: 16 bytes for 2022-blake3-aes-128-gcm, 32 for 2022-blake3-aes-256-gcm, and no condition for any other cipher |
| `XrayCompiler.ShadowsocksKeyDecides` | crates/compiler-xray/src/lib.rs:138-177 | A Shadowsocks inbound with one cipher and a first matching credential compiles iff that credential's password is a key of that length |
| `XrayCompiler.ClientsCarryNames` | crates/compiler-xray/src/lib.rs:77-90 | Every client entry is the secret and the display name of an active credential of the kind in a referenced group |
| `XrayCompiler.StreamsSay` | crates/compiler-xray/src/lib.rs:105-135 | REALITY forwards to port 443 of its server name, for that name, under the referenced key and with the short ids; TLS has its server name; without security there is no stream |
| `XrayCompiler.TranslationIsUnique` | crates/compiler-xray/src/lib.rs:68-233 | The specification of an output leaves no choice |
| `XrayCompiler.FaultIsUnique` | crates/compiler-xray/src/lib.rs:68-233 | Nor does that of the error |
| `Selection.ChosenExactly` | crates/compiler-xray/src/lib.rs:77-90 | The chosen list is every matching pair of reference and credential, once each, in lexicographic order |
| `Selection.ChosenCount` | crates/compiler-xray/src/lib.rs:77-90 | A credential is chosen as often as it is listed times as often as its group is referenced |
| `Selection.ChosenIff` | crates/compiler-xray/src/lib.rs:77-90 | Chosen iff listed, active, of the kind, and its group referenced |
| `Selection.FirstIsLeast` | crates/compiler-xray/src/lib.rs:139-164 | The first chosen is the one at the least matching position |
| `Base64.DecodeIff` | crates/compiler-xray/src/lib.rs:261-266 | A text decodes to some bytes iff it is their canonical encoding |
| `Base64.GroupIsOneNumber` | crates/compiler-xray/src/lib.rs:261-266 | Three bytes are one 24-bit number cut into four of six bits, the highest first |
| `Base64.StandardExamples` | crates/compiler-xray/src/lib.rs:261-266 | The encodings of f, fo, foo and foobar in section 10 of RFC 4648 |
| `Version.VersionGate` | crates/compiler-xray/src/lib.rs:276-281 | For all a, b, c below 2^64 the printed version passes iff (a, b) is at least (1, 8) |
| `Version.JunkIsSkipped` | crates/compiler-xray/src/lib.rs:276-281 | A non-numeric minor is skipped and the patch number stands in |
| `Version.GateDecides` | crates/compiler-xray/src/lib.rs:276-281 | Any text passes iff its first component that is a number is at least 2, or is 1 and the next that is a number is at least 8 |
| `Version.ParsesUpTo64Bits` | crates/compiler-xray/src/lib.rs:276-281 | A printed number counts iff it is at most 2^64 - 1 |
| `Version.SplitUndoesJoin` | crates/compiler-xray/src/lib.rs:276-281 | Splitting undoes joining for any separator-free parts |
| `Profile.Validate` | crates/domain/src/lib.rs:213-223 | Finds the first inbound with an inline key, if there is one |
| `Profile.InlineIgnoresCase` | crates/domain/src/lib.rs:111-117 | The inline check does not depend on letter case |
| `Profile.InlineMeans` | crates/domain/src/lib.rs:111-117 | Inline iff the text starts with inline: in any case, or holds private_key in any case and takes 49 bytes or more |
| `SubscriptionText.LengthInBytes` | crates/domain/src/lib.rs:111-117 | That length is the number of UTF-8 bytes |
| `Subscription.AdvertisedIsServed` | crates/storage/src/lib.rs:1286-1328 | Same store state, one referenced group: every advertised VLESS or Trojan link is let in by every compiled inbound of its protocol |
| `Subscription.AdvertisedShadowsocks` | crates/compiler-xray/src/lib.rs:138-177 | For Shadowsocks the cipher agrees, and the link is let in iff its password is that of the first active Shadowsocks credential |
| `Subscription.ServedIff` | crates/compiler-xray/src/lib.rs:77-90 | A VLESS or Trojan secret is let in iff an active credential of a referenced group has it |
| `Subscription.SuppressionDoesNotRevoke` | crates/storage/src/lib.rs:1313-1326 | A credential over quota or expired leaves the subscription but is still let in |
| `Subscription.LinksLeadToFirstInbound` | crates/subscription/src/lib.rs:25-55 | Port and server name of links are the first compiled inbound's; the declared security is the offered one iff VLESS over REALITY, Trojan over TLS, or Shadowsocks |
| `Subscription.SecurityIsKeptIff` | crates/compiler-xray/src/lib.rs:138-177 | The stream follows the profile iff not Shadowsocks or no security is asked for |
| `Subscription.AdvertisedIff` | crates/subscription/src/lib.rs:25-55 | A link is advertised iff an active, unsuppressed credential gives it |
| `Subscription.ShownIff` | crates/storage/src/lib.rs:1313-1326 | A credential is in the view iff it is listed, not over its quota as the filter counts, and now is before its expiry if it has one |
| `Subscription.ExpiryIsFinal` | crates/storage/src/lib.rs:3581-3590 | Once hidden by its expiry a credential is hidden at every later time, and until then the passing of time hides nothing |
| `Subscription.LinksSay` | crates/subscription/src/lib.rs:25-55 | An advertised link carries the secret, cipher and display name of an active credential, and the server name of the first inbound, or the host where it has none |
| `Subscription.ProfileStore.DeployedProfileForSubscription` | crates/storage/src/lib.rs:1286-1328 | Which error, or the view through some registered node |
| `Subscription.GenerateSubscription` | crates/subscription/src/lib.rs:25-55 | The loop emits the links of the active credentials in order |
| `SubscriptionText.GenerateSubscriptionArtifact` | crates/subscription/src/lib.rs:20-69 | The body is the base64 of the UTF-8 of the lines, and the artifact's digest is the body's |
| `LinkReading.ClientsReadTheLinksIff` | crates/subscription/src/lib.rs:20-69 | A client that undoes base64 and UTF-8, splits at line breaks and takes each line apart as section 3 of RFC 3986 says reads back the very links put in, field by field, if and only if all of them are clean and plain |
| `LinkReading.LinkReadsIff` | crates/subscription/src/lib.rs:27-53 | A line gives its link back iff nothing in it ends a part early: no #, ? or / in secret or host, no @ in the secret, no # or & in the server name; for Shadowsocks no colon in the cipher and no / in the standard base64 of cipher and password |
| `LinkReading.LinksDeclare` | crates/subscription/src/lib.rs:27-53 | What a client finds in the query of a plain link: REALITY with flow, encryption, fingerprint and type for VLESS, TLS for Trojan, nothing for Shadowsocks |
| `LinkReading.ReadsOne` | crates/subscription/src/lib.rs:27-53 | A client cannot read two links out of one line |
| `LinkReading.OneLineTwoLinks` | crates/subscription/src/lib.rs:37-43 | Two different links can be one line: an @ can belong to the secret or to the host |
| `LinkReading.PadUpUndoes` | crates/subscription/src/lib.rs:44-47 | Padding up undoes encoding without padding |
| `SubscriptionText.ClientsReadTheLinesIff` | crates/subscription/src/lib.rs:56-57 | The lines themselves are read back if and only if no raw field of any link holds a line break |
| `SubscriptionText.LineIff` | crates/subscription/src/lib.rs:27-53 | A link is one line iff host, and for VLESS and Trojan secret and server name, hold no line break; encoded fields never matter |
| `SubscriptionText.NamesSurvive` | crates/subscription/src/lib.rs:29-30 | Percent decoding undoes percent encoding, whatever the name holds |
| `SubscriptionText.OnlyLettersAndDigits` | crates/subscription/src/lib.rs:29-30 | Encoded names consist of ASCII letters, digits and percent signs, and hold an escape iff the name holds anything but letters and digits |
| `SubscriptionText.Utf8Injective` | crates/subscription/src/lib.rs:56-57 | Different texts have different UTF-8 bytes |
| `Registration.StoreIsAllLives` | crates/storage/src/lib.rs:555-629 | With ids not shared between token strings, the store runs every token through absent, fresh, spent, whatever else is called |
| `Registration.RegistersIff` | crates/storage/src/lib.rs:555-596 | A registration is granted iff its token was created before and nothing has tried it since; unknown iff never created |
| `Registration.RegistersOnce` | crates/storage/src/lib.rs:555-596 | No token registers two nodes |
| `Registration.UsedStaysUsed` | crates/control-plane/src/lib.rs:137-148 | A used token stays used by the same node for ever, re-creation of the default token included |
| `Registration.OneRecordPerToken` | crates/storage/src/lib.rs:605-629 | At most one record per token string, unconditionally |
| `Registration.NodesAreTheLastRegistered` | crates/storage/src/lib.rs:574-583 | A node is known iff some call registered it, with the record that the last such call brought |
| `Registration.LogTellsTheState` | crates/storage/src/lib.rs:555-629 | After any calls: an id was logged as issued iff it has a record, a node as registered iff it is known, and every used record has its registration and its use next to each other in the log |
| `Registration.CreateSparesOthersIff` | crates/storage/src/lib.rs:610-620 | The exact condition per call: creating a token leaves every other token as it was if and only if it creates nothing or its id is free |
| `Registration.SharedIdsReviveAToken` | crates/storage/src/lib.rs:618-620 | What an overwritten record leads to: a run in which one token registers twice |
| `Registration.IssueIsTrueIff` | crates/control-plane/src/lib.rs:431-460 | The handler under its two locks, with any calls in between: the record it answers with is the one stored if and only if none of them created the token |
| `Registration.RegistrationStore.CreateNodeRegistrationToken` | crates/storage/src/lib.rs:605-629 | Nothing if the token string exists; otherwise a new unused record |
| `Registration.RegistrationStore.RegisterNodeWithRegistrationToken` | crates/storage/src/lib.rs:555-596 | Answer and new state |
| `Registration.RegistrationStore.RegisterNode` | crates/control-plane/src/lib.rs:377-412 | The default token first; a refusal leaves nothing else behind |
| `Registration.RegistrationStore.IssueRegistrationToken` | crates/control-plane/src/lib.rs:431-460 | Refused iff the token string is there |
| `SubscriptionTokens.VerifiesIff` | crates/storage/src/lib.rs:1330-1405 | With fresh ids and no digest collision, a token verifies for a profile iff it was issued since its last rotation, that rotation included |
| `SubscriptionTokens.RotationLeavesOne` | crates/storage/src/lib.rs:1354-1385 | A rotation leaves its own token as the only active one |
| `SubscriptionTokens.RequiredIff` | crates/storage/src/lib.rs:1407-1416 | Tokens are required iff one was ever issued for the profile |
| `SubscriptionTokens.RequiredStays` | crates/storage/src/lib.rs:1407-1416 | Once required, required in every later state |
| `SubscriptionTokens.StoreIsItsCalls` | crates/storage/src/lib.rs:1330-1385 | Every stored record is that of one granted call, active iff no later rotation |
| `SubscriptionTokens.SubscriptionTokenStore.IssueSubscriptionToken` | crates/storage/src/lib.rs:1330-1352 | Granted iff the profile exists; new state |
| `SubscriptionTokens.SubscriptionTokenStore.RotateSubscriptionToken` | crates/storage/src/lib.rs:1354-1385 | The loop retires the profile's active tokens and adds one; new state |
| `SubscriptionTokens.SubscriptionTokenStore.VerifySubscriptionToken` | crates/storage/src/lib.rs:1387-1405 | Found iff an active record of the profile has the token's digest |
| `SubscriptionTokens.SubscriptionTokenStore.SubscriptionTokenRequired` | crates/storage/src/lib.rs:1407-1416 | Whether the profile has an active token |

## Left out

- HTTP routing, JSON extraction, headers, status codes, the runner's HTTP client and both `main.rs` files: plumbing.
- `apps/web` and the shell scripts: user interface and smoke checks.
- `PostgresStore` except its two queue operations: SQL whose behaviour lives in the database. In particular re-planning keeps the old status there, and "previous" is ordered by finishing time. Each queue operation is taken as atomic; concurrent pollers inside the database are not modelled.
- File-system errors in the runner, and the running xray process: claims are about the `active` link. Neither way back re-runs the reload command.
- Control-plane restart: sequence counters start again from zero, so protocol claims are per lifetime.
- The in-memory `consume_node_registration_token`, which has no check that the token is unused; no handler calls it.
- The sub-second part of timestamps and `Utc::now()` being read once per credential in the subscription view.
- Audit events other than those of artifacts, deployments and registration tokens.
- Heartbeats, inventories, labels, capability listing, access logs and diagnosis: records that are written and listed.
- Rendering of the compiled configuration to JSON text: a function parameter of the compile handler.
- Artifact ids, media types and the other constant fields of artifact records and plans.
- Registration.RegistrationStore.IssueRegistrationToken: lookup and creation, two locks in the source, are one call here; IssueIsTrueIff says what the answer is worth when calls come between, and StoreIsAllLives covers every interleaving of them.
- Percent decoding, by a client, of fields that the source does not encode: secret, host and server name are read literally.
