# taskgate: what the brokers promise, proved

taskgate is a task queue with leases, retries, task dependencies, replay chains and periodic quotas. Several backends
share one set of semantics. This project models the reference broker, the Redis scripts, the SQL transactions under row
locks and the scheduler's claim loop, and proves what they keep. `dafny verify dfyconfig.toml` checks all of it.

How the parts fit together:

- `Model`, `Deps`, `Cascade`, `Spec` - records, the decision functions, the order-free result of a dependency cascade
  (the least set of tasks that must be canceled, everyone else counted down or woken), and one step relation per call.
- `MemoryBroker` - the reference broker as a class with real loops; each method is proved to take its step. `CascadeLoop`
  is the work-list invariant, `Wiring` the reverse index, `Reaping` the order-independence of lease reaping and the
  repair pass.
- `Graph`, `Invariants`, `Reachable`, `Runs` - invariants of every reachable state and safety over whole runs: any
  sequence of calls with any clock values.
- `Promises`, `Plain` - what each call does to the task it is about and to all others, field by field in plain statuses,
  times and counts, without the functions the steps are built from. All backends take these steps.
- `RedisIndex`, `RedisBroker`, `Queries`, `Encodings` - the scripts over hashes and redundant structures: every script
  takes the same steps and keeps every structure exact. `Agreement` shows that the step relation leaves nothing open but
  the claim choice and the parent named in LastError, so two brokers given the same calls stay in agreement.
- `Drivers` - the same of the objects: any program of calls on a broker object is a run, and one program on both objects
  ends in agreement.
- `SqlProtocol`, `SqlInvariant`, `SqlReaper`, `SqlCommits`, `SqlHistory` - transactions as interleaved statements with row
  locks, committed reads and aborts anywhere, ReapExpired with its several cascades and unlocked reads included: every
  commit acts on the rows committed at that moment, so no wake-up is lost. `SqlRuns` turns every history into a run of
  the reference broker, whose reap may here overlook cancel marks; `SqlSafety` states what follows for all histories:
  fencing, claim bounds, chains, and exactly when a cancel is lost. `SqlLostCancel` is a history in which one is. `WithTx`
  is the retry loop.
- `Quota`, `ClaimLoops`, `Timing` - the hard quota and slot conservation for any number of claim loops, and lease timing.

Where the code does not do what its comments say, the model follows the code and a lemma gives the exact condition:

- `heartbeat.lua` takes a per-queue lease override as it is, also one of zero or less; the Go side and the reference
  fall back to the default (`RedisBroker.HeartbeatAgrees`, `RedisBroker.HeartbeatTtlDiffers`). Such an override reaches
  the script only through `Broker.Init`: the client rejects negative values and replaces zero (taskgate.go:167-171).
- `withTx` can reach its last return: with MaxTxRetry 1, a lock-wait error is judged retryable and the loop ends
  (`WithTx.Runner.WithTx`). The error is still returned.
- The SQL Ack writes the result column even without a result; the reference and the script keep the stored one
  (`SqlProtocol.ActsOwn`, `SqlProtocol.AckDropsResult`). It is the reference's Ack with an empty result
  (`SqlProtocol.ActsStored`).
- The SQL reaper can lose an accepted cancel: it looks for cancel marks in its first select only and clears the mark of
  every row its second select finds. A mark that is set between the two selects is lost, and so is an older one whose row
  another transaction held during the first select and released by the second. Exactly then, below the cap on lost
  leases, and at a requeue, a cancel that stands is lost (`SqlSafety.CancelExact`, `SqlSafety.ReapCancel`);
  `SqlLostCancel.CancelLostFromStart` is such a history. Fencing, claim bounds and chains hold in it as in any other.
- The quota is hard with any clock whose reservations are tried no more than two periods before the latest window tried
  (`ClaimLoops.HardQuota`). Further back a spent window has been dropped and is granted again
  (`Quota.ClockBackForgets`); a run keeps the limit exactly when no reservation does that (`ClaimLoops.ReserveExact`,
  `ClaimLoops.QuotaExactly`). Window starts truncate toward zero (`Quota.WindowSpan`).
- The claim script reports 0 both for "nothing queued" and for a task due at 0; its next-due answer is right exactly
  when the earliest one is not due at 0 (`RedisBroker.Store.Claim`).

Times are integers in milliseconds (seconds for quota windows), 0 being the zero time. Clock readings, generated ids and
tokens, and the order in which maps and sets are walked are inputs or arbitrary choices. Generated ids are non-empty and
unused, tokens fresh. LastError texts are kept as structure, not wording. FailKind has its three legal values.

## Model

| member | source | states |
|---|---|---|
| `Deps.DecideOnSubmit` | deps.go:36-61 | Canceled exactly when the policy is fail-fast and some parent is dead at its first mention, naming the first such parent; otherwise blocked on the number of distinct unfinished parents, pending when that number is zero |
| `Deps.MentionsFromTable` | deps.go:36-61 | On statuses read from one table, the parents counted are exactly the distinct unfinished ones, however often each is mentioned |
| `Deps.DistinctElems` | redisbroker/enqueue.go:74-84 | De-duplication keeps every parent once |
| `Deps.DistinctFirst` | redisbroker/enqueue.go:74-84 | De-duplication keeps which unknown and which dead parent comes first |
| `Deps.FirstFound` | deps.go:36-61 | The first unknown or dead parent is the one with none of its kind before it, which is the one a loop over the parents stops at |
| `Wiring.DecisionFromTable` | deps.go:36-61 | The decision equals the order-free initial status of a task over the current records |
| `Wiring.IndexAfterEnqueue` | memorybroker/broker.go:244-252 | Registering a new task under its distinct parents keeps `children` the exact inverse of DependsOn |
| `Wiring.IdOrder` | memorybroker/broker.go:275-276 | The order on ids is that of the first difference, a prefix coming first |
| `Cascade.DoomedReachable` | memorybroker/broker.go:367-401 | The tasks a cascade cancels are exactly those a path of waiting fail-fast tasks links to a dead root; a completed root cancels nobody |
| `Cascade.DoomedClosed` | memorybroker/broker.go:391-396 | Nobody who must be canceled is missed: a waiting fail-fast task with a dead or canceled parent is in the set |
| `CascadeLoop.ProgressVisit` | memorybroker/broker.go:374-398 | One visited child moves the loop invariant forward, and a canceled child joins the work list |
| `CascadeLoop.ProgressFinish` | memorybroker/broker.go:367-401 | A drained work list leaves exactly the order-free outcome: the least doomed set canceled, everyone else counted down or woken |
| `MemoryBroker.Broker.CheckLease` | memorybroker/broker.go:147-156 | Passes exactly the holder of the running task's token; unknown tasks and lost leases are told apart |
| `MemoryBroker.Failure` | memorybroker/broker.go:448-491 | Counters, error text and run time of a failure; it ends the task exactly when retries are spent, the throttle cap is reached or retries are skipped |
| `MemoryBroker.Submission` | memorybroker/broker.go:220-238 | The stored record of a submission in the decided status |
| `MemoryBroker.Execution` | memorybroker/broker.go:648-666 | The stored record of a replay: clean counters, no dependencies, pointing to its target |
| `MemoryBroker.Broker.Visit` | memorybroker/broker.go:375-397 | One child of one final parent, as the decision table says |
| `MemoryBroker.Broker.PropagateFinal` | memorybroker/broker.go:367-401 | The loop terminates and produces the exact cascade outcome, in whatever order children are listed |
| `MemoryBroker.Broker.Ack` | memorybroker/broker.go:404-432 | Refused without the lease and then nothing changes; otherwise completed with its dependents settled in the same step |
| `MemoryBroker.Broker.Fail` | memorybroker/broker.go:435-495 | Business, throttled and skip failures: retrying, or failed with the cascade |
| `MemoryBroker.Broker.Cancel` | memorybroker/broker.go:499-531 | Unknown, final, running (mark only) and queued or blocked (canceled with the cascade) |
| `MemoryBroker.Broker.FinishCanceled` | memorybroker/broker.go:534-560 | The holder ends a task as canceled, with the cascade |
| `MemoryBroker.Broker.Requeue` | memorybroker/broker.go:564-585 | The holder returns a task to pending; no counter and no run time moves |
| `MemoryBroker.Broker.Heartbeat` | memorybroker/broker.go:589-604 | The holder's lease is renewed even when the answer is that the task was canceled |
| `MemoryBroker.Broker.PickReady` | memorybroker/broker.go:265-281 | A ready task with no ready task before it in (RunAt, id) order, none only if nothing is ready |
| `MemoryBroker.Broker.TryDequeue` | memorybroker/broker.go:325-362 | One round of Dequeue: a task due in one of the queues such that none has an earlier run time and, among equal ones, none has an id that is a prefix of its id or smaller at the first difference, is claimed with a fresh token and lease; or nothing is due |
| `MemoryBroker.Broker.Enqueue` | memorybroker/broker.go:171-261 | The checks in their order, the first unknown parent being the one reported; then a record in its initial status that names the first dead parent, its key's chain and its parents' children lists |
| `MemoryBroker.Broker.Replay` | memorybroker/broker.go:610-678 | The checks in their order, then a clean pending execution linked to its target, which is marked replayed |
| `MemoryBroker.Broker.ReapOne` | memorybroker/broker.go:785-822 | One expired lease: requested cancel takes effect, failure at the cap, or back to pending |
| `MemoryBroker.Broker.ReapLeases` | memorybroker/broker.go:785-822 | Over the map in any order: the same result as reaping all expired leases at once and one cascade from all that ended |
| `MemoryBroker.Broker.RepairOne` | memorybroker/broker.go:826-856 | From any state, in plain statuses: canceled with the cascade when a dead parent counts, pending when no parent is open, else blocked with the number of open ones; and a sound task stays sound |
| `MemoryBroker.Broker.ReapExpired` | memorybroker/broker.go:773-868 | From any state each expired lease is reaped and then each blocked task repaired, once, in some order; from a consistent state the repair changes nothing; from counts at or above the truth every task still blocked is exact afterwards |
| `MemoryBroker.Broker.Init` | memorybroker/broker.go:61-80 | Zero and negative options become 60 seconds, 3 lost leases and 100 throttles; positive ones stay |
| `Graph.GraphKept` | memorybroker/broker.go:367-401 | Ending tasks and settling their dependents keeps every blocked count equal to its unfinished parents |
| `Graph.GraphAdded` | memorybroker/broker.go:205-253 | A new task in its initial status keeps it too |
| `Graph.RunningKept` | redisbroker/lua/common.lua:153-157 | A cascade never ends or extends a running lease |
| `Invariants.StepGraph` | memorybroker/broker.go:171-868 | Every call keeps the dependency invariant |
| `Invariants.StepEvolves` | memorybroker/broker.go:171-868 | In one call a record stays, has that call's own effect, or is a blocked task touched by a cascade; nothing else |
| `Invariants.ReapEffects` | memorybroker/broker.go:785-822 | A reap changes exactly the expired leases and blocked dependents |
| `Invariants.ReapCallEffects` | internal/sqlbroker/query.go:123-291 | The same of a reap that overlooks cancel marks: a lease taken is reaped as the reaper saw it |
| `Reachable.StepInv` | memorybroker/broker.go:171-868 | Every call keeps dependencies, leases, cancel marks and replay chains consistent |
| `Runs.InvAt` | memorybroker/broker.go:171-868 | So they are consistent in every state of every run |
| `Runs.FinalFrozen` | memorybroker/broker.go:610-678 | No later call changes anything about a final execution, nor the identity fields of any task |
| `Runs.TransitionsLegal` | taskgate.go:43-53 | Every status change in every run is an edge of the transition table |
| `Runs.NeverAhead` | memorybroker/broker.go:385-390 | In every reachable state a blocked count is its unfinished parents and at least 1; a task not canceled and not blocked has only final parents, all completed under fail-fast |
| `Runs.RunningIffToken` | memorybroker/broker.go:139-143 | In every reachable state a task is running exactly when its token is non-empty |
| `Runs.HeldSince` | memorybroker/broker.go:345-359 | A lease comes from one claim with that token and has been held without a gap since |
| `Runs.TokenGone` | memorybroker/broker.go:139-156 | Once a claim has lost its lease nobody ever holds its token again |
| `Runs.Fenced` | memorybroker/broker.go:404-604 | From then on all five token operations with it fail and change nothing |
| `Runs.ResultFromHolder` | memorybroker/broker.go:404-432 | A stored result was written by an Ack from the holder of the lease at that moment |
| `Runs.CancelExactly` | memorybroker/broker.go:499-531 | In one call a cancel that stands is lost if and only if the holder requeues the task or a reap returns the lease below the cap without having seen the mark |
| `Runs.CancelNeverLost` | memorybroker/broker.go:499-531 | After an accepted cancel, until a requeue or such a reap, the task is final, or running or retrying with the mark set, through failures, claims and lost leases; the reference and the scripts never make such a reap (Drivers.RunMemory, Drivers.RunRedis) |
| `Runs.ClaimsConserved` | memorybroker/broker.go:448-491 | Claims equal attempts plus throttles plus lost leases plus requeues plus free ends plus one while running, and at most one claim ends free, with the task |
| `Runs.ClaimsBounded` | memorybroker/broker.go:448-491 | Claims without requeues never exceed MaxRetry + ThrottledMax + LeaseLostMax - 1 |
| `Runs.ChainsNeverFork` | memorybroker/broker.go:610-678 | A key's chain lists exactly its executions, each replaying the one before; all but the last are final and replayed |
| `Runs.ReplayedOnce` | memorybroker/broker.go:641-643 | No execution, keyed or not, is ever replayed twice |
| `Runs.NeverDeadlocked` | memorybroker/broker.go:205-222 | Up the line from every blocked task, past blocked tasks only, there is an ancestor that is queued or running |
| `Promises.OutcomePlainly` | deps.go:83-102 | What one cascade makes of every task, from any state and in plain statuses: who ignores dead parents, or hears of completed ones, counts them down and wakes at zero; any other that hears of a dead one is canceled, naming it, or marked while it runs; all else stays |
| `Promises.IgnorersSpared` | deps.go:91-101 | No cascade ends a task that ignores failed parents |
| `Promises.Bystanders` | memorybroker/broker.go:367-401 | In a consistent state a call changes, of the tasks it is not about, only blocked ones: canceled naming a parent that failed or was canceled, unless they ignore such parents; pending exactly when no parent is open; else blocked with the number of open parents |
| `Promises.CanceledForParent` | deps.go:91-101 | In every run a blocked task canceled by another call does not ignore dead parents and names one it has, with that parent's own status |
| `Promises.StatusLaw` | taskgate.go:43-53 | In every run, the status changes there are, edge by edge |
| `Promises.AckLaw` | memorybroker/broker.go:404-432 | Ok exactly for the lease holder, and then every field of the task; refused without effect, with the right error, otherwise |
| `Promises.FailLaw` | memorybroker/broker.go:435-495 | Every field after each kind of failure: attempts against MaxRetry, throttles against the cap, skips, the text stored, and the time it runs again |
| `Promises.CancelLaw` | memorybroker/broker.go:499-531 | Every field after a cancel of a waiting or a running task, and the two refusals |
| `Promises.FinishCanceledLaw` | memorybroker/broker.go:534-560 | Every field after the holder ends a canceled task |
| `Promises.RequeueLaw` | memorybroker/broker.go:564-585 | Every field after a requeue: counters, run time and texts as they were |
| `Promises.HeartbeatLaw` | memorybroker/broker.go:589-604 | The lease ends one time to live later, a positive override of the queue before the default; the answer tells of a cancel |
| `Promises.ClaimLaw` | memorybroker/broker.go:325-362 | A task that is pending or retrying, due and in one of the queues; every field after its claim; none only when there is no such task |
| `Promises.ReapLaw` | memorybroker/broker.go:785-822 | Every field of a task whose lease had run out: canceled on request, failed at the cap on lost leases, or pending with one more |
| `Promises.ReapCountLaw` | memorybroker/broker.go:785-822 | The answer is the number of leases that had run out |
| `Promises.EnqueueLaw` | memorybroker/broker.go:171-261 | Accepted exactly when the key is free, the id new and every parent known; then each stored field: a run time given is kept and a missing one is now, the status follows the parents' statuses, a canceled one names the first dead parent |
| `Promises.EnqueueRefusal` | memorybroker/broker.go:171-219 | A refusal changes nothing and answers the first missing condition, the first unknown parent among them |
| `Promises.ReplayAccepts` | memorybroker/broker.go:610-647 | Ok exactly when one of id and key is given and names a stored task that has ended, that no task replays yet, and that has not completed unless that is allowed; else nothing changes |
| `Promises.ReplayRefusal` | memorybroker/broker.go:610-647 | Which error each missing condition gives |
| `Promises.ReplayLaw` | memorybroker/broker.go:648-678 | Each field of the new execution; the target and all other tasks as they were |
| `Promises.RunAtSource` | memorybroker/broker.go:230-232 | In every run a task's run time is the one its submission, its replay or the last failure it survived gave it |
| `Promises.NeverEarly` | memorybroker/broker.go:265-281 | In every run no claim takes a task before the time it was submitted with, or before the time its last failure set |
| `Reaping.OutcomeBoth` | memorybroker/broker.go:785-822 | Two cascades in a row are one cascade from both roots |
| `Reaping.ReapOneKeeps` | memorybroker/broker.go:785-822 | Each lease visited extends the order-free result, and overcounted states stay overcounted |
| `Reaping.NothingToRepair` | memorybroker/broker.go:826-856 | In a consistent state the repair decision is the status and count the task already has |
| `Reaping.RepairDecision` | memorybroker/broker.go:826-856 | Acting on the decision makes the task sound without hurting others |
| `Agreement.OutcomeAgree` | redisbroker/lua/common.lua:125-170 | Cascades from states that differ only in named reasons end in such states, in whatever order each visits; from equal records only canceled tasks can differ, in the parent they name |
| `Agreement.StepAgree` | redisbroker/lua/finish.lua:14-128 | The same call on agreeing states gives agreeing states and equal answers |
| `Agreement.RunsAgree` | memorybroker/broker.go:171-868 | Two brokers given the same calls and claim choices agree after every call and have given equal answers |
| `Drivers.CallMemory` | memorybroker/broker.go:171-868 | Any call on a live broker in a consistent state takes its step and leaves a consistent state |
| `Drivers.CallRedis` | redisbroker/lifecycle.go:13-138 | The same of the Redis broker, for names the client lets through and positive lease times |
| `Drivers.RunMemory` | memorybroker/broker.go:171-868 | Any program of calls on a new broker is a run in which no reap overlooks a cancel mark, so everything proved of runs holds of the object |
| `Drivers.RunRedis` | redisbroker/lifecycle.go:13-138 | The same of the Redis broker on an empty store |
| `Drivers.RunBoth` | memorybroker/broker.go:171-868 | One program on both brokers: with the same claim choices, and the same clock reading for a missing retry time, their final states agree and all their answers are equal |
| `Encodings.ValidateId` | redisbroker/enqueue.go:16-23 | Accepts exactly the names without control characters |
| `Encodings.ValidateBusinessKey` | redisbroker/enqueue.go:27-40 | Accepts the empty key, and keys of at most 512 bytes in UTF-8 without control characters |
| `Encodings.ByteLenBounds` | redisbroker/enqueue.go:31-33 | The length that is limited is at least one and at most four per character, one exactly for ASCII |
| `Encodings.ParentsRoundTrip` | redisbroker/lua/reap.lua:71-78 | Splitting the joined parents field gives the parents back |
| `Encodings.FieldRoundTrip` | redisbroker/query.go:155-160 | Splitting a stats field at its last colon gives type and status back, colons in the type included |
| `Encodings.FieldInjective` | redisbroker/lua/common.lua:44-49 | No two type and status pairs share a counter |
| `Encodings.KeyExistsRoundTrip` | redisbroker/broker.go:235-262 | The key, the tail and its status are recovered from the script error, behind any text that does not contain the marker |
| `RedisIndex.RestShift` | redisbroker/lua/common.lua:44-49 | One status move keeps inflight, status sets and counters in step with the hashes |
| `RedisIndex.RemoveDetaches` | redisbroker/lua/common.lua:53-56 | Removal leaves the task in no list and no zset and disturbs no other task |
| `RedisIndex.EnterList` | redisbroker/lua/common.lua:59-65 | A task put on its list is in its queue exactly once |
| `RedisIndex.EnterZset` | redisbroker/lua/common.lua:59-65 | ... or in the zset, scored by run_at |
| `RedisIndex.LinkNew` | redisbroker/lua/enqueue.lua:78-99 | A new hash keeps children sets, parents fields and key lists exact |
| `RedisBroker.Store.CheckLease` | redisbroker/lua/common.lua:74-84 | The same lease check over the hashes |
| `RedisBroker.Store.CountFailure` | redisbroker/lua/finish.lua:71-104 | The same failure record over the hashes |
| `RedisBroker.Store.MoveStatus` | redisbroker/lua/common.lua:44-49 | Status sets and counters that agreed with the hashes before a status write agree with them again after it |
| `RedisBroker.Store.RemoveFromQueue` | redisbroker/lua/common.lua:53-56 | The task is in no list and no zset, and every other queued task is still in its queue exactly once |
| `RedisBroker.Store.PlaceInQueue` | redisbroker/lua/common.lua:59-65 | A queued task in no structure is in its own queue exactly once, as every other is: in the zset when its run time lies ahead, at the end of the list otherwise |
| `RedisBroker.Store.ForceCancel` | redisbroker/lua/common.lua:96-106 | Field by field the reference's canceled record, out of every queue and of inflight, all indexes exact |
| `RedisBroker.Store.Visit` | redisbroker/lua/common.lua:134-166 | One child of a final parent, with all indexes exact |
| `RedisBroker.Store.Propagate` | redisbroker/lua/common.lua:125-170 | The same exact cascade outcome over the hashes, with all indexes exact |
| `RedisBroker.Store.Ack` | redisbroker/lua/finish.lua:52-64 | The reference step, with all indexes exact |
| `RedisBroker.Store.Fail` | redisbroker/lua/finish.lua:66-106 | The reference step, with all indexes exact; a missing retry time is the client's earlier clock reading |
| `RedisBroker.Store.Cancel` | redisbroker/lua/finish.lua:21-43 | The reference step, with all indexes exact |
| `RedisBroker.Store.FinishCanceled` | redisbroker/lua/finish.lua:108-115 | The reference step, with all indexes exact |
| `RedisBroker.Store.Requeue` | redisbroker/lua/finish.lua:117-126 | The reference step, with all indexes exact |
| `RedisBroker.Store.Heartbeat` | redisbroker/lua/heartbeat.lua:11-28 | Lease renewed in hash and inflight by the queue's override as it is, or the default without one |
| `RedisBroker.HeartbeatAgrees` | redisbroker/lua/heartbeat.lua:17-23 | That is the reference step if and only if the lease check fails or the queue's override, if any, is positive |
| `RedisBroker.HeartbeatTtlDiffers` | redisbroker/lua/heartbeat.lua:17-23 | An override of zero is taken as is by the script and replaced by the default in the reference |
| `RedisBroker.Store.MoveDue` | redisbroker/lua/claim.lua:16-25 | Afterwards the zsets of the given queues hold only future tasks, and no task was lost or doubled |
| `RedisBroker.Store.PopReady` | redisbroker/lua/claim.lua:32-63 | Claims the first task of the list that is due; the branches that drop stale entries never run |
| `RedisBroker.Store.TakeFirst` | redisbroker/lua/claim.lua:32-63 | Claims a ready task; without one every list is empty and every zset holds future tasks only |
| `RedisBroker.Store.Claim` | redisbroker/lua/claim.lua:16-75 | The reference step: a ready task is claimed, and "none" exactly when nothing is ready; then the next-due value is the least run_at, or 0 for nothing queued, if and only if that least run_at is not 0 itself, which takes a clock before 0 |
| `RedisBroker.Store.Decide` | redisbroker/lua/enqueue.lua:55-73 | The inline decision equals the reference decision over distinct parents |
| `RedisBroker.Store.Dedup` | redisbroker/enqueue.go:74-84 | The distinct parents in order of first mention |
| `RedisBroker.Store.EnqueueHash` | redisbroker/lua/enqueue.lua:77-87 | The hash written field by field is the reference's new record |
| `RedisBroker.Store.Enqueue` | redisbroker/lua/enqueue.lua:15-111 | The reference step for every submission with clean names, the first unknown parent reported; refusal of the others; all structures exact |
| `RedisBroker.Store.ReplayHash` | redisbroker/lua/replay.lua:57-65 | The hash written field by field is the reference's new execution |
| `RedisBroker.Store.Replay` | redisbroker/lua/replay.lua:12-76 | The reference step for a clean business key, refusal without effect of any other (redisbroker/replay.go:24-28), all structures exact |
| `RedisBroker.Store.LoseLease` | redisbroker/lua/reap.lua:35-53 | One lost lease field by field as the reference counts it |
| `RedisBroker.Store.ReapOne` | redisbroker/lua/reap.lua:19-59 | One expired lease as the reference does it |
| `RedisBroker.Store.ReapLeases` | redisbroker/lua/reap.lua:14-60 | The order-free reap of all expired leases; no inflight entry is ever stale |
| `RedisBroker.Store.RepairOne` | redisbroker/lua/reap.lua:66-115 | The same repair in plain statuses, from the parents field, with every structure exact |
| `RedisBroker.Store.ReapExpired` | redisbroker/lua/reap.lua:14-117 | From any state the same leases and repairs in some order; the reference reap from consistent states, self-stabilisation from overcounted ones |
| `Queries.QueueLen` | redisbroker/query.go:129-140 | List length plus zset size is the number of pending and retrying tasks of the queue |
| `Queries.Counts` | redisbroker/query.go:145-176 | Never fails on a consistent store, and is the matrix a full scan gives |
| `Queries.ReadStats` | redisbroker/query.go:145-176 | Fails exactly on a field without a colon; otherwise each cell is its counter and only non-zero cells appear |
| `Queries.ScanQueueLen` | memorybroker/broker.go:740-751 | The number of pending and retrying tasks of the queue |
| `Queries.ScanCounts` | memorybroker/broker.go:754-767 | The matrix of group sizes by type and status |
| `Queries.CountsUnique` | redisbroker/query.go:145-176 | That matrix is unique, so both brokers answer alike |
| `SqlProtocol.ActsOwn` | internal/sqlbroker/lifecycle.go:13-295 | The columns each UPDATE writes are the reference's record, for an Ack if and only if there is a result or none was stored |
| `SqlProtocol.ActsStored` | internal/sqlbroker/lifecycle.go:13-295 | In every case they are the reference's record of the call that stores the same: an Ack without a result stores an empty one |
| `SqlProtocol.FailColumns` | internal/sqlbroker/lifecycle.go:58-137 | The failure columns are the reference's record, in all three kinds |
| `SqlProtocol.AckDropsResult` | internal/sqlbroker/lifecycle.go:29-37 | An Ack without a result erases a stored one, which the reference keeps |
| `SqlProtocol.InsertColumns` | internal/sqlbroker/enqueue.go:85-117 | The inserted row is the reference's new record |
| `SqlProtocol.ReplayColumns` | internal/sqlbroker/replay.go:64-88 | The inserted execution is the reference's |
| `SqlProtocol.ReapAgrees` | internal/sqlbroker/query.go:134-210 | The reaper writes the reference's record if and only if its second select meets no cancel mark |
| `SqlProtocol.ReapOverlooks` | internal/sqlbroker/query.go:134-210 | In either case it writes the reference's record of the row without the mark |
| `SqlInvariant.InsertKept` | internal/sqlbroker/enqueue.go:54-118 | A row inserted under the locks of all its parents is in the initial status the committed rows prescribe |
| `SqlInvariant.CascadeVisit` | internal/sqlbroker/propagate.go:41-91 | A locked child visited inside the transaction moves the cascade invariant forward |
| `SqlReaper.StagesGraph` | internal/sqlbroker/query.go:128-281 | After every lease the reaper ends, with several cascades in one transaction, its view has exact counts |
| `SqlReaper.MendDecision` | internal/sqlbroker/query.go:213-280 | The repair pass, reading parents it has not locked, decides what the blocked row already says: it repairs nothing |
| `SqlCommits.ProgressStable` | internal/sqlbroker/propagate.go:14-19 | What other transactions commit meanwhile leaves a cascade in flight right: no new child under a locked parent, no change to a row that has heard |
| `SqlCommits.CommitSerial` | internal/sqlbroker/lifecycle.go:13-54 | A finished transaction turns the rows committed at that moment into the result of its call |
| `SqlCommits.SerialGraph` | internal/sqlbroker/lifecycle.go:13-54 | A commit keeps every blocked count exact |
| `SqlHistory.CascadeEnds` | internal/sqlbroker/propagate.go:20-96 | Ending a parent takes the locks of all its children: seen from an unlocked child no parent has ended |
| `SqlHistory.MendStable` | internal/sqlbroker/query.go:232-249 | So parent statuses read under the child's lock alone stay right until the transaction ends |
| `SqlHistory.CommitElsewhere` | internal/sqlbroker/propagate.go:11-19 | A commit touches no row, edge, chain head or replay mark that another open transaction relies on |
| `SqlHistory.StatementKept` | internal/sqlbroker/propagate.go:20-96 | Each statement of an open transaction keeps what it relies on |
| `SqlHistory.CommitInv` | internal/sqlbroker/propagate.go:20-96 | A commit keeps the whole invariant, also for the transactions still open |
| `SqlHistory.HistoryInv` | internal/sqlbroker/enqueue.go:54-139 | Locks exclusive, edges exact, counts exact at every moment of every interleaving with aborts anywhere |
| `SqlHistory.NoLostWakeup` | internal/sqlbroker/enqueue.go:60-68 | At every moment each committed blocked task counts exactly its unfinished parents, at least one, enqueues, endings and reaps interleaved as they may |
| `SqlHistory.HistorySerial` | internal/sqlbroker/propagate.go:11-19 | Committed rows move only at commits, each as its one call moves them, a lossy Ack or reap included |
| `SqlHistory.StaleReadStrands` | internal/sqlbroker/enqueue.go:64-68 | A row inserted on a stale, unlocked read after its parents ended would be blocked with a count above zero and nobody left to report: what the lock is for |
| `SqlRuns.SweepIsReap` | internal/sqlbroker/query.go:123-291 | The reaper's transaction is the order-free reap of the leases it took, the locked ones skipped and the marks met by its second select overlooked |
| `SqlRuns.CommitIsStep` | internal/sqlbroker/replay.go:20-98 | Every commit is the reference broker's step for its call, chains and replay marks included, with free keys and unreplayed targets proved |
| `SqlRuns.HistorySteps` | internal/sqlbroker/lifecycle.go:13-295 | The commits of any history, in commit order, are steps of the reference broker that pass through the committed rows of every moment |
| `SqlRuns.HistoryIsRun` | internal/sqlbroker/lifecycle.go:13-295 | With tokens drawn once they are a run, so what holds of every run holds of every history |
| `SqlSafety.ReapCancel` | internal/sqlbroker/query.go:134-210 | A marked lease that is reaped keeps its cancel if and only if the first select took it or the lost lease ends the task anyway |
| `SqlSafety.CancelExact` | internal/sqlbroker/query.go:134-210 | At every commit of every history a cancel that stands is lost if and only if the commit requeues the task or is a reap whose second select met the mark below the cap on lost leases |
| `SqlSafety.CancelKept` | internal/sqlbroker/lifecycle.go:140-185 | A committed Cancel stands at every later moment until such a commit |
| `SqlSafety.ClaimsEarliest` | internal/sqlbroker/dequeue.go:77-85 | In every history a committed claim locked, among the rows due in its queues that nobody else held, the one with the earliest run time, the smaller id on a tie |
| `SqlSafety.CommitsFenced` | internal/sqlbroker/broker.go:389-395 | In every history a token whose claim lost its lease is never held again and no call with it commits |
| `SqlSafety.CommittedClaims` | internal/sqlbroker/lifecycle.go:58-137 | In every history committed claims are accounted for by counters, requeues, the running lease and at most one free end, and stay within the three caps |
| `SqlSafety.CommittedChains` | internal/sqlbroker/replay.go:20-98 | In every history a key has one chain head and an execution is replayed at most once, after it is final, under its own key |
| `SqlLostCancel.CancelLost` | internal/sqlbroker/query.go:134-210 | When x is the only row the reaper finds, unmarked, unlocked and below the cap: a Cancel that commits between the two selects succeeds and is lost, the row pending again without the mark |
| `SqlLostCancel.CancelLostFromStart` | internal/sqlbroker/query.go:134-210 | It is reachable: from the empty database, for every task without parents, submitted and claimed, whose lease runs out below the cap |
| `WithTx.Runner.WithTx` | internal/sqlbroker/broker.go:243-294 | At most MaxTxRetry attempts; another one follows exactly a failure of work or commit whose back-off is not interrupted: a retryable one while attempts are left, a lock wait only on the first, any other never; no error exactly when the last committed, and then its writes and notifications only |
| `WithTx.Runner.constructor` | internal/sqlbroker/broker.go:50-63 | A limit given stays, zero or less becomes five |
| `WithTx.NeverPastTheLimit` | internal/sqlbroker/broker.go:273-284 | With a limit of two or more the last attempt is never retried |
| `WithTx.FallThroughReachable` | internal/sqlbroker/broker.go:273-284 | With a limit of one a lock-wait failure leaves through the end of the loop |
| `Quota.WindowMonotone` | memorybroker/broker.go:912 | Windows do not go back while the clock does not |
| `Quota.WindowSpan` | memorybroker/broker.go:912 | A second lies in [w, w + period) of its window w if and only if it is not before 0 or is a window's edge; before 0 it lies in (w - period, w] |
| `Quota.WindowPeriodic` | memorybroker/broker.go:912 | Windows start at multiples of the period |
| `Quota.WindowStart` | memorybroker/broker.go:912 | From second 0 on the readings of one period, and no others, share its window |
| `Quota.Purge` | memorybroker/broker.go:918-923 | Exactly the windows older than two periods are dropped |
| `Quota.Gate.Reserve` | memorybroker/broker.go:905-929 | Unavailable without effect; otherwise granted exactly while the window of this reading, a multiple of the period that contains it, counts fewer than the limit, and counted there; windows more than two periods older go, other windows and keys stay |
| `Quota.Gate.Release` | memorybroker/broker.go:932-943 | One reservation less in its own window if that is still counted above zero, nothing else |
| `Quota.ClockBackForgets` | memorybroker/broker.go:918-923 | After a reservation in another window, a window is granted if and only if it was not spent or lies more than two periods before that one and was dropped |
| `ClaimLoops.NextInv` | scheduler.go:320-406 | Every step of every loop keeps table, log and slots consistent, a reservation when it is tried within two periods of the latest window tried |
| `ClaimLoops.HardQuota` | scheduler.go:320-406 | In every run, with a clock that may go back, the starts charged to a window never exceed the limit as long as no reservation is tried more than two periods before the latest window tried: the condition a caller can check |
| `ClaimLoops.HardQuotaPerPeriod` | scheduler.go:320-406 | By the clock: under the same condition at most the limit of starts have a reservation made at a reading within any one period, counted from second 0 |
| `ClaimLoops.ForwardReaches` | scheduler.go:320-406 | A clock that does not go back meets that condition |
| `ClaimLoops.ReserveExact` | memorybroker/broker.go:905-929 | One reservation keeps the limit if and only if its window is still in the table or not spent; otherwise it is granted and the window is one over the limit |
| `ClaimLoops.QuotaExactly` | scheduler.go:320-406 | With any clock a run keeps the limit throughout if and only if every reservation the table does not refuse finds room in its window; this reads the log of all reservations, HardQuota only the clock |
| `ClaimLoops.StartPaid` | scheduler.go:378-405 | Every start of a loop with a quota uses exactly one reservation held by that loop |
| `ClaimLoops.FateSealed` | scheduler.go:382-404 | A reservation is used, released or lost once, for good, and never changes hands |
| `ClaimLoops.GivenBack` | scheduler.go:382-394 | A dequeue that came to nothing gives its reservation back, one charge less in log and table; a failed release charges it for good |
| `ClaimLoops.SlotsConserved` | scheduler.go:320-406 | Slots held are the running handlers plus at most one per loop, none for the loop after it exits |
| `ClaimLoops.NothingHeldAfterExit` | scheduler.go:382-394 | An exited loop holds no reservation |
| `Timing.LeaseSince` | memorybroker/broker.go:589-604 | After a renewal the lease never ends earlier, and without another it ends exactly one time to live later |
| `Timing.RenewedNeverReaped` | scheduler.go:429-450 | Renewals no further apart than the time to live: no reap in between takes the task |
| `Timing.ReapedWhenDue` | memorybroker/broker.go:785-788 | A task last renewed at t is taken by a reap exactly when that reap comes after t plus the time to live |
| `Timing.ReapedInTime` | scheduler.go:410-421 | With undelayed ticks its claim is over within one reaper interval after that |
| `Timing.ReapInterval` | scheduler.go:240-251 | The interval is half the least time to live |

## Left out

- Notification delivery, condition variables, wake channels and the waiting in Dequeue: calls are atomic steps in any order.
- Get, List and paging: plain reads.
- The Redis type index and type set, key prefixes and key names: they are written and read back without decisions.
- The initialised and closed flags of the Redis and SQL brokers: the same guard as in the reference broker.
- JSON text of depends_on and the decoding of hash fields into tasks: library encoding; the parents field, stats fields and key-exists errors are modelled.
- mapLuaErr beyond the key-exists branch: one literal per code.
- RedisBroker.Store.Decide: the enqueue script's existence check and its decision loop are two passes; the decision pass shares this method with the repair script, which checks existence in the same pass.
- Payload and result bytes beyond absent or present; an empty value counts as absent.
- The `done` column of SQL dependency edges: written with the modelled edges and never read.
- A SQL claim under SKIP LOCKED may answer none while a ready row is locked: a transaction that refuses or finds no row commits nothing and is an abort here, its answer is not modelled.
- The uq_replay_of index: it is never needed, `SqlRuns.CommitIsStep` proves from the row lock that a target is replayed once.
- A commit that reports an error is taken to have written nothing; MySQL's repeatable-read snapshots and its quota path are not part of this model.
- RPS token buckets, the Redis semaphore and the Redis and SQL quota scripts: waiting for a token either succeeds or ends the loop.
- The sqlite broker: the reference semantics with serial transactions.
- Handler execution, the table of running handlers and shutdown marks, backoff jitter, configuration parsing, submit options and Wait polling.
- 64-bit ranges of counters and times: integers are unbounded.
