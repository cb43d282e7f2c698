# TaoNode Guardian: control logic, modelled and proved in Dafny

TaoNode Guardian is a Kubernetes operator that keeps a fleet of Bittensor nodes in sync. This project
models the parts of it that decide something over time and proves what they keep: the recovery state
machine of a fleet over one shared limiter, the ClickHouse circuit breaker, the writers that share a
node's status, the batch writer, snapshot retention, volume growth, the validator Lease, StatefulSet
convergence, the AI call limiter and the argument hash.

Code that updates state in place is a class or a method, proved against a specification function; the
theorems about whole runs are lemmas about those functions. A run is a sequence of events, each one
atomic step, with times that never decrease. Every outcome of a Kubernetes, HTTP or ClickHouse call is
an input of the event, so the theorems hold for all of them.

| file | source | what it is about |
|---|---|---|
| `RateLimiter.dfy` | `internal/controller/rate_limiter.go` | recovery limiter, sliding-window bounds |
| `SyncState.dfy` | `internal/controller/sync_state_machine.go` | one reconcile's phase decision and recovery |
| `Fleet.dfy` | the same, with `internal/controller/taonode_controller.go` | many nodes interleaving over one limiter |
| `FleetProbes.dfy` | the same | what one reconcile stores, from the raw fields of probe, policy and status |
| `FleetAccounting.dfy`, `FleetPhases.dfy`, `FleetTimeouts.dfy`, `FleetLimits.dfy` | the same | restart accounting, the phase relation, timeouts, slots and sliding windows over every run |
| `CircuitBreaker.dfy` | `internal/analytics/circuit_breaker.go` | method-atomic breaker |
| `BreakerSteps.dfy` | the same | one program counter per thread over the atomics and the lock |
| `BreakerRaces.dfy`, `BreakerAtRest.dfy` | the same | four laws that overlapping calls break, and exactly when |
| `BreakerClients.dfy` | the same, with `cmd/main.go` | clients that record only admitted calls: when an opened breaker can close again |
| `StatusWriters.dfy` | `internal/controller/taonode_controller.go` | reconcile and AI writes under optimistic concurrency |
| `BatchWriter.dfy` | `internal/analytics/batch_writer.go`, `internal/analytics/flush.go` | bounded channel, flush loop, drain |
| `SnapshotRetention.dfy` | `internal/controller/snapshot_manager.go` | in-place sort, pruning that may stop midway |
| `PvcGrowth.dfy` | `internal/controller/storage_manager.go` | capped 64-bit growth |
| `ValidatorLease.dfy` | `internal/controller/validator_guard.go` | Lease create, renew, expiry, takeover |
| `Workload.dfy` | `internal/controller/workload_manager.go` | create, update, orphan-delete and re-create |
| `AdvisorLimiter.dfy` | `internal/ai/advisor.go` | lazy fixed-window limiter |
| `ArgsHash.dfy` | `internal/controller/statefulset_builder.go` | canonical form of the argument vector |
| `Basics.dfy` | | clock, fixed-width integers, `Option` |

## Where the code and its comments differ

The model follows the code.

- Recovering never goes back to Syncing, although the comment at `internal/controller/sync_state_machine.go:45` says so; Syncing is assigned only from Pending. `EdgesExact` gives the real relation.
- A critical anomaly is a score of at least 0.7 (line 76), not above 0.7 (line 43).
- A score of at least 0.7 does not turn a Synced node into a Degraded one (line 43 says so): it asks for a recovery at once, and if the limiter refuses, the node stays stored as Synced. `SyncedIff`, `DegradedIff`, `RefusedAlarmStaysSynced`.
- The recovery timeout is measured from the stored reconcile time, not from the start of the recovery. Only a reconcile that gets past its probe and is saved sets that time, so such reconciles postpone the timeout forever, while a reconcile whose probe fails does not: `TimesOutIffHeartbeatIsLate`, `FailedProbeDoesNotPostpone`.
- The restart count is never reset, so a node that once spent its budget is never recovered again, even after it was Synced: `SpentBudgetIsFinal`.
- A breaker with `halfOpenProbes` 3, as shipped, lets one probe in and then waits for three successes. Open and at rest it can close again iff two other calls are in flight, or one is and two successes of an earlier half-open episode are left over, which only the next prober resets, after its swap: `ShippedBreakerRecoversIff`, `ShippedBreakerNeverRecovers`, `LeftoversHappen`, `HalfOpenTrap`.
- The validator guard promises one validator per subnet, but the Lease name contains the node's own name, so different nodes never contend and nobody is ever cordoned: `LeaseIsSharedIffSameNode`, `NobodyIsEverCordoned`, `TwoNodesHoldAtOnce`. (The comment calls the Lease `-validator-lock`; the code uses `-validator-singleton`.)
- The AI writer cannot change any other status field, but five of its writes in a row can make a reconcile lose its save (`FiveAdvisoriesCostASave`), and a reconcile can overwrite a fresh report (`ReportOverwritten`, and exactly when: `ReportReplacedIff`).
- Overlapping breaker calls break laws that whole calls keep: Closed only below the failure limit (`ClosedAtLimitIff`), not Closed only from the limit on (`OpenBelowLimitIff`), half-open only with the permit taken (`HalfOpenWithoutPermitIff`), no probe before the timeout (`EarlyIffOvertaken`), and a success count that starts at zero in each episode (`OpenCanCloseIff`).
- Rows pushed after the flush loop has returned stay in the channel, although the comment at `internal/analytics/batch_writer.go:111` says that none are dropped at shutdown: `NothingAfterExit`. And the drain calls flushFn with the context that was just cancelled: if flushFn refuses such a context, no row drained at shutdown is written: `DrainedRowsAreLost`.
- A volume of 100 TiB growing by 100% is asked to shrink, because the product overflows 64 bits: `GrowsIff`, `HundredTebibytesShrink`.

## Model
| member | source | states |
|---|---|---|
| RateLimiter.RecoveryRateLimiter.constructor | internal/controller/rate_limiter.go:67-76 | a new limiter holds no slot and remembers no recovery |
| RateLimiter.RecoveryRateLimiter.TryAcquire | internal/controller/rate_limiter.go:80-109 | evicts exactly the entries older than five minutes, grants iff the rest is below the cap and the node's cooldown is over, and then stamps both maps |
| RateLimiter.RecoveryRateLimiter.EvictStale | internal/controller/rate_limiter.go:84-89 | the eviction loop leaves exactly the entries of the last five minutes, in whatever order it visits them |
| RateLimiter.RecoveryRateLimiter.Release | internal/controller/rate_limiter.go:112-117 | frees the node's slot and keeps its last recovery time |
| RateLimiter.RecoveryRateLimiter.ActiveCount | internal/controller/rate_limiter.go:121-125 | counts the slots held, stale ones included |
| RateLimiter.AdmissionLaw | internal/controller/rate_limiter.go:80-117 | exactly which calls are granted, over every run: a call of node k is granted iff fewer than maxConcurrent nodes have a grant at most five minutes old that no Release followed, and no earlier grant to k is less than the cooldown ago |
| RateLimiter.ActiveWithinCap | internal/controller/rate_limiter.go:92-108 | in every run the active map never exceeds maxConcurrent |
| RateLimiter.GrantsStayActive | internal/controller/rate_limiter.go:84-117 | inside a window of at most five minutes a granted node keeps its slot until it is released |
| RateLimiter.WindowBound | internal/controller/rate_limiter.go:80-117 | in every interleaving by any nodes, the distinct nodes granted within any window of at most five minutes are at most maxConcurrent plus the Release calls in that window |
| RateLimiter.WindowIsSharp | internal/controller/rate_limiter.go:86 | one nanosecond more than five minutes and the bound fails |
| RateLimiter.CooldownSeparation | internal/controller/rate_limiter.go:97-106 | two grants to one node are at least cooldownPerNode apart, even with Releases in between |
| RateLimiter.NodeGrantBound | internal/controller/rate_limiter.go:97-106 | one node is granted at most window / cooldown + 1 times in any window |
| RateLimiter.TotalGrantBound | internal/controller/rate_limiter.go:80-117 | all grants in a window of at most five minutes are at most (maxConcurrent + releases) times (window / cooldown + 1) |
| SyncState.HasCriticalAnomaly | internal/controller/sync_state_machine.go:74-84 | the scan finds a score of at least 0.7 iff there is one |
| SyncState.EvaluateSyncState | internal/controller/sync_state_machine.go:47-161 | the new status, the error, the pod deletion and the limiter are those of the phase switch, fallthrough included |
| SyncState.ExecuteRecovery | internal/controller/sync_state_machine.go:166-197 | a refusal changes nothing; a grant spends one attempt, acts by strategy, and gives the slot back iff the attempt fails or ends in Failed |
| SyncState.RecoveryRestart | internal/controller/sync_state_machine.go:202-225 | a missing pod is no error, a failed lookup or delete is, and only a successful delete counts |
| SyncState.RecoverySnapshotRestore | internal/controller/snapshot_manager.go:212-239 | a failed lookup is ignored, a failed delete is an error, otherwise the node is Recovering |
| SyncState.Reconcile | internal/controller/taonode_controller.go:250-276 | an error of step 7 or a failed write leaves the stored status as it was, while the limiter keeps what it recorded |
| Fleet.UninterruptedReconcile | internal/controller/taonode_controller.go:250-276 | the three steps of a reconcile, taken without interruption, are one call of step 7 and the persist-or-lose write |
| Fleet.StepKeepsNodeOk | internal/controller/sync_state_machine.go:86-197 | every step of a reconcile keeps its in-flight status within the phase relation and the budget |
| Fleet.NodesOk | internal/controller/sync_state_machine.go:86-197 | the same along every run of the fleet |
| FleetAccounting.AttemptsAccounted | internal/controller/sync_state_machine.go:176-196 | granted attempts = growth of the stored count + attempts lost to errors or failed writes + the one in flight |
| FleetAccounting.DeletionsAccounted | internal/controller/taonode_controller.go:250-276 | recovery pod deletions are at most the growth of the stored count plus the failed status writes (plus one not saved yet) |
| FleetAccounting.BudgetKept | internal/controller/sync_state_machine.go:121-137 | over every run the stored count never decreases and never passes maxRestartAttempts |
| FleetAccounting.SpentBudgetIsFinal | internal/controller/sync_state_machine.go:121-137 | once the budget is spent no later event asks for a slot, starts a recovery or deletes a pod for that node |
| FleetPhases.PersistedPhasesFollowEdges | internal/controller/sync_state_machine.go:86-197 | every persisted change of phase lies in the relation |
| FleetPhases.EdgesExact | internal/controller/sync_state_machine.go:86-197 | a save turns phase p into q in some run that begins with nodes never saved, its times in order, iff (p, q) is in the relation |
| FleetPhases.PendingNeverReentered | internal/controller/sync_state_machine.go:87-91 | a node that left Pending never returns to it |
| FleetPhases.DegradedOnlyIfRefused | internal/controller/sync_state_machine.go:107-175 | a node about to save Degraded over another phase was refused a slot in the same reconcile |
| FleetTimeouts.TimesOutIffHeartbeatIsLate | internal/controller/sync_state_machine.go:139-149 | over every fleet run, with failed probes, early errors and lost writes: a node stored as Recovering, and neither in sync nor critical in any probe since, is stored as Failed iff some probed and saved reconcile began more than the timeout after the last one of its kind, and as Recovering otherwise |
| FleetTimeouts.FailedProbeDoesNotPostpone | internal/controller/taonode_controller.go:202-211 | a reconcile saved after a failed probe does not put off the timeout |
| FleetLimits.SlotKeptIffRecovering | internal/controller/sync_state_machine.go:170-195 | over every run, a slot granted at i is held after the attempt's end at j iff the attempt ends error-free in Recovering and no TryAcquire came more than five minutes after the grant; within five minutes the first part decides |
| FleetLimits.HeldUntilEvicted | internal/controller/rate_limiter.go:84-109 | while a node acts, its slot stays with its time of grant until a TryAcquire more than five minutes later evicts it |
| FleetLimits.LimiterFollowsTrace | internal/controller/sync_state_machine.go:170-195 | the limiter inside a fleet run is in the state its own trace of calls gives |
| FleetLimits.HerdBound | internal/controller/rate_limiter.go:27-37 | in every fleet run, within five minutes at most maxConcurrent distinct nodes start a recovery, plus one per aborted attempt |
| FleetLimits.RestartsAreSpaced | internal/controller/rate_limiter.go:97-103 | two recoveries of one node start at least the cooldown apart, in every fleet run |
| FleetLimits.StartsIff | internal/controller/sync_state_machine.go:166-195 | over every fleet run, a node that asks for a recovery starts it iff fewer than maxConcurrent nodes started one in the last five minutes that was not aborted, and it started none itself within the cooldown |
| FleetProbes.SyncedIff | internal/controller/sync_state_machine.go:55-103 | from the raw fields, for every stored phase but Unset and Pending: a reconcile stores Synced iff networkBlock - currentBlock is at most maxBlockLag, the node says in-sync, and no score is at least 0.7, or the node is stored as Synced and the limiter turned its alarm away |
| FleetProbes.RefusedAlarmStaysSynced | internal/controller/sync_state_machine.go:121-175 | such an alarm: a score of 0.9 half a minute after the last recovery leaves the node stored as Synced |
| FleetProbes.AsksIffNeedy | internal/controller/sync_state_machine.go:105-137 | a reconcile asks the limiter iff a score is at least 0.7, or the node is behind and stored as Synced or Degraded, and the budget is not spent; it starts a recovery iff the limiter agrees |
| FleetProbes.WritesUnlessAttemptFails | internal/controller/sync_state_machine.go:166-225 | the status is lost iff a started attempt fails (a failed delete, or a failed lookup outside snapshot-restore; a missing pod is no failure); otherwise the count grows by one iff an attempt was made; a pod is deleted iff the attempt finds one and is no cordon |
| FleetProbes.FirstProbeSyncs | internal/controller/sync_state_machine.go:87-91 | a node never probed is stored as Syncing whatever the probe says, and the limiter is not asked |
| FleetProbes.SyncingIff | internal/controller/sync_state_machine.go:151-159 | later Syncing is stored only over Syncing: behind without an alarm, or turned away |
| FleetProbes.DegradedIff | internal/controller/sync_state_machine.go:107-175 | Degraded is stored iff the limiter turned away a node that was Degraded, or Synced and has fallen behind; an alarm alone never degrades |
| FleetProbes.RecoveringIff | internal/controller/sync_state_machine.go:139-197 | Recovering is stored iff an attempt succeeded, or a recovering node was turned away or is behind, without an alarm, within its minutes |
| FleetProbes.FailedIff | internal/controller/sync_state_machine.go:121-149 | Failed is stored iff a needed recovery finds the budget spent or is a cordon, a recovering node is overdue by its minutes, or a failed node was turned away or is still behind |
| FleetProbes.TimeoutIsExactIff | internal/controller/sync_state_machine.go:141 | the timeout is the policy's minutes exactly for at most 153722867 of them; one more and the 64-bit product is negative |
| CircuitBreaker.Circuit.constructor | internal/analytics/circuit_breaker.go:68-76 | a new breaker is Closed with nothing on record |
| CircuitBreaker.Circuit.Allow | internal/analytics/circuit_breaker.go:85-117 | lets a call through iff Closed, or Open with the timeout over and the permit free, which makes it half-open |
| CircuitBreaker.Circuit.RecordSuccess | internal/analytics/circuit_breaker.go:122-146 | closes a half-open breaker at the last probe, resets the streak in Closed, does nothing in Open |
| CircuitBreaker.Circuit.RecordFailure | internal/analytics/circuit_breaker.go:151-163 | counts and stamps the failure; opens at the limit or at once when half-open |
| CircuitBreaker.Circuit.IsOpen | internal/analytics/circuit_breaker.go:166-168 | true iff the state is Open |
| CircuitBreaker.AlwaysConsistent | internal/analytics/circuit_breaker.go:85-163 | after every history of whole calls: Closed iff failures are below the limit, and the permit is taken iff half-open |
| CircuitBreaker.ClosedIffBelowLimit | internal/analytics/circuit_breaker.go:85-163 | that law holds over all histories iff maxFailures is at least 1 |
| CircuitBreaker.SuccessResets | internal/analytics/circuit_breaker.go:125-145 | a success that leaves the breaker Closed leaves no failure on record |
| CircuitBreaker.OpensAtTheLimit | internal/analytics/circuit_breaker.go:148-163 | from a clean Closed state and without successes, it is Closed iff fewer than maxFailures failures came in since |
| CircuitBreaker.NoEarlyProbe | internal/analytics/circuit_breaker.go:90-112 | while not Closed, no call passes before resetTimeout has gone by since every failure ever recorded |
| BreakerClients.ReachNeverRises | internal/analytics/circuit_breaker.go:85-163 | at every atomic step, while the breaker is neither Closed nor about to be, the success count it can still reach never rises, and deciding to close takes a reach of halfOpenProbes |
| BreakerClients.CanCloseIff | internal/analytics/circuit_breaker.go:111-138 | in every interleaving of clients that record only admitted calls: half-open and at rest, the breaker can be Closed again, reopened or not, iff a call is pending and successes plus pending calls reach halfOpenProbes |
| BreakerClients.OpenCanCloseIff | internal/analytics/circuit_breaker.go:100-138 | Open and at rest, it can iff the pending calls plus one probe reach halfOpenProbes, or a call is pending and the pending calls plus the successes left over from an earlier episode do |
| BreakerClients.HalfOpenTrap | internal/analytics/circuit_breaker.go:111-138 | half-open at rest with nothing pending, the breaker stays as it is and answers no call true, in every continuation |
| BreakerClients.NeverRecloses | internal/analytics/circuit_breaker.go:111-138 | below that reach the breaker is not Closed at any point of any interleaving, however often it reopens |
| BreakerClients.ShippedBreakerNeverRecovers | cmd/main.go:343-346 | with the shipped 3 probes, a breaker that rests Open with no call in flight, or with one and fewer than two successes left over, is not Closed at any point of any run |
| BreakerClients.ShippedBreakerRecoversIff | cmd/main.go:343-346 | resting Open, it can close again iff at least two calls are in flight, or one is and two successes are left over |
| BreakerClients.LeftoversHappen | internal/analytics/circuit_breaker.go:151-163 | the second case is reached by whole calls of legal clients: a failure reopens the breaker and leaves the successes counted |
| BreakerSteps.PermitNeverLeaks | internal/analytics/circuit_breaker.go:85-163 | in every interleaving of atomic operations the permit is taken only if half-open or while some thread still owes it |
| BreakerSteps.AllowAlone | internal/analytics/circuit_breaker.go:85-117 | Allow undisturbed by other threads is the method-atomic Allow |
| BreakerSteps.SuccessAlone | internal/analytics/circuit_breaker.go:122-146 | the same for RecordSuccess |
| BreakerSteps.FailureAlone | internal/analytics/circuit_breaker.go:151-163 | the same for RecordFailure |
| BreakerSteps.QuiescentOpenRecovers | internal/analytics/circuit_breaker.go:90-112 | in every reachable quiescent Open state the permit is free and the next Allow after the timeout is let through |
| BreakerSteps.SerialRunsAreAtomic | internal/analytics/circuit_breaker.go:85-163 | non-overlapping calls by any threads add up to the method-atomic breaker |
| BreakerSteps.EpisodeAdmitsOne | internal/analytics/circuit_breaker.go:100-112 | after a successful swap no Allow takes effect as true until the state is written again |
| BreakerSteps.AnswersMatchAdmissions | internal/analytics/circuit_breaker.go:85-117 | calls answered true, plus those about to be, are exactly the swaps and the Closed loads |
| BreakerRaces.DelayedStoreBreaksLimit | internal/analytics/circuit_breaker.go:122-163 | with overlapping calls the breaker can come to rest Closed at the failure limit |
| BreakerRaces.ClosedAtLimitIff | internal/analytics/circuit_breaker.go:122-163 | over every run, the breaker rests Closed at or above the limit iff a success that had decided to close stored Closed, as the last write, after a failure had found the count at the limit and stored Open, and nothing cleared the count since |
| BreakerRaces.LimitWasTripped | internal/analytics/circuit_breaker.go:151-158 | a count at the limit was found there by a failure, with no clearing since |
| BreakerRaces.StaleClockAdmitsEarly | internal/analytics/circuit_breaker.go:91-101 | with overlapping calls a probe can be let in right at a failure |
| BreakerRaces.SwapHasOwnCheck | internal/analytics/circuit_breaker.go:91-101 | every swap has exactly one clock check of its own, passed by the same thread within the same call |
| BreakerRaces.EarlyIffOvertaken | internal/analytics/circuit_breaker.go:91-101 | over every swap of every run, the probe comes early iff a failure was recorded between its own clock check and its swap, less than the timeout ago |
| BreakerAtRest.DelayedClearBreaksLimit | internal/analytics/circuit_breaker.go:140-145 | with overlapping calls the breaker can come to rest Open with no failure on record |
| BreakerAtRest.OpenBelowLimitIff | internal/analytics/circuit_breaker.go:122-163 | over every run, the breaker rests not Closed below the limit iff a clear with no trip after it and a failure's Open, with no Closed stored after it, crossed: the clearing success had found Closed before that Open was stored, or the clear, or a Closed, came between the failure's decision and its store |
| BreakerAtRest.DelayedFreeLosesPermit | internal/analytics/circuit_breaker.go:100-163 | with overlapping calls the breaker can come to rest half-open with the permit free |
| BreakerAtRest.HalfOpenWithoutPermitIff | internal/analytics/circuit_breaker.go:100-163 | over every run, it rests half-open with the permit free iff some call freed the permit after the prober of the present episode took it; a permit taken at rest always means half-open |
| StatusWriters.UpdateStatus | internal/controller/taonode_controller.go:334-361 | the retry loop leaves the versions and the result that its attempts determine: failed Gets, other errors, stale reads and rival writes |
| StatusWriters.SavedIff | internal/controller/taonode_controller.go:342-359 | the status is saved iff some attempt meets neither rival nor error and every one before it met a conflict |
| StatusWriters.LoopIsRun | internal/controller/taonode_controller.go:342-359 | the loop as a method and as events among those of other writers leave the same versions, and log the status iff it is saved |
| StatusWriters.AdvisorStepMirrors | internal/controller/taonode_controller.go:593-624 | an advisory step, with fresh or stale reads, changes no other field and nothing the reconciler will save |
| StatusWriters.AdvisorsDoNotInterfere | internal/controller/taonode_controller.go:334-361 | erasing the advisory events leaves the same log of saved phases, counts and other fields, or the same log with the one save that is still being retried |
| StatusWriters.SameSavesIff | internal/controller/taonode_controller.go:334-361 | the saves are the same throughout iff no reconcile gives up after an attempt that lost only to advisory writes |
| StatusWriters.FiveAdvisoriesCostASave | internal/controller/taonode_controller.go:342-359 | five advisory writes, each between a Get and its Update, lose the save |
| StatusWriters.ReportOverwritten | internal/controller/taonode_controller.go:340-352 | a report saved during a reconcile is replaced by the one read at its start |
| StatusWriters.ReportReplacedIff | internal/controller/taonode_controller.go:340-352 | over every run, an accepted save writes the report read at the start of its reconcile, and replaces a different one iff the last advisory accepted since then carried another report |
| StatusWriters.AdvisoryRound | internal/controller/taonode_controller.go:614-624 | one attempt of the AI writer: the report is stored, over the other fields as they are then, iff nobody wrote since the version it read; otherwise it tries again, five times in all |
| StatusWriters.AdvisoryStoredIff | internal/controller/taonode_controller.go:593-624 | over every run, after at most four attempts that lost, the next one stores the report iff it does not lose; after five lost attempts the writer gives up |
| BatchWriter.TableWriter.constructor | internal/analytics/batch_writer.go:62-72 | a new table is empty |
| BatchWriter.TableWriter.PushRow | internal/analytics/batch_writer.go:119-125 | accepts into a channel with room, otherwise drops and counts one error |
| BatchWriter.TableWriter.DoFlush | internal/analytics/flush.go:55-73 | hands a non-empty buffer over once and counts rows or one error |
| BatchWriter.TableWriter.FlushLoop | internal/analytics/flush.go:75-105 | the loop does what its schedule of select cases says, until it returns |
| BatchWriter.TableWriter.Drain | internal/analytics/flush.go:77-91 | after cancellation, rows are taken until the channel is found empty, then flushed |
| BatchWriter.Conservation | internal/analytics/flush.go:55-105 | in every run the accepted rows are, in order, all batches handed over, then the buffer, then the channel |
| BatchWriter.Counters | internal/analytics/flush.go:63-72 | RowsWritten is the rows of successful batches; FlushErrors is dropped rows plus failed batches; every push is accepted or dropped |
| BatchWriter.Balance | internal/analytics/batch_writer.go:119-164 | pushed = dropped + written + in failed batches + still pending |
| BatchWriter.ExitHandsOverEverything | internal/analytics/flush.go:77-97 | at the return of the loop everything accepted so far has been handed over exactly once |
| BatchWriter.NothingAfterExit | internal/analytics/flush.go:82-90 | after it nothing more is handed over; later rows stay in the channel |
| BatchWriter.NothingWrittenAfterCancel | internal/analytics/flush.go:55-97 | if flushFn refuses a cancelled context, RowsWritten stays as it was at the cancellation and every batch handed over since failed |
| BatchWriter.DrainedRowsAreLost | internal/analytics/flush.go:77-97 | then, at the return of the loop, the accepted rows are those handed over before the cancellation followed by rows of failed batches |
| BatchWriter.Bounds | internal/analytics/batch_writer.go:28-32 | the channel keeps its bound and no empty batch is ever handed over |
| BatchWriter.TickEmptiesBuffer | internal/analytics/flush.go:55-102 | in every run, right after a tick of a running loop nothing is buffered, the accepted rows are those handed over and then the channel, and the rows that were buffered make exactly one new batch with the outcome of its flush; without any there is none |
| BatchWriter.TakesOldestRows | internal/analytics/flush.go:75-99 | n receives, or n drain steps, move the n oldest rows of the channel into the buffer, in order |
| BatchWriter.PushedRowIsDelivered | internal/analytics/flush.go:75-102 | in every run, a row pushed into an open channel with room, once received with those before it, is the last row of the one batch that the next tick hands over, and the counters follow the flush |
| BatchWriter.FullChannelDrops | internal/analytics/batch_writer.go:119-125 | a push into a full channel changes nothing but the error count |
| BatchWriter.CancelDelivers | internal/analytics/flush.go:77-91 | from any point of any run, cancellation, drain and return hand over everything buffered and queued in at most one more batch |
| BatchWriter.CloseDelivers | internal/analytics/flush.go:93-97 | the same when the channel is closed |
| SnapshotRetention.SortSnapshotsByAge | internal/controller/snapshot_manager.go:193-205 | sorts the array in place into the insertion sort of its old contents |
| SnapshotRetention.SinkInto | internal/controller/snapshot_manager.go:195-203 | the inner loop inserts one snapshot into the sorted part before it and touches nothing after it |
| SnapshotRetention.SortIsStableSort | internal/controller/snapshot_manager.go:193-205 | the result is a sorted permutation in which equal ages keep their order |
| SnapshotRetention.SnapshotStore.PruneOldSnapshots | internal/controller/snapshot_manager.go:140-175 | nothing without a policy or a listing, the latter an error; otherwise removes exactly a prefix of the listing sorted by age, and reports an error iff a delete that was due failed |
| SnapshotRetention.SnapshotStore.DeleteInOrder | internal/controller/snapshot_manager.go:169-174 | deletes in order and stops at the first failure |
| SnapshotRetention.PruneTakesTheOldest | internal/controller/snapshot_manager.go:159-174 | even when it fails midway, a prune removes only snapshots no younger than any survivor, and leaves as many as its deletes spare |
| SnapshotRetention.NewestAlwaysKept | internal/controller/snapshot_manager.go:140-175 | over every history, no survivor is older than a deleted snapshot and nothing was deleted below the retention count |
| SnapshotRetention.SurvivorsAreTheNewest | internal/controller/snapshot_manager.go:140-175 | after a prune without failure the store holds the newest retentionCount ever created, whatever failed before |
| PvcGrowth.Claim.Expand | internal/controller/storage_manager.go:84-112 | writes iff the request is below the maximum and the update is accepted, and then the capped 64-bit sum |
| PvcGrowth.EvaluateDiskPressure | internal/controller/storage_manager.go:37-59 | below the threshold nothing happens |
| PvcGrowth.ExpansionIsExact | internal/controller/storage_manager.go:86-93 | if 100 times the maximum fits 64 bits, an expansion grows strictly, to exactly the percentage or the maximum |
| PvcGrowth.GrowsIff | internal/controller/storage_manager.go:87-93 | in general it grows iff the low 64 bits of the product are at least 100, not negative, and their hundredth fits on top |
| PvcGrowth.OverflowShrinks | internal/controller/storage_manager.go:87-93 | every product from 2^63 up to 2^64 - 100 shrinks the request |
| PvcGrowth.HundredTebibytesShrink | internal/controller/storage_manager.go:87-93 | 100 TiB growing by 100% is such a case |
| PvcGrowth.NeverPastMax | internal/controller/storage_manager.go:91-103 | repeated expansions stay between the first size and the maximum |
| PvcGrowth.MaxIsReached | api/v1alpha1/taonode_types.go:80-83 | if the maximum is at most 2^k times the first size, 8k expansions reach it, whatever the increments |
| PvcGrowth.WritesAreBounded | internal/controller/storage_manager.go:84-112 | if the maximum is at most 2^k times the first size, at most 8k of any number of calls write, whichever updates are refused |
| PvcGrowth.MaxIsFinal | internal/controller/storage_manager.go:95-103 | once the request is at the maximum no later call writes |
| ValidatorLease.LeaseServer.EnsureValidatorSingleton | internal/controller/validator_guard.go:57-154 | leaves the versions, the error and the pod that `Guarded` gives: skips nodes the guard does not cover; otherwise create, renew, cordon or take over by what was read, the write succeeding iff the version read is still current, the cordon deleting the pod |
| ValidatorLease.LeaseServer.CordonValidatorPod | internal/controller/validator_guard.go:159-170 | a missing pod is no error, a failed lookup or delete is |
| ValidatorLease.LeftAloneIff | internal/controller/validator_guard.go:60-77 | from the raw spec: a pass with a successful read leaves every stored Lease untouched at all times iff the node is no validator, or is not on mainnet and allows more than one; a failed read is an error for exactly the other nodes |
| ValidatorLease.PodDeletedIff | internal/controller/validator_guard.go:65-170 | a pass deletes the pod iff the node is covered, the Lease it read names another holder with a renewal and a duration that has not run out, and the delete succeeds |
| ValidatorLease.PassIsRun | internal/controller/validator_guard.go:74-154 | a covered node's pass is its Get, Choose and Apply in the run, with any events of others in between: the same versions, the pod deleted iff the Choose cordons, and otherwise an error iff the write was overtaken |
| ValidatorLease.StepKeepsOk | internal/controller/validator_guard.go:74-154 | every step keeps each version a renewal by its holder or a takeover after expiry, pending writes included |
| ValidatorLease.LaterTakesOverAfterExpiry | internal/controller/validator_guard.go:123-149 | a later holder acquires no earlier than an earlier holder's renewal plus 30 s |
| ValidatorLease.OneHolderAtATime | internal/controller/validator_guard.go:74-154 | for contenders sharing a Lease, with stale reads, no moment lies in [acquire, renew + 30 s) of two different holders |
| ValidatorLease.TakesOverIffExpired | internal/controller/validator_guard.go:111-149 | a contender that reads the current version and is left alone writes the Lease iff it holds it already or it has run out, and is then the entitled holder |
| ValidatorLease.LeaseIsSharedIffSameNode | internal/controller/validator_guard.go:70 | two nodes of a namespace share a Lease iff they are the same node |
| ValidatorLease.NobodyIsEverCordoned | internal/controller/validator_guard.go:70-149 | in every run of any nodes of a namespace, with stale reads, each Lease is held only by the node it is named after and no decision cordons anyone |
| ValidatorLease.TwoNodesHoldAtOnce | internal/controller/validator_guard.go:70-101 | any two different validators, after one pass each, are entitled at the same moment |
| Workload.VctDriftDetected | internal/controller/statefulset_builder.go:341-354 | finds drift iff the claim templates differ in number or in some spec |
| Workload.Cluster.EnsureNodeWorkload | internal/controller/workload_manager.go:92-130 | the pass sends the writes and leaves the object that the outcomes of its calls determine, and loses no pod or claim, whatever the claims' retention policy |
| Workload.Cluster.RetryUpdate | internal/controller/workload_manager.go:119-129 | the first attempt without conflict decides; five conflicts are an error |
| Workload.UpdatesKeepImmutables | internal/controller/workload_manager.go:287-292 | every update of every run keeps service name, selector and claim templates as stored at that moment and settles the rest |
| Workload.ImmutablesChangeOnlyByRecreation | internal/controller/workload_manager.go:107-129 | over every run, with any desired objects, the immutable fields change only across a delete and a create, and every delete orphans its dependents |
| Workload.QuietIffAgrees | internal/controller/workload_manager.go:107-129 | a stored object that is not being deleted is written by no pass iff it agrees with the desired one |
| Workload.WritingPassAgrees | internal/controller/workload_manager.go:92-130 | a successful pass that wrote leaves an object that agrees with the desired one iff defaulting leaves the desired one unchanged |
| Workload.AgreementIsQuiet | internal/controller/workload_manager.go:119-129 | an object that agrees is left alone by every later pass while it exists |
| Workload.PendingDeleteWaits | internal/controller/workload_manager.go:107-117 | while an orphan-delete is pending, passes change nothing |
| Workload.Converges | internal/controller/workload_manager.go:92-130 | the first successful pass from any state makes the object agree, and later passes write nothing, if defaulting leaves the desired object unchanged |
| Workload.DefaultedFieldsNeverSettle | internal/controller/workload_manager.go:107-129 | otherwise every one of any number of undisturbed passes writes again |
| Workload.CleanPassRealizes | internal/controller/workload_manager.go:92-130 | from every stored state that is not being deleted, none included, a pass whose calls all succeed ends without error with the desired object up to defaulting, having created it, replaced it by one orphan-delete and one create, or sent at most one update |
| Workload.PassFailsIff | internal/controller/workload_manager.go:92-130 | exactly when a pass reports an error, for every stored state and every outcome of its calls |
| Workload.ReplacedExactlyOnce | internal/controller/workload_manager.go:106-117 | over every run from an object that no update can fix, with any failures, pending deletes and completions, the first pass without error has replaced it, and all that was sent is one orphan-delete and one create |
| Workload.PendingDeleteIsFollowedByCreate | internal/controller/workload_manager.go:106-117 | after a delete that was only marked, any passes made meanwhile and its completion, the next pass whose Get and Create succeed re-creates the object |
| AdvisorLimiter.AdvisorRateLimiter.constructor | internal/ai/advisor.go:186-192 | the first window starts at creation |
| AdvisorLimiter.AdvisorRateLimiter.Allow | internal/ai/advisor.go:196-210 | restarts a window that has run out, and grants iff calls are left in it |
| AdvisorLimiter.GrantedIff | internal/ai/advisor.go:196-210 | exactly which calls pass: a call is granted iff fewer than maxCalls calls of its window were granted before it, a window being opened at creation or by the first call more than its length after the last opening |
| AdvisorLimiter.TwiceTheLimit | internal/ai/advisor.go:196-210 | any interval no longer than the window contains at most 2 x maxCalls grants |
| AdvisorLimiter.TwiceIsAttained | internal/ai/advisor.go:196-210 | and 2 x maxCalls are possible within a nanosecond |
| ArgsHash.HashArgs | internal/controller/statefulset_builder.go:363-369 | the digest is the hash of the canonical string, whichever sorting algorithm is used |
| ArgsHash.SortedIsUnique | internal/controller/statefulset_builder.go:366 | two sorted vectors with the same elements are equal |
| ArgsHash.JoinIsInjective | internal/controller/statefulset_builder.go:367 | joining non-empty NUL-free vectors with NUL loses nothing |
| ArgsHash.HashInputIsCanonical | internal/controller/statefulset_builder.go:363-369 | for non-empty NUL-free vectors the hashed strings are equal iff the vectors are permutations of each other |
| ArgsHash.CollisionsOutside | internal/controller/statefulset_builder.go:363-369 | both conditions are needed |
| ArgsHash.PairsAscend | internal/controller/statefulset_builder.go:366-367 | the canonical string is ascending byte by byte: the smaller byte first at the first difference, a prefix before its extensions |

## Left out

- Clients for HTTP, ClickHouse, Ollama, Discord, S3 and Terraform, and `tools/tao-dr`: only their success or failure matters, and it is an input.
- SHA-256, `sort.Strings`, JSON, gzip and cron: library code; the hash is an opaque function and the sort its sorted permutation.
- Metrics other than RowsWritten and FlushErrors, events, logs, conditions and requeue delays: they do not feed back into the state, and runs allow any times.
- Clock reads within one mutex section are one read; the recovery limiter and the AI limiter read the clock several times there.
- Counters of the breaker and the batch writer are unbounded integers; anomaly scores are exact numbers compared with 0.7.
- Stale first reads of a reconcile: the first Get of a reconcile is assumed to see the previous reconcile's write.
- Truncation of the stored reconcile time to whole seconds.
- A restart of the operator: the recovery limiter lives in memory and starts empty again, so HerdBound, RestartsAreSpaced and the limiter's window bounds are per process.
- Finalization: deletion of a TaoNode and the removal of its Lease, after which another contender may create it at once.
- Snapshots deleted or created by anyone else, and `Status.Snapshot.AvailableSnapshots`, which is never lowered.
- Pod, container, volume and GPU builders and the admission webhook: settled by reading one branch each.
- FleetAccounting.DeletionsAccounted: counts a delete that the API server confirmed; one that took effect without an answer is an error to the operator.
- Calls that delete volume claims: the code has none; a claim can go only with its StatefulSet, and the retention policy is a parameter.
- Workload: other writers of the StatefulSet's spec; its status updates appear only as conflicts.
