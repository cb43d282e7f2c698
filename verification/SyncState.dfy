/** One reconcile's view of a node (internal/controller/sync_state_machine.go and the
    persist-or-lose part of internal/controller/taonode_controller.go).

    `Decide`, `Act` and `Evaluate` say what the step computes; the classes and methods carry it
    out in place on the status object and the shared limiter. */
module SyncState {
  import opened Clock
  import opened Ints
  import opened Options
  import RL = RateLimiter

  /** `Unset` is the empty phase of an object that was never saved. */
  datatype Phase = Unset | Pending | Syncing | Synced | Degraded | Recovering | Failed

  /** `Unlisted` stands for every other string; the dispatcher treats it as a restart. */
  datatype Strategy = Restart | SnapshotRestore | CordonAndAlert | Unlisted

  datatype Policy = Policy(maxBlockLag: int64, strategy: Strategy, maxRestartAttempts: int32, syncTimeoutMinutes: int32)

  datatype Status = Status(phase: Phase, restartCount: int32, lastReconcile: Option<Time>)

  datatype Health = Health(networkBlock: int64, currentBlock: int64, inSync: bool)

  /** How the pod lookup and deletion of a recovery attempt end. */
  datatype PodIo = LookupFails | PodMissing | DeleteFails | Deleted

  datatype Outcome = Outcome(status: Status, error: bool, podDeleted: bool)

  datatype Decision = Settle(status: Status) | Recover(status: Status)

  predicate IsSynced(p: Policy, h: Health) {
    Wrap64(h.networkBlock - h.currentBlock) <= p.maxBlockLag && h.inSync
  }

  predicate Critical(scores: seq<real>) {
    exists i | 0 <= i < |scores| :: scores[i] >= 0.7
  }

  function SyncTimeout(p: Policy): int64 {
    Wrap64(p.syncTimeoutMinutes * MINUTE)
  }

  predicate TimedOut(p: Policy, st: Status, now: Time) {
    st.lastReconcile.Some? && now - st.lastReconcile.value > SyncTimeout(p)
  }

  /** The phase switch up to the point where a recovery would be attempted. */
  function Decide(p: Policy, st: Status, h: Health, scores: seq<real>, now: Time): Decision {
    var synced, critical := IsSynced(p, h), Critical(scores);
    if st.phase == Pending then Settle(st.(phase := Syncing))
    else if synced && !critical then Settle(st.(phase := Synced))
    else
      var st := if !synced && st.phase == Synced then st.(phase := Degraded) else st;
      if st.phase == Degraded || critical then
        if st.restartCount >= p.maxRestartAttempts then Settle(st.(phase := Failed)) else Recover(st)
      else if st.phase == Recovering && TimedOut(p, st, now) then Settle(st.(phase := Failed))
      else Settle(st)
  }

  /** The bookkeeping of a granted attempt. The budget check keeps the 32-bit count from wrapping. */
  function Started(st: Status): Status
    requires st.restartCount < 0x7fff_ffff
  {
    st.(phase := Recovering, restartCount := st.restartCount + 1)
  }

  function Act(s: Strategy, st: Status, io: PodIo): Outcome {
    match s
    case CordonAndAlert => Outcome(st.(phase := Failed), false, false)
    case SnapshotRestore =>
      Outcome(if io.DeleteFails? then st else st.(phase := Recovering), io.DeleteFails?, io.Deleted?)
    case _ => Outcome(st, io.LookupFails? || io.DeleteFails?, io.Deleted?)
  }

  predicate KeepsSlot(o: Outcome) {
    !o.error && o.status.phase != Failed
  }

  datatype Evaluation = Evaluation(outcome: Outcome, limiter: RL.State)

  /** The whole of step 7: decision, admission, attempt and release. */
  function Evaluate(c: RL.Config, lim: RL.State, key: RL.Key, p: Policy, st: Status, h: Health,
                    scores: seq<real>, io: PodIo, now: Time): Evaluation
  {
    match Decide(p, st, h, scores, now)
    case Settle(st) => Evaluation(Outcome(st, false, false), lim)
    case Recover(st) =>
      var taken := RL.Acquired(c, lim, key, now);
      if !RL.Permits(c, lim, key, now) then Evaluation(Outcome(st, false, false), taken)
      else
        var o := Act(p.strategy, Started(st), io);
        Evaluation(o, if KeepsSlot(o) then taken else RL.Released(taken, key))
  }

  /** The status object that a reconcile mutates. */
  class TaoNode {
    var phase: Phase
    var restartCount: int32
    var lastReconcileTime: Option<Time>

    function View(): Status
      reads this
    {
      Status(phase, restartCount, lastReconcileTime)
    }

    constructor (st: Status)
      ensures View() == st
    {
      phase, restartCount, lastReconcileTime := st.phase, st.restartCount, st.lastReconcile;
    }
  }

  method HasCriticalAnomaly(scores: seq<real>) returns (critical: bool)
    ensures critical == Critical(scores)
  {
    critical := false;
    for i := 0 to |scores|
      invariant critical == exists j | 0 <= j < i :: scores[j] >= 0.7
    {
      if scores[i] >= 0.7 {
        critical := true;
      }
    }
  }

  method EvaluateSyncState(tn: TaoNode, limiter: RL.RecoveryRateLimiter, key: RL.Key, p: Policy,
                           h: Health, scores: seq<real>, io: PodIo, now: Time)
    returns (error: bool, podDeleted: bool)
    modifies tn, limiter
    ensures Evaluation(Outcome(tn.View(), error, podDeleted), limiter.View())
         == Evaluate(limiter.config, old(limiter.View()), key, p, old(tn.View()), h, scores, io, now)
  {
    var synced := IsSynced(p, h);
    var critical := HasCriticalAnomaly(scores);
    if tn.phase == Pending {
      tn.phase := Syncing;
      return false, false;
    }
    if synced && !critical {
      tn.phase := Synced;
      return false, false;
    }
    if !synced && tn.phase == Synced {
      tn.phase := Degraded;
    }
    if tn.phase == Degraded || critical {
      if tn.restartCount >= p.maxRestartAttempts {
        tn.phase := Failed;
        return false, false;
      }
      error, podDeleted := ExecuteRecovery(tn, limiter, key, p, io, now);
      return;
    }
    if tn.phase == Recovering {
      if tn.lastReconcileTime.Some? && now - tn.lastReconcileTime.value > SyncTimeout(p) {
        tn.phase := Failed;
      }
    }
    return false, false;
  }

  method ExecuteRecovery(tn: TaoNode, limiter: RL.RecoveryRateLimiter, key: RL.Key, p: Policy, io: PodIo, now: Time)
    returns (error: bool, podDeleted: bool)
    requires tn.restartCount < p.maxRestartAttempts
    modifies tn, limiter
    ensures !RL.Permits(limiter.config, old(limiter.View()), key, now) ==>
      && tn.View() == old(tn.View()) && !error && !podDeleted
      && limiter.View() == RL.Acquired(limiter.config, old(limiter.View()), key, now)
    ensures RL.Permits(limiter.config, old(limiter.View()), key, now) ==>
      var o := Act(p.strategy, Started(old(tn.View())), io);
      var taken := RL.Acquired(limiter.config, old(limiter.View()), key, now);
      && Outcome(tn.View(), error, podDeleted) == o
      && limiter.View() == if KeepsSlot(o) then taken else RL.Released(taken, key)
  {
    hide RL.Acquired, RL.Released, RL.Permits;
    var granted := limiter.TryAcquire(key, now);
    if !granted {
      return false, false;
    }
    tn.phase := Recovering;
    tn.restartCount := tn.restartCount + 1;
    match p.strategy {
      case SnapshotRestore => error, podDeleted := RecoverySnapshotRestore(tn, io);
      case CordonAndAlert =>
        tn.phase := Failed;
        error, podDeleted := false, false;
      case Restart => error, podDeleted := RecoveryRestart(tn, io);
      case Unlisted => error, podDeleted := RecoveryRestart(tn, io);
    }
    if error || tn.phase == Failed {
      limiter.Release(key);
    }
  }

  method RecoveryRestart(tn: TaoNode, io: PodIo) returns (error: bool, podDeleted: bool)
    ensures Outcome(tn.View(), error, podDeleted) == Act(Restart, tn.View(), io)
  {
    if io.LookupFails? || io.PodMissing? {
      return io.LookupFails?, false;
    }
    if io.DeleteFails? {
      return true, false;
    }
    return false, true;
  }

  method RecoverySnapshotRestore(tn: TaoNode, io: PodIo) returns (error: bool, podDeleted: bool)
    modifies tn`phase
    ensures Outcome(tn.View(), error, podDeleted) == Act(SnapshotRestore, old(tn.View()), io)
  {
    podDeleted := false;
    if !io.LookupFails? && !io.PodMissing? {
      if io.DeleteFails? {
        return true, false;
      }
      podDeleted := true;
    }
    tn.phase := Recovering;
    error := false;
  }

  /** The status under which a node's reconcile works: an unsaved phase reads as Pending. */
  function Opened(st: Status): Status {
    if st.phase == Unset then st.(phase := Pending) else st
  }

  /** A probed reconcile from the first read to the status write. An error in step 7 returns before
      the write, so the new phase and count are lost while the limiter keeps what it recorded. */
  method Reconcile(stored: TaoNode, limiter: RL.RecoveryRateLimiter, key: RL.Key, p: Policy,
                   h: Health, scores: seq<real>, io: PodIo, writeOk: bool, now: Time)
    returns (podDeleted: bool)
    modifies stored, limiter
    ensures var e := Evaluate(limiter.config, old(limiter.View()), key, p, Opened(old(stored.View())), h, scores, io, now);
      && limiter.View() == e.limiter
      && podDeleted == e.outcome.podDeleted
      && stored.View() == if e.outcome.error || !writeOk then old(stored.View())
                          else e.outcome.status.(lastReconcile := Some(now))
  {
    var tn := new TaoNode(Opened(stored.View()));
    var error;
    error, podDeleted := EvaluateSyncState(tn, limiter, key, p, h, scores, io, now);
    if error {
      return;
    }
    tn.lastReconcileTime := Some(now);
    if writeOk {
      stored.phase, stored.restartCount, stored.lastReconcileTime := tn.phase, tn.restartCount, tn.lastReconcileTime;
    }
  }
}
