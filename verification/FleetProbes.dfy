/** What one reconcile makes of a node, stated from the raw fields of the probe, the policy and the
    stored status: block numbers, scores, minutes and the outcome of the pod calls. */
module FleetProbes {
  import opened Clock
  import opened Ints
  import opened Options
  import opened SyncState
  import opened Fleet
  import RL = RateLimiter

  /** The probe finds the node more than maxBlockLag blocks behind, or not in sync by its own account. */
  predicate Behind(p: Policy, h: Health) {
    h.currentBlock + p.maxBlockLag < h.networkBlock || !h.inSync
  }

  predicate Alarming(scores: seq<real>) {
    exists s :: s in scores && s >= 0.7
  }

  /** The stored reconcile time is more than the policy's minutes ago. */
  predicate Overdue(p: Policy, st: Status, now: Time) {
    st.lastReconcile.Some? && st.lastReconcile.value + p.syncTimeoutMinutes * 60 * SECOND < now
  }

  /** Such a probe asks for a recovery: an alarm always does, falling behind only if the node was in sync
      or is already known to be degraded. */
  predicate Needy(p: Policy, st: Status, h: Health, scores: seq<real>) {
    st.phase !in {Unset, Pending} && (Alarming(scores) || (Behind(p, h) && st.phase in {Synced, Degraded}))
  }

  /** The lag does not leave the 64-bit range; block numbers that are not negative always meet this. */
  predicate LagFits(h: Health) {
    -TWO_63 <= h.networkBlock - h.currentBlock < TWO_63
  }

  /** Nor does the timeout in nanoseconds. */
  predicate TimeoutFits(p: Policy) {
    -TWO_63 <= p.syncTimeoutMinutes * 60 * SECOND < TWO_63
  }

  /** The reconcile of node k up to its status write. */
  function Probe(f: Setup, w: World, k: Key, h: Health, scores: seq<real>, io: PodIo, now: Time): World {
    Step(f, Step(f, w, Begin(k, Probed(h, scores), now)), Act(k, io, now))
  }

  /** What the reconcile stores, if it gets as far as its write. */
  function Written(f: Setup, w: World, k: Key, h: Health, scores: seq<real>, io: PodIo, now: Time): Option<Status>
    requires Known(f, w, k)
  {
    var w2 := Probe(f, w, k, h, scores, io, now);
    if Saves(f, w2, Save(k, true, now)) then Some(Step(f, w2, Save(k, true, now)).nodes[k].stored) else None
  }

  predicate Writes(f: Setup, w: World, k: Key, h: Health, scores: seq<real>, io: PodIo, now: Time, q: Phase)
    requires Known(f, w, k)
  {
    var s := Written(f, w, k, h, scores, io, now);
    s.Some? && s.value.phase == q
  }

  /** The pod calls end in an error that the strategy reports. */
  predicate AttemptFails(s: Strategy, io: PodIo) {
    s != CordonAndAlert && (io == DeleteFails || (io == LookupFails && s != SnapshotRestore))
  }

  lemma RawFields(p: Policy, h: Health, scores: seq<real>)
    requires LagFits(h)
    ensures IsSynced(p, h) <==> !Behind(p, h)
    ensures Critical(scores) <==> Alarming(scores)
  {
    if Critical(scores) {
      var i :| 0 <= i < |scores| && scores[i] >= 0.7;
      assert scores[i] in scores;
    }
  }

  lemma RawTimeout(p: Policy, st: Status, now: Time)
    requires TimeoutFits(p)
    ensures TimedOut(p, st, now) <==> Overdue(p, st, now)
  {
  }

  /** The node's recovery begins in this reconcile. */
  predicate Admitted(f: Setup, w: World, k: Key, h: Health, scores: seq<real>, now: Time)
    requires Known(f, w, k)
  {
    var p, st := f.policy[k], w.nodes[k].stored;
    Needy(p, st, h, scores) && st.restartCount < p.maxRestartAttempts && RL.Permits(f.limits, w.limiter, k, now)
  }

  /** It would, but the limiter refuses. */
  predicate TurnedAway(f: Setup, w: World, k: Key, h: Health, scores: seq<real>, now: Time)
    requires Known(f, w, k)
  {
    var p, st := f.policy[k], w.nodes[k].stored;
    Needy(p, st, h, scores) && st.restartCount < p.maxRestartAttempts && !RL.Permits(f.limits, w.limiter, k, now)
  }

  /** A reconcile asks the limiter iff the node needs a recovery and has budget left, and starts one iff
      the limiter then agrees. */
  lemma AsksIffNeedy(f: Setup, w: World, k: Key, h: Health, scores: seq<real>, now: Time)
    requires Known(f, w, k) && w.nodes[k].pc.Idle? && LagFits(h)
    ensures var e, p, st := Begin(k, Probed(h, scores), now), f.policy[k], w.nodes[k].stored;
      && (Tries(f, w, e) <==> Needy(p, st, h, scores) && st.restartCount < p.maxRestartAttempts)
      && (Starts(f, w, e) <==> Admitted(f, w, k, h, scores, now))
  {
    hide RL.Permits, IsSynced, Critical, TimedOut, Behind, Alarming, Overdue;
    RawFields(f.policy[k], h, scores);
  }

  /** A reconcile gets as far as its write iff it starts no attempt that fails; then the count grows by
      one iff an attempt was made, and the stored time is now. A pod goes iff an attempt deletes it. */
  lemma WritesUnlessAttemptFails(f: Setup, w: World, k: Key, h: Health, scores: seq<real>, io: PodIo, now: Time)
    requires Known(f, w, k) && w.nodes[k].pc.Idle? && LagFits(h)
    ensures var s, st, p := Written(f, w, k, h, scores, io, now), w.nodes[k].stored, f.policy[k];
      var admitted := Admitted(f, w, k, h, scores, now);
      && (s.None? <==> admitted && AttemptFails(p.strategy, io))
      && (s.Some? ==> s.value.lastReconcile == Some(now)
                      && s.value.restartCount == st.restartCount + if admitted then 1 else 0)
      && (DeletesPod(f, Step(f, w, Begin(k, Probed(h, scores), now)), Act(k, io, now)) <==>
            admitted && p.strategy != CordonAndAlert && io == Deleted)
  {
    hide RL.Permits, RL.Step, IsSynced, Critical, TimedOut, Behind, Alarming, Overdue;
    RawFields(f.policy[k], h, scores);
  }

  /** Exactly when a reconcile stores Synced. */
  lemma SyncedIff(f: Setup, w: World, k: Key, h: Health, scores: seq<real>, io: PodIo, now: Time)
    requires Known(f, w, k) && w.nodes[k].pc.Idle? && LagFits(h)
    requires w.nodes[k].stored.phase !in {Unset, Pending}
    ensures Writes(f, w, k, h, scores, io, now, Synced) <==>
      && h.networkBlock - h.currentBlock <= f.policy[k].maxBlockLag && h.inSync
      && ((forall s | s in scores :: s < 0.7)
          || (w.nodes[k].stored.phase == Synced && TurnedAway(f, w, k, h, scores, now)))
  {
    hide RL.Permits, RL.Step, IsSynced, Critical, TimedOut, Overdue;
    RawFields(f.policy[k], h, scores);
  }

  /** The exception is real: half a minute after its last recovery a healthy node whose score is 0.9 is
      refused a slot, and what the reconcile stores is Synced. */
  lemma RefusedAlarmStaysSynced() returns (f: Setup, w: World, h: Health, scores: seq<real>, now: Time)
    ensures f.limits == RL.Config(5, 2 * MINUTE) && Known(f, w, "n") && w.nodes["n"] == Node(Status(Synced, 1, Some(0)), Idle)
    ensures LagFits(h) && scores == [0.9] && now == 30 * SECOND
    ensures forall io :: Writes(f, w, "n", h, scores, io, now, Synced)
  {
    f := Setup(RL.Config(5, 2 * MINUTE), map["n" := Policy(10, Restart, 3, 120)]);
    w := World(map["n" := Node(Status(Synced, 1, Some(0)), Idle)], RL.State(map["n" := 0], map["n" := 0]));
    h, scores, now := Health(100, 95, true), [0.9], 30 * SECOND;
    assert 0.9 in scores;
    assert !RL.Permits(f.limits, w.limiter, "n", now);
    forall io ensures Writes(f, w, "n", h, scores, io, now, Synced) {
      hide Writes, RL.Permits;
      SyncedIff(f, w, "n", h, scores, io, now);
    }
  }

  /** A node that was never probed becomes Syncing whatever the probe says, with no call to the limiter. */
  lemma FirstProbeSyncs(f: Setup, w: World, k: Key, h: Health, scores: seq<real>, io: PodIo, now: Time)
    requires Known(f, w, k) && w.nodes[k].pc.Idle? && w.nodes[k].stored.phase in {Unset, Pending}
    ensures Writes(f, w, k, h, scores, io, now, Syncing)
    ensures Probe(f, w, k, h, scores, io, now).limiter == w.limiter
  {
    hide IsSynced, Critical;
  }

  /** A later reconcile stores Syncing only over Syncing: the node is behind without an alarm, or was
      turned away. */
  lemma SyncingIff(f: Setup, w: World, k: Key, h: Health, scores: seq<real>, io: PodIo, now: Time)
    requires Known(f, w, k) && w.nodes[k].pc.Idle? && LagFits(h)
    requires w.nodes[k].stored.phase !in {Unset, Pending}
    ensures Writes(f, w, k, h, scores, io, now, Syncing) <==>
      && w.nodes[k].stored.phase == Syncing
      && ((Behind(f.policy[k], h) && !Alarming(scores)) || TurnedAway(f, w, k, h, scores, now))
  {
    hide RL.Permits, RL.Step, IsSynced, Critical, TimedOut, Behind, Alarming, Overdue;
    RawFields(f.policy[k], h, scores);
  }

  /** Degraded is stored iff the limiter turned away a node that was degraded already or has just fallen
      behind. */
  lemma DegradedIff(f: Setup, w: World, k: Key, h: Health, scores: seq<real>, io: PodIo, now: Time)
    requires Known(f, w, k) && w.nodes[k].pc.Idle? && LagFits(h)
    ensures Writes(f, w, k, h, scores, io, now, Degraded) <==>
      && TurnedAway(f, w, k, h, scores, now)
      && (w.nodes[k].stored.phase == Degraded || (w.nodes[k].stored.phase == Synced && Behind(f.policy[k], h)))
  {
    hide RL.Permits, RL.Step, IsSynced, Critical, TimedOut, Behind, Alarming, Overdue;
    RawFields(f.policy[k], h, scores);
  }

  /** Recovering is stored iff an attempt succeeded, or a recovering node was turned away or is still
      behind, without an alarm, within its time. */
  lemma RecoveringIff(f: Setup, w: World, k: Key, h: Health, scores: seq<real>, io: PodIo, now: Time)
    requires Known(f, w, k) && w.nodes[k].pc.Idle? && LagFits(h) && TimeoutFits(f.policy[k])
    ensures Writes(f, w, k, h, scores, io, now, Recovering) <==>
      var p, st := f.policy[k], w.nodes[k].stored;
      || (Admitted(f, w, k, h, scores, now) && p.strategy != CordonAndAlert && !AttemptFails(p.strategy, io))
      || (st.phase == Recovering && TurnedAway(f, w, k, h, scores, now))
      || (st.phase == Recovering && Behind(p, h) && !Alarming(scores) && !Overdue(p, st, now))
  {
    hide RL.Permits, RL.Step, IsSynced, Critical, TimedOut, Behind, Alarming, Overdue;
    RawFields(f.policy[k], h, scores);
    RawTimeout(f.policy[k], w.nodes[k].stored, now);
  }

  /** Failed is stored iff a needed recovery finds the budget spent or is a cordon, a recovering node is
      overdue, or a failed node was turned away or is still behind without an alarm. */
  lemma FailedIff(f: Setup, w: World, k: Key, h: Health, scores: seq<real>, io: PodIo, now: Time)
    requires Known(f, w, k) && w.nodes[k].pc.Idle? && LagFits(h) && TimeoutFits(f.policy[k])
    ensures Writes(f, w, k, h, scores, io, now, Failed) <==>
      var p, st := f.policy[k], w.nodes[k].stored;
      || (Needy(p, st, h, scores) && st.restartCount >= p.maxRestartAttempts)
      || (Admitted(f, w, k, h, scores, now) && p.strategy == CordonAndAlert)
      || (st.phase == Recovering && Behind(p, h) && !Alarming(scores) && Overdue(p, st, now))
      || (st.phase == Failed && (TurnedAway(f, w, k, h, scores, now) || (Behind(p, h) && !Alarming(scores))))
  {
    hide RL.Permits, RL.Step, IsSynced, Critical, TimedOut, Behind, Alarming, Overdue;
    RawFields(f.policy[k], h, scores);
    RawTimeout(f.policy[k], w.nodes[k].stored, now);
  }

  /** The timeout is the policy's minutes exactly up to 153722867 of them, about 292 years; one more
      and the 64-bit product turns negative. */
  lemma TimeoutIsExactIff(p: Policy)
    ensures SyncTimeout(p) == p.syncTimeoutMinutes * 60 * SECOND <==> -153_722_867 <= p.syncTimeoutMinutes <= 153_722_867
    ensures p.syncTimeoutMinutes == 153_722_868 ==> SyncTimeout(p) < 0
  {
  }
}
