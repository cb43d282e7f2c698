/** Which phases follow which, over every run. */
module FleetPhases {
  import opened Clock
  import opened Options
  import opened SyncState
  import opened Fleet
  import RL = RateLimiter

  /** Every persisted change of phase lies in `Edge`. */
  lemma PersistedPhasesFollowEdges(f: Setup, w0: World, es: seq<Event>, n: nat, k: Key)
    requires n < |es| && Start(f, w0) && Known(f, w0, k)
    ensures Known(f, WorldAt(f, w0, es, n), k) && Known(f, WorldAt(f, w0, es, n + 1), k)
    ensures var p, q := WorldAt(f, w0, es, n).nodes[k].stored.phase, WorldAt(f, w0, es, n + 1).nodes[k].stored.phase;
      p == q || Edge(p, q)
  {
    NodesOk(f, w0, es, n, k);
    NodesOk(f, w0, es, n + 1, k);
    hide OnLimiter, RL.Step, Decide;
  }

  /** A node that left Pending never returns to it. */
  lemma {:induction false} PendingNeverReentered(f: Setup, w0: World, es: seq<Event>, i: nat, n: nat, k: Key)
    requires i <= n <= |es| && Start(f, w0) && Known(f, w0, k)
    requires Known(f, WorldAt(f, w0, es, i), k)
    requires WorldAt(f, w0, es, i).nodes[k].stored.phase !in {Unset, Pending}
    ensures Known(f, WorldAt(f, w0, es, n), k)
    ensures WorldAt(f, w0, es, n).nodes[k].stored.phase !in {Unset, Pending}
  {
    hide WorldAt;
    if i < n {
      PendingNeverReentered(f, w0, es, i, n - 1, k);
      PersistedPhasesFollowEdges(f, w0, es, n - 1, k);
    }
  }

  /** The last event of the run saves phase `q` over phase `p` of node `k`. */
  predicate SavesPhase(f: Setup, w0: World, es: seq<Event>, k: Key, p: Phase, q: Phase) {
    && |es| > 0
    && var w := WorldAt(f, w0, es, |es| - 1);
    && Saves(f, w, es[|es| - 1]) && es[|es| - 1].key == k && es[|es| - 1].ok
    && w.nodes[k].stored.phase == p && w.nodes[k].pc.st.phase == q
  }

  /** A fleet of nodes that were never saved. */
  ghost predicate Newborn(f: Setup, w: World) {
    Start(f, w) && forall k | k in w.nodes :: w.nodes[k].stored == Status(Unset, 0, None)
  }

  /** The relation is exact: a save turns p into q in some run that begins with new nodes, with times
      that never decrease, iff `Edge(p, q)`. */
  lemma EdgesExact(p: Phase, q: Phase)
    ensures Edge(p, q) <==>
      exists f: Setup, w0: World, es: seq<Event>, k: Key ::
        Newborn(f, w0) && Chronological(es) && SavesPhase(f, w0, es, k, p, q)
  {
    if Edge(p, q) {
      var f := EdgeSetup(p, q);
      var es := EdgeRun(p, q);
      assert Newborn(f, NEWBORN) && SavesPhase(f, NEWBORN, es, "n", p, q);
    }
    forall f: Setup, w0: World, es: seq<Event>, k: Key | Newborn(f, w0) && SavesPhase(f, w0, es, k, p, q)
      ensures Edge(p, q)
    {
      SameNodes(f, w0, es, |es| - 1);
      NodesOk(f, w0, es, |es| - 1, k);
    }
  }

  // -- The runs: one node, reconcile by reconcile, on a limiter that refuses only by its cooldown

  const NEWBORN := World(map["n" := Node(Status(Unset, 0, None), Idle)], RL.EMPTY)
  const COOLDOWN := 10
  const GOOD := Probed(Health(0, 0, true), [])
  const BAD := Probed(Health(0, 0, false), [])
  const CRITICAL := Probed(Health(0, 0, true), [1.0])

  /** Failed is reached by cordoning, except from Recovering, where the timeout leads to it. */
  function EdgeSetup(p: Phase, q: Phase): Setup {
    Setup(RL.Config(2, COOLDOWN),
          map["n" := Policy(10, if q == Failed && p != Recovering then CordonAndAlert else Restart, 9, 1)])
  }

  lemma ProbeResults(p: Policy)
    requires p.maxBlockLag >= 0
    ensures IsSynced(p, GOOD.h) && !IsSynced(p, BAD.h) && IsSynced(p, CRITICAL.h)
    ensures !Critical(GOOD.scores) && !Critical(BAD.scores) && Critical(CRITICAL.scores)
  {
    assert [1.0][0] >= 0.7;
  }

  /** What step 7, or the early save, makes of node "n" and the limiter. */
  function TurnResult(f: Setup, w: World, r: Reading, at: Time): Evaluation
    requires Known(f, w, "n")
  {
    var st := Opened(w.nodes["n"].stored);
    if !r.Probed? then Evaluation(Outcome(st, false, false), w.limiter)
    else
      var e := Evaluate(f.limits, w.limiter, "n", f.policy["n"], st, r.h, r.scores, Deleted, at);
      e.(outcome := e.outcome.(status := e.outcome.status.(lastReconcile := Some(at))))
  }

  lemma TurnSteps(f: Setup, w: World, r: Reading, at: Time)
    requires Known(f, w, "n") && w.nodes["n"].pc.Idle? && !r.EarlyError?
    ensures var e := TurnResult(f, w, r, at);
      var w2 := Step(f, Step(f, w, Begin("n", r, at)), Act("n", Deleted, at));
      Known(f, w2, "n") && w2.limiter == e.limiter && w2.nodes["n"] == Node(w.nodes["n"].stored, Saving(e.outcome.status))
  {
    hide RL.Acquired, RL.Released, RL.Permits, Decide;
  }

  lemma SaveStep(f: Setup, w: World, at: Time)
    requires Known(f, w, "n") && w.nodes["n"].pc.Saving?
    ensures var w' := Step(f, w, Save("n", true, at));
      Known(f, w', "n") && w'.limiter == w.limiter && w'.nodes["n"] == Node(w.nodes["n"].pc.st, Idle)
  {
  }

  function Final(f: Setup, es: seq<Event>): World {
    WorldAt(f, NEWBORN, es, |es|)
  }

  lemma FinalSnoc(f: Setup, es: seq<Event>, e: Event)
    ensures Final(f, es + [e]) == Step(f, Final(f, es), e)
    ensures WorldAt(f, NEWBORN, es + [e], |es|) == Final(f, es)
  {
    hide Step;
    SameBefore(f, es, es + [e], |es|);
  }

  lemma {:induction false} SameBefore(f: Setup, es: seq<Event>, es': seq<Event>, n: nat)
    requires n <= |es| && es <= es'
    ensures WorldAt(f, NEWBORN, es, n) == WorldAt(f, NEWBORN, es', n)
  {
    hide Step;
    if n > 0 { SameBefore(f, es, es', n - 1); }
  }

  /** One more uninterrupted reconcile of the node. */
  lemma Turn(f: Setup, es: seq<Event>, r: Reading, at: Time) returns (es': seq<Event>)
    requires Known(f, Final(f, es), "n") && Final(f, es).nodes["n"].pc.Idle? && !r.EarlyError?
    ensures var w, w', e := Final(f, es), Final(f, es'), TurnResult(f, Final(f, es), r, at);
      && Known(f, w', "n") && w'.limiter == e.limiter && w'.nodes["n"] == Node(e.outcome.status, Idle)
      && SavesPhase(f, NEWBORN, es', "n", w.nodes["n"].stored.phase, e.outcome.status.phase)
    ensures es <= es' && forall i | |es| <= i < |es'| :: es'[i].at == at
  {
    hide Step, WorldAt, TurnResult, Known, Final;
    var e1 := es + [Begin("n", r, at)];
    var e2 := e1 + [Act("n", Deleted, at)];
    es' := e2 + [Save("n", true, at)];
    TurnSteps(f, Final(f, es), r, at);
    SaveStep(f, Step(f, Step(f, Final(f, es), Begin("n", r, at)), Act("n", Deleted, at)), at);
    FinalSnoc(f, es, Begin("n", r, at));
    FinalSnoc(f, e1, Act("n", Deleted, at));
    FinalSnoc(f, e2, Save("n", true, at));
  }

  /** Between reconciles in phase p, the last of them at time `at`, with one recovery granted so far
      (at time 0) or none. */
  ghost predicate Standing(f: Setup, es: seq<Event>, p: Phase, granted: bool, at: Time) {
    var w := Final(f, es);
    && Known(f, w, "n") && w.nodes["n"].pc.Idle?
    && var st := w.nodes["n"].stored;
    && st.phase == p && st.restartCount == (if granted then 1 else 0)
    && (p !in {Unset, Pending} ==> st.lastReconcile == Some(at))
    && w.limiter.active.Keys <= {"n"} && w.limiter.last == (if granted then map["n" := 0] else map[])
    && UpTo(es, at)
  }

  /** Times never decrease and have not passed `at`. */
  ghost predicate UpTo(es: seq<Event>, at: Time) {
    Chronological(es) && forall i | 0 <= i < |es| :: es[i].at <= at
  }

  lemma LaterUpTo(es: seq<Event>, es': seq<Event>, at: Time, now: Time)
    requires UpTo(es, at) && at <= now && es <= es' && forall i | |es| <= i < |es'| :: es'[i].at == now
    ensures UpTo(es', now)
  {
  }

  lemma StandsPermits(f: Setup, es: seq<Event>, p: Phase, granted: bool, at: Time, now: Time)
    requires Standing(f, es, p, granted, at) && f.limits == RL.Config(2, COOLDOWN)
    ensures var lim := Final(f, es).limiter;
      && (RL.Permits(f.limits, lim, "n", now) <==> granted ==> now >= COOLDOWN)
      && var lim' := RL.Acquired(f.limits, lim, "n", now);
        lim'.active.Keys <= {"n"} && lim'.last == if RL.Permits(f.limits, lim, "n", now) then map["n" := now] else lim.last
  {
    var lim := Final(f, es).limiter;
    var live := RL.Live(lim.active, now);
    assert live.Keys <= {"n"};
    RL.SubsetSize(live.Keys, {"n"});
    assert |live| == |live.Keys|;
  }

  lemma BeginsStanding(f: Setup)
    requires "n" in f.policy
    ensures Standing(f, [], Unset, false, 0)
  {
  }

  lemma EarlyTurn(f: Setup, es: seq<Event>, p: Phase, granted: bool, at: Time) returns (es': seq<Event>)
    requires Standing(f, es, p, granted, at)
    ensures var q := if p == Unset then Pending else p;
      Standing(f, es', q, granted, at) && SavesPhase(f, NEWBORN, es', "n", p, q)
  {
    es' := Turn(f, es, EarlySave, at);
    LaterUpTo(es, es', at, at);
    hide Final, UpTo, SavesPhase;
  }

  lemma GoodTurn(f: Setup, es: seq<Event>, p: Phase, granted: bool, at: Time, now: Time) returns (es': seq<Event>)
    requires at <= now && Standing(f, es, p, granted, at) && f.policy["n"].maxBlockLag >= 0
    ensures var q := if p in {Unset, Pending} then Syncing else Synced;
      Standing(f, es', q, granted, now) && SavesPhase(f, NEWBORN, es', "n", p, q)
  {
    es' := Turn(f, es, GOOD, now);
    LaterUpTo(es, es', at, now);
    hide Final, UpTo, SavesPhase, IsSynced, Critical;
    ProbeResults(f.policy["n"]);
  }

  lemma CriticalTurn(f: Setup, es: seq<Event>, p: Phase, granted: bool, at: Time, now: Time, q: Phase) returns (es': seq<Event>)
    requires at <= now && Standing(f, es, p, granted, at) && p !in {Unset, Pending} && (granted ==> now >= COOLDOWN)
    requires f.limits == RL.Config(2, COOLDOWN) && f.policy["n"].maxBlockLag >= 0 && f.policy["n"].maxRestartAttempts == 9
    requires f.policy["n"].strategy == if q == Failed then CordonAndAlert else Restart
    requires q in {Recovering, Failed}
    ensures SavesPhase(f, NEWBORN, es', "n", p, q) && UpTo(es', now)
    ensures !granted && now == 0 ==> Standing(f, es', q, true, 0)
  {
    es' := Turn(f, es, CRITICAL, now);
    LaterUpTo(es, es', at, now);
    StandsPermits(f, es, p, granted, at, now);
    hide Final, UpTo, SavesPhase, IsSynced, Critical, RL.Permits, RL.Acquired;
    ProbeResults(f.policy["n"]);
  }

  /** Out of sync: a Synced node is refused by the cooldown, a Recovering one times out. */
  lemma BadTurn(f: Setup, es: seq<Event>, p: Phase, at: Time, now: Time) returns (es': seq<Event>)
    requires at <= now && Standing(f, es, p, true, at) && f.limits == RL.Config(2, COOLDOWN)
    requires f.policy["n"].maxRestartAttempts == 9 && f.policy["n"].syncTimeoutMinutes == 1
    requires f.policy["n"].maxBlockLag >= 0
    requires (p == Synced && now == 0) || (p == Recovering && now - at > MINUTE)
    ensures var q := if p == Synced then Degraded else Failed;
      Standing(f, es', q, true, now) && SavesPhase(f, NEWBORN, es', "n", p, q)
  {
    es' := Turn(f, es, BAD, now);
    LaterUpTo(es, es', at, now);
    StandsPermits(f, es, p, true, at, now);
    hide Final, UpTo, SavesPhase, IsSynced, Critical, RL.Permits, RL.Acquired;
    ProbeResults(f.policy["n"]);
  }

  /** A run that leaves the node standing in phase p. */
  lemma PhaseRun(f: Setup, p: Phase, q: Phase) returns (es: seq<Event>, granted: bool, at: Time)
    requires Edge(p, q) && f == EdgeSetup(p, q)
    ensures Standing(f, es, p, granted, at) && at <= 2 * MINUTE
    ensures p == Recovering ==> granted && at == 0
    ensures p == Synced ==> granted && at == 0
  {
    hide Standing, SavesPhase;
    es, granted, at := [], false, 0;
    BeginsStanding(f);
    if p == Pending {
      es := EarlyTurn(f, es, Unset, false, 0);
    } else if p != Unset {
      es := GoodTurn(f, es, Unset, false, 0, 0);
      if p != Syncing {
        var hit := if f.policy["n"].strategy == CordonAndAlert then Failed else Recovering;
        es := CriticalTurn(f, es, Syncing, false, 0, 0, hit);
        granted := true;
        if p in {Synced, Degraded} {
          es := GoodTurn(f, es, hit, true, 0, 0);
          if p == Degraded {
            es := BadTurn(f, es, Synced, 0, 0);
          }
        } else if p == Failed && hit == Recovering {
          at := 2 * MINUTE;
          es := BadTurn(f, es, Recovering, 0, at);
        }
      }
    }
  }

  lemma EdgeRun(p: Phase, q: Phase) returns (es: seq<Event>)
    requires Edge(p, q)
    ensures SavesPhase(EdgeSetup(p, q), NEWBORN, es, "n", p, q) && Chronological(es)
  {
    hide SavesPhase, Final;
    var f, now := EdgeSetup(p, q), 4 * MINUTE;
    var granted, at;
    es, granted, at := PhaseRun(f, p, q);
    if p == q || q == Pending {
      es := EarlyTurn(f, es, p, granted, at);
    } else if q in {Syncing, Synced} {
      es := GoodTurn(f, es, p, granted, at, now);
    } else if q == Degraded {
      es := BadTurn(f, es, p, at, 0);
    } else if p == Recovering {
      es := BadTurn(f, es, p, at, now);
    } else {
      es := CriticalTurn(f, es, p, granted, at, now, q);
    }
  }

  /** Entering Degraded means the limiter said no: a node that is about to save Degraded over another
      phase was refused a slot earlier in the same reconcile. */
  lemma {:induction false} DegradedOnlyIfRefused(f: Setup, w0: World, es: seq<Event>, n: nat, k: Key)
    requires n <= |es| && Start(f, w0) && Known(f, w0, k) && Known(f, WorldAt(f, w0, es, n), k)
    requires var node := WorldAt(f, w0, es, n).nodes[k];
      node.pc.Saving? && node.pc.st.phase == Degraded && node.stored.phase != Degraded
    ensures exists i :: 0 <= i < n && SameReconcile(f, w0, es, i, n, k) && Refused(f, WorldAt(f, w0, es, i), es[i])
  {
    hide NextNode, OnLimiter, Refused;
    assert n > 0;
    var w, e := WorldAt(f, w0, es, n - 1), es[n - 1];
    SameNodes(f, w0, es, n - 1);
    NodesOk(f, w0, es, n - 1, k);
    if e.key == k {
      DegradedStep(f, w, e);
    }
    if e.key == k && !w.nodes[k].pc.Saving? {
      assert SameReconcile(f, w0, es, n - 1, n, k);
    } else {
      DegradedOnlyIfRefused(f, w0, es, n - 1, k);
      var i :| 0 <= i < n - 1 && SameReconcile(f, w0, es, i, n - 1, k) && Refused(f, WorldAt(f, w0, es, i), es[i]);
      assert SameReconcile(f, w0, es, i, n, k);
    }
  }

  /** Event i belongs to node k and from it up to n the node saved nothing. */
  ghost predicate SameReconcile(f: Setup, w0: World, es: seq<Event>, i: nat, n: nat, k: Key)
    requires i < n <= |es|
  {
    && es[i].key == k
    && forall j | i <= j < n :: !(es[j].key == k && Saves(f, WorldAt(f, w0, es, j), es[j]))
  }

  lemma DegradedStep(f: Setup, w: World, e: Event)
    requires Known(f, w, e.key) && NodeOk(f.policy[e.key], w.nodes[e.key])
    requires NextNode(f, w, e).pc.Saving? && NextNode(f, w, e).pc.st.phase == Degraded
    requires NextNode(f, w, e).stored.phase != Degraded
    ensures w.nodes[e.key].pc.Saving? ==> NextNode(f, w, e) == w.nodes[e.key] && !Saves(f, w, e)
    ensures !w.nodes[e.key].pc.Saving? ==> Refused(f, w, e) && !Saves(f, w, e)
  {
    hide RL.Permits, Critical, IsSynced, TimedOut;
  }
}
