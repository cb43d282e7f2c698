/** When a recovery times out. The timeout runs from the stored LastReconcileTime, which only a reconcile
    that got past its probe and was saved sets, and not from the start of the recovery. */
module FleetTimeouts {
  import opened Clock
  import opened Options
  import opened SyncState
  import opened Fleet
  import RL = RateLimiter

  /** The event starts a reconcile of node k that will write a status. */
  predicate Begins(f: Setup, w: World, e: Event, k: Key) {
    e.Begin? && e.key == k && Known(f, w, k) && w.nodes[k].pc.Idle? && !e.reading.EarlyError?
  }

  /** The latest such event of the run between i and n. */
  function LastBegin(f: Setup, w0: World, es: seq<Event>, i: nat, n: nat, k: Key): (e: Option<Event>)
    requires i <= n <= |es|
    ensures e.Some? ==> e.value.Begin?
  {
    if i == n then None
    else if Begins(f, WorldAt(f, w0, es, n - 1), es[n - 1], k) then Some(es[n - 1])
    else LastBegin(f, w0, es, i, n - 1, k)
  }

  /** Event j saves a reconcile of node k that got past its probe. */
  predicate SavesProbe(f: Setup, w0: World, es: seq<Event>, i: nat, j: nat, k: Key)
    requires i <= j < |es|
  {
    && es[j].key == k && Saves(f, WorldAt(f, w0, es, j), es[j]) && es[j].ok
    && LastBegin(f, w0, es, i, j, k).Some? && LastBegin(f, w0, es, i, j, k).value.reading.Probed?
  }

  /** When the last reconcile that was both probed and saved began, or the time stored at i. */
  function LastHeartbeat(f: Setup, w0: World, es: seq<Event>, i: nat, n: nat, k: Key): Option<Time>
    requires i <= n <= |es| && k in WorldAt(f, w0, es, i).nodes
  {
    if i == n then WorldAt(f, w0, es, i).nodes[k].stored.lastReconcile
    else if SavesProbe(f, w0, es, i, n - 1, k) then Some(LastBegin(f, w0, es, i, n - 1, k).value.at)
    else LastHeartbeat(f, w0, es, i, n - 1, k)
  }

  /** Event j saves a probed reconcile that began more than the timeout after the last one of its kind. */
  predicate Late(f: Setup, w0: World, es: seq<Event>, i: nat, j: nat, k: Key)
    requires i <= j < |es| && k in WorldAt(f, w0, es, i).nodes && k in f.policy
  {
    && SavesProbe(f, w0, es, i, j, k)
    && var before := LastHeartbeat(f, w0, es, i, j, k);
    before.Some? && LastBegin(f, w0, es, i, j, k).value.at - before.value > SyncTimeout(f.policy[k])
  }

  ghost predicate SomeLate(f: Setup, w0: World, es: seq<Event>, i: nat, n: nat, k: Key)
    requires i <= n <= |es| && k in WorldAt(f, w0, es, i).nodes && k in f.policy
  {
    exists j :: i <= j < n && Late(f, w0, es, i, j, k)
  }

  /** Neither in sync nor critically anomalous. */
  predicate Unrecovered(f: Setup, e: Event, k: Key) {
    k in f.policy && e.Begin? && e.reading.Probed? ==>
      !IsSynced(f.policy[k], e.reading.h) && !Critical(e.reading.scores)
  }

  /** What such a probe makes of a node in Recovering or Failed. */
  function Judged(p: Policy, st: Status, now: Time): Status {
    st.(phase := if st.phase == Recovering && TimedOut(p, st, now) then Failed else st.phase, lastReconcile := Some(now))
  }

  /** The node is between reconciles, or about to save what its last Begin made of the stored status. */
  predicate OnCourse(p: Policy, node: Node, begun: Option<Event>) {
    && node.stored.phase in {Recovering, Failed}
    && match node.pc {
         case Idle => true
         case Acting(_) => false
         case Saving(st) =>
           && begun.Some? && begun.value.Begin?
           && st == if begun.value.reading.Probed? then Judged(p, node.stored, begun.value.at) else node.stored
       }
  }

  lemma CourseStep(f: Setup, w: World, e: Event, k: Key, begun: Option<Event>)
    requires Known(f, w, k) && e.key == k && OnCourse(f.policy[k], w.nodes[k], begun)
    requires Begins(f, w, e, k) ==> Unrecovered(f, e, k)
    ensures var node, node' := w.nodes[k], NextNode(f, w, e);
      && OnCourse(f.policy[k], node', if Begins(f, w, e, k) then Some(e) else begun)
      && (Saves(f, w, e) && e.ok ==> node.pc.Saving? && node'.stored == node.pc.st)
      && (!(Saves(f, w, e) && e.ok) ==> node'.stored == node.stored)
  {
    hide RL.Permits, Critical, IsSynced;
  }

  /** The stored status of an unrecovered node, from its state at i and the events since. */
  ghost predicate Tracked(f: Setup, w0: World, es: seq<Event>, i: nat, n: nat, k: Key)
    requires i <= n <= |es| && Known(f, WorldAt(f, w0, es, i), k)
  {
    var first, w := WorldAt(f, w0, es, i).nodes[k].stored, WorldAt(f, w0, es, n);
    && Known(f, w, k) && OnCourse(f.policy[k], w.nodes[k], LastBegin(f, w0, es, i, n, k))
    && w.nodes[k].stored == first.(phase := if SomeLate(f, w0, es, i, n, k) then Failed else Recovering,
                                   lastReconcile := LastHeartbeat(f, w0, es, i, n, k))
  }

  lemma LateStep(f: Setup, w0: World, es: seq<Event>, i: nat, n: nat, k: Key)
    requires i < n <= |es| && k in WorldAt(f, w0, es, i).nodes && k in f.policy
    ensures SomeLate(f, w0, es, i, n, k) <==> SomeLate(f, w0, es, i, n - 1, k) || Late(f, w0, es, i, n - 1, k)
  {
    hide Late, WorldAt;
  }

  lemma TrackedStep(f: Setup, w0: World, es: seq<Event>, i: nat, n: nat, k: Key)
    requires i < n <= |es| && Known(f, WorldAt(f, w0, es, i), k) && Tracked(f, w0, es, i, n - 1, k)
    requires Begins(f, WorldAt(f, w0, es, n - 1), es[n - 1], k) ==> Unrecovered(f, es[n - 1], k)
    ensures Tracked(f, w0, es, i, n, k)
  {
    hide NextNode, OnLimiter, RL.Step, SomeLate, Unrecovered;
    var w, e := WorldAt(f, w0, es, n - 1), es[n - 1];
    LateStep(f, w0, es, i, n, k);
    if e.key == k {
      CourseStep(f, w, e, k, LastBegin(f, w0, es, i, n - 1, k));
    }
  }

  /** Exactly when a recovery times out, over every run of the fleet, with failed probes, early errors
      and lost writes: a node stored as Recovering between reconciles, and neither in sync nor critical
      in any probe since, is stored as Failed iff some probed and saved reconcile began more than the
      timeout after the last one of its kind; otherwise it is still Recovering. */
  lemma {:induction false} TimesOutIffHeartbeatIsLate(f: Setup, w0: World, es: seq<Event>, i: nat, n: nat, k: Key)
    requires i <= n <= |es| && Known(f, WorldAt(f, w0, es, i), k)
    requires WorldAt(f, w0, es, i).nodes[k].pc.Idle? && WorldAt(f, w0, es, i).nodes[k].stored.phase == Recovering
    requires forall j | i <= j < n :: Begins(f, WorldAt(f, w0, es, j), es[j], k) ==> Unrecovered(f, es[j], k)
    ensures Tracked(f, w0, es, i, n, k)
    ensures Known(f, WorldAt(f, w0, es, n), k)
    ensures WorldAt(f, w0, es, n).nodes[k].stored.phase == if SomeLate(f, w0, es, i, n, k) then Failed else Recovering
  {
    hide Step, Begins, Unrecovered;
    if i < n {
      TimesOutIffHeartbeatIsLate(f, w0, es, i, n - 1, k);
      TrackedStep(f, w0, es, i, n, k);
    }
  }

  /** A failed probe is no heartbeat: saved reconciles half a minute apart, the first of them without a
      probe result, still end in Failed after a minute. */
  lemma FailedProbeDoesNotPostpone() returns (f: Setup, w0: World, es: seq<Event>)
    ensures Start(f, w0) && Known(f, w0, "n") && w0.nodes["n"].stored == Status(Recovering, 1, Some(0))
    ensures |es| == 4 && es[0].at == es[1].at == 30 * SECOND && es[2].at == es[3].at == 61 * SECOND
    ensures SyncTimeout(f.policy["n"]) == 60 * SECOND
    ensures Saves(f, WorldAt(f, w0, es, 1), es[1]) && Saves(f, WorldAt(f, w0, es, 3), es[3])
    ensures Known(f, WorldAt(f, w0, es, 4), "n") && WorldAt(f, w0, es, 4).nodes["n"].stored.phase == Failed
  {
    hide WorldAt, Saves;
    f := Setup(RL.Config(1, 0), map["n" := Policy(10, Restart, 3, 1)]);
    w0 := World(map["n" := Node(Status(Recovering, 1, Some(0)), Idle)], RL.EMPTY);
    es := [Begin("n", EarlySave, 30 * SECOND), Save("n", true, 30 * SECOND),
           Begin("n", Probed(Health(0, 0, false), []), 61 * SECOND), Save("n", true, 61 * SECOND)];
    ProbeFailsThenTimesOut(f, w0, es);
  }

  lemma NodeStep(f: Setup, w0: World, es: seq<Event>, n: nat)
    requires n < |es| && Known(f, WorldAt(f, w0, es, n), es[n].key)
    ensures var w' := WorldAt(f, w0, es, n + 1);
      Known(f, w', es[n].key) && w'.nodes[es[n].key] == NextNode(f, WorldAt(f, w0, es, n), es[n])
  {
  }

  lemma ProbeFailsThenTimesOut(f: Setup, w0: World, es: seq<Event>)
    requires f.policy == map["n" := Policy(10, Restart, 3, 1)]
    requires w0.nodes == map["n" := Node(Status(Recovering, 1, Some(0)), Idle)]
    requires |es| == 4 && es[0] == Begin("n", EarlySave, 30 * SECOND) && es[1] == Save("n", true, 30 * SECOND)
    requires es[2] == Begin("n", Probed(Health(0, 0, false), []), 61 * SECOND) && es[3] == Save("n", true, 61 * SECOND)
    ensures Saves(f, WorldAt(f, w0, es, 1), es[1]) && Saves(f, WorldAt(f, w0, es, 3), es[3])
    ensures Known(f, WorldAt(f, w0, es, 4), "n") && WorldAt(f, w0, es, 4).nodes["n"].stored.phase == Failed
  {
    assert WorldAt(f, w0, es, 0) == w0;
    hide WorldAt, RL.Permits, Critical;
    assert !Critical([]) by { NothingIsCritical(); }
    var st := Status(Recovering, 1, Some(0));
    NodeStep(f, w0, es, 0);
    assert WorldAt(f, w0, es, 1).nodes["n"] == Node(st, Saving(st));
    NodeStep(f, w0, es, 1);
    NodeStep(f, w0, es, 2);
    assert WorldAt(f, w0, es, 3).nodes["n"] == Node(st, Saving(Status(Failed, 1, Some(61 * SECOND))));
    NodeStep(f, w0, es, 3);
  }

  lemma NothingIsCritical()
    ensures !Critical([])
  {
  }
}
