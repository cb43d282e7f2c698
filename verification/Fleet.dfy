/** Runs of a whole fleet: any number of nodes, each reconciled one step at a time, interleaving
    over one recovery limiter.

    A reconcile takes up to three steps, because other nodes may use the limiter between them:
    `Begin` (read, decide and try to take a slot), `Act` (the recovery strategy and, if it fails,
    the release of the slot) and `Save` (the status write). The workqueue never runs two
    reconciles of one node at once, and the first read of a reconcile sees the previous write. */
module Fleet {
  import opened Clock
  import opened Options
  import opened SyncState
  import RL = RateLimiter

  type Key = RL.Key

  /** `policy` is fixed for the run. */
  datatype Setup = Setup(limits: RL.Config, policy: map<Key, Policy>)

  datatype Pc = Idle | Acting(st: Status) | Saving(st: Status)

  datatype Node = Node(stored: Status, pc: Pc)

  datatype World = World(nodes: map<Key, Node>, limiter: RL.State)

  /** What a reconcile meets before step 7: an error that returns at once, a condition that saves the
      status early (missing permissions or hotkey, failed probe), or a probe result. */
  datatype Reading = EarlyError | EarlySave | Probed(h: Health, scores: seq<real>)

  datatype Event =
    | Begin(key: Key, reading: Reading, at: Time)
    | Act(key: Key, io: PodIo, at: Time)
    | Save(key: Key, ok: bool, at: Time)

  predicate Known(f: Setup, w: World, k: Key) {
    k in f.policy && k in w.nodes
  }

  /** Whether the event reaches executeRecovery, that is, calls TryAcquire. */
  predicate Tries(f: Setup, w: World, e: Event) {
    && e.Begin? && Known(f, w, e.key) && w.nodes[e.key].pc.Idle? && e.reading.Probed?
    && Decide(f.policy[e.key], Opened(w.nodes[e.key].stored), e.reading.h, e.reading.scores, e.at).Recover?
  }

  predicate Starts(f: Setup, w: World, e: Event) {
    Tries(f, w, e) && RL.Permits(f.limits, w.limiter, e.key, e.at)
  }

  predicate Refused(f: Setup, w: World, e: Event) {
    Tries(f, w, e) && !RL.Permits(f.limits, w.limiter, e.key, e.at)
  }

  predicate Acts(f: Setup, w: World, e: Event) {
    e.Act? && Known(f, w, e.key) && w.nodes[e.key].pc.Acting?
  }

  function Result(f: Setup, w: World, e: Event): Outcome
    requires Acts(f, w, e)
  {
    SyncState.Act(f.policy[e.key].strategy, w.nodes[e.key].pc.st, e.io)
  }

  /** The attempt ends in an error or in Failed, so the slot is given back. */
  predicate Releases(f: Setup, w: World, e: Event) {
    Acts(f, w, e) && !KeepsSlot(Result(f, w, e))
  }

  predicate DeletesPod(f: Setup, w: World, e: Event) {
    Acts(f, w, e) && Result(f, w, e).podDeleted
  }

  predicate Saves(f: Setup, w: World, e: Event) {
    e.Save? && Known(f, w, e.key) && w.nodes[e.key].pc.Saving?
  }

  predicate LosesWrite(f: Setup, w: World, e: Event) {
    Saves(f, w, e) && !e.ok
  }

  /** A started attempt whose increment never reaches the stored status. */
  predicate LosesAttempt(f: Setup, w: World, e: Event) {
    || (Acts(f, w, e) && Result(f, w, e).error)
    || (LosesWrite(f, w, e) && w.nodes[e.key].pc.st.restartCount > w.nodes[e.key].stored.restartCount)
  }

  function NextNode(f: Setup, w: World, e: Event): Node
    requires Known(f, w, e.key)
  {
    var node := w.nodes[e.key];
    match e
    case Begin(k, reading, now) =>
      if !node.pc.Idle? || reading.EarlyError? then node
      else if reading.EarlySave? then node.(pc := Saving(Opened(node.stored)))
      else
        var d := Decide(f.policy[k], Opened(node.stored), reading.h, reading.scores, now);
        if Starts(f, w, e) then node.(pc := Acting(Started(d.status)))
        else node.(pc := Saving(d.status.(lastReconcile := Some(now))))
    case Act(_, _, now) =>
      if !Acts(f, w, e) then node
      else
        var o := Result(f, w, e);
        node.(pc := if o.error then Idle else Saving(o.status.(lastReconcile := Some(now))))
    case Save(_, ok, _) =>
      if !node.pc.Saving? then node
      else Node(if ok then node.pc.st else node.stored, Idle)
  }

  /** What the event means for the limiter. */
  function OnLimiter(f: Setup, w: World, e: Event): RL.Event {
    if Tries(f, w, e) then RL.Acquire(e.key, e.at)
    else if Releases(f, w, e) then RL.Release(e.key, e.at)
    else RL.Other(e.at)
  }

  function Step(f: Setup, w: World, e: Event): World {
    if !Known(f, w, e.key) then w
    else World(w.nodes[e.key := NextNode(f, w, e)], RL.Step(f.limits, w.limiter, OnLimiter(f, w, e)))
  }

  function WorldAt(f: Setup, w0: World, es: seq<Event>, n: nat): World
    requires n <= |es|
  {
    if n == 0 then w0 else Step(f, WorldAt(f, w0, es, n - 1), es[n - 1])
  }

  ghost predicate Chronological(es: seq<Event>) {
    forall i, j :: 0 <= i <= j < |es| ==> es[i].at <= es[j].at
  }

  /** Between reconciles, with a limiter that was just created. */
  ghost predicate Start(f: Setup, w: World) {
    w.limiter == RL.EMPTY && forall k | k in w.nodes :: w.nodes[k].pc.Idle?
  }

  lemma {:induction false} SameNodes(f: Setup, w0: World, es: seq<Event>, n: nat)
    requires n <= |es|
    ensures WorldAt(f, w0, es, n).nodes.Keys == w0.nodes.Keys
  {
    hide NextNode, OnLimiter;
    if n > 0 {
      SameNodes(f, w0, es, n - 1);
      var w := WorldAt(f, w0, es, n - 1);
      if Known(f, w, es[n - 1].key) {
        assert w.nodes.Keys + {es[n - 1].key} == w.nodes.Keys;
      }
    }
  }

  // ---------------------------------------------------------------------------------------------
  // One uninterrupted reconcile
  // ---------------------------------------------------------------------------------------------

  /** A reconcile whose three steps follow one another is exactly one call of step 7 followed by the
      persist-or-lose write. */
  lemma UninterruptedReconcile(f: Setup, w: World, k: Key, h: Health, scores: seq<real>, io: PodIo, ok: bool, now: Time)
    requires Known(f, w, k) && w.nodes[k].pc.Idle?
    ensures
      var w1 := Step(f, w, Begin(k, Probed(h, scores), now));
      var w3 := Step(f, Step(f, w1, Act(k, io, now)), Save(k, ok, now));
      var e := Evaluate(f.limits, w.limiter, k, f.policy[k], Opened(w.nodes[k].stored), h, scores, io, now);
      && w3.limiter == e.limiter
      && w3.nodes[k] == Node(if e.outcome.error || !ok then w.nodes[k].stored
                             else e.outcome.status.(lastReconcile := Some(now)), Idle)
  {
    hide RL.Acquired, RL.Released, RL.Permits, Decide;
  }

  // ---------------------------------------------------------------------------------------------
  // The phase relation
  // ---------------------------------------------------------------------------------------------

  /** The phases a saved reconcile can leave behind. Syncing is entered only from an unprobed node,
      and Recovering goes back to Synced, never to Syncing. */
  predicate Edge(p: Phase, q: Phase) {
    match p
    case Unset => q in {Pending, Syncing}
    case Pending => q in {Pending, Syncing}
    case Syncing => q in {Syncing, Synced, Recovering, Failed}
    case Synced => q in {Synced, Degraded, Recovering, Failed}
    case Degraded => q in {Synced, Degraded, Recovering, Failed}
    case Recovering => q in {Synced, Recovering, Failed}
    case Failed => q in {Synced, Recovering, Failed}
  }

  /** What holds of a node at every point of every run. */
  predicate NodeOk(p: Policy, node: Node) {
    match node.pc
    case Idle => true
    case Acting(st) =>
      && node.stored.phase !in {Unset, Pending} && st.phase == Recovering
      && st.restartCount == node.stored.restartCount + 1 <= p.maxRestartAttempts
    case Saving(st) =>
      && Edge(node.stored.phase, st.phase)
      && (|| st.restartCount == node.stored.restartCount
          || st.restartCount == node.stored.restartCount + 1 <= p.maxRestartAttempts)
  }

  lemma StepKeepsNodeOk(f: Setup, w: World, e: Event)
    requires Known(f, w, e.key) && NodeOk(f.policy[e.key], w.nodes[e.key])
    ensures NodeOk(f.policy[e.key], NextNode(f, w, e))
  {
    hide RL.Permits, Critical, IsSynced, TimedOut;
  }

  lemma {:induction false} NodesOk(f: Setup, w0: World, es: seq<Event>, n: nat, k: Key)
    requires n <= |es| && Start(f, w0) && Known(f, w0, k)
    ensures Known(f, WorldAt(f, w0, es, n), k)
    ensures NodeOk(f.policy[k], WorldAt(f, w0, es, n).nodes[k])
  {
    hide NextNode, NodeOk, OnLimiter;
    SameNodes(f, w0, es, n);
    if n > 0 {
      NodesOk(f, w0, es, n - 1, k);
      if es[n - 1].key == k {
        StepKeepsNodeOk(f, WorldAt(f, w0, es, n - 1), es[n - 1]);
      }
    } else {
      IdleIsOk(f.policy[k], w0.nodes[k]);
    }
  }

  lemma IdleIsOk(p: Policy, node: Node)
    requires node.pc.Idle?
    ensures NodeOk(p, node)
  {
  }
}
