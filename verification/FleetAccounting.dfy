/** Restart accounting over every run of the fleet: what happened to each granted attempt. */
module FleetAccounting {
  import opened SyncState
  import opened Fleet
  import RL = RateLimiter

  datatype Tally = Attempts | LostAttempts | PodDeletions | LostWrites

  predicate Happens(f: Setup, w: World, e: Event, t: Tally) {
    match t
    case Attempts => Starts(f, w, e)
    case LostAttempts => LosesAttempt(f, w, e)
    case PodDeletions => DeletesPod(f, w, e)
    case LostWrites => LosesWrite(f, w, e)
  }

  /** How often it happened to node `k` in the first n events. */
  function Count(f: Setup, w0: World, es: seq<Event>, n: nat, k: Key, t: Tally): nat
    requires n <= |es|
  {
    if n == 0 then 0
    else Count(f, w0, es, n - 1, k, t)
         + if es[n - 1].key == k && Happens(f, WorldAt(f, w0, es, n - 1), es[n - 1], t) then 1 else 0
  }

  function StoredAt(f: Setup, w0: World, es: seq<Event>, n: nat, k: Key): Status
    requires n <= |es| && k in WorldAt(f, w0, es, n).nodes
  {
    WorldAt(f, w0, es, n).nodes[k].stored
  }

  /** The increment that a reconcile in progress carries and has not saved yet. */
  function Carried(node: Node): int {
    if node.pc.Idle? then 0 else node.pc.st.restartCount - node.stored.restartCount
  }

  /** The part of it whose attempt is already over. */
  function Unsaved(node: Node): int {
    if node.pc.Saving? then Carried(node) else 0
  }

  function Bit(b: bool): nat {
    if b then 1 else 0
  }

  lemma StepBalance(f: Setup, w: World, e: Event)
    requires Known(f, w, e.key) && NodeOk(f.policy[e.key], w.nodes[e.key])
    ensures var before, after := w.nodes[e.key], NextNode(f, w, e);
      && after.stored.restartCount + Carried(after) + Bit(LosesAttempt(f, w, e))
         == before.stored.restartCount + Carried(before) + Bit(Starts(f, w, e))
      && before.stored.restartCount + Unsaved(before) + Bit(DeletesPod(f, w, e))
         <= after.stored.restartCount + Unsaved(after) + Bit(LosesWrite(f, w, e))
      && 0 <= Unsaved(after) <= Carried(after) <= 1
  {
    hide RL.Permits, Critical, IsSynced, TimedOut;
  }

  /** Every attempt the limiter ever granted to a node is accounted for: it is in the stored count,
      was lost on the way, or is still being carried. */
  lemma {:induction false} AttemptsAccounted(f: Setup, w0: World, es: seq<Event>, n: nat, k: Key)
    requires n <= |es| && Start(f, w0) && Known(f, w0, k)
    ensures Known(f, WorldAt(f, w0, es, n), k)
    ensures Count(f, w0, es, n, k, Attempts)
         == StoredAt(f, w0, es, n, k).restartCount - w0.nodes[k].stored.restartCount
            + Count(f, w0, es, n, k, LostAttempts) + Carried(WorldAt(f, w0, es, n).nodes[k])
  {
    hide NextNode, NodeOk, OnLimiter, Starts, LosesAttempt;
    NodesOk(f, w0, es, n, k);
    if n > 0 {
      AttemptsAccounted(f, w0, es, n - 1, k);
      NodesOk(f, w0, es, n - 1, k);
      if es[n - 1].key == k {
        StepBalance(f, WorldAt(f, w0, es, n - 1), es[n - 1]);
      }
    }
  }

  /** Pods deleted by recoveries are paid for by the stored count or by a failed status write. */
  lemma {:induction false} DeletionsAccounted(f: Setup, w0: World, es: seq<Event>, n: nat, k: Key)
    requires n <= |es| && Start(f, w0) && Known(f, w0, k)
    ensures Known(f, WorldAt(f, w0, es, n), k)
    ensures var node := WorldAt(f, w0, es, n).nodes[k];
      Count(f, w0, es, n, k, PodDeletions)
        <= node.stored.restartCount - w0.nodes[k].stored.restartCount
           + Count(f, w0, es, n, k, LostWrites) + Unsaved(node)
  {
    hide NextNode, NodeOk, OnLimiter, DeletesPod, LosesWrite;
    NodesOk(f, w0, es, n, k);
    if n > 0 {
      DeletionsAccounted(f, w0, es, n - 1, k);
      NodesOk(f, w0, es, n - 1, k);
      if es[n - 1].key == k {
        StepBalance(f, WorldAt(f, w0, es, n - 1), es[n - 1]);
      }
    }
  }

  lemma StepWithinBudget(f: Setup, w: World, e: Event)
    requires Known(f, w, e.key) && NodeOk(f.policy[e.key], w.nodes[e.key])
    ensures var p, before, after := f.policy[e.key], w.nodes[e.key].stored, NextNode(f, w, e).stored;
      && before.restartCount <= after.restartCount
      && (after.restartCount == before.restartCount || after.restartCount <= p.maxRestartAttempts)
      && (before.restartCount >= p.maxRestartAttempts ==> !Tries(f, w, e) && !Acts(f, w, e))
  {
    hide RL.Permits, Critical, IsSynced, TimedOut;
  }

  /** Along every run the stored count never decreases, and it never passes the budget: it stays
      where it is or ends at or below maxRestartAttempts. */
  lemma {:induction false} BudgetKept(f: Setup, w0: World, es: seq<Event>, i: nat, n: nat, k: Key)
    requires i <= n <= |es| && Start(f, w0) && Known(f, w0, k)
    ensures Known(f, WorldAt(f, w0, es, i), k) && Known(f, WorldAt(f, w0, es, n), k)
    ensures var before, after := StoredAt(f, w0, es, i, k).restartCount, StoredAt(f, w0, es, n, k).restartCount;
      before <= after && (after == before || after <= f.policy[k].maxRestartAttempts)
  {
    hide NextNode, NodeOk, OnLimiter;
    NodesOk(f, w0, es, i, k);
    NodesOk(f, w0, es, n, k);
    if i < n {
      BudgetKept(f, w0, es, i, n - 1, k);
      NodesOk(f, w0, es, n - 1, k);
      if es[n - 1].key == k {
        StepWithinBudget(f, WorldAt(f, w0, es, n - 1), es[n - 1]);
      }
    }
  }

  /** Once the stored count has used up the budget no later event of the run asks for a slot, acts on
      a pod or starts a recovery for that node, whatever phases it passes through, Synced included. */
  lemma SpentBudgetIsFinal(f: Setup, w0: World, es: seq<Event>, i: nat, j: nat, k: Key)
    requires i <= j < |es| && Start(f, w0) && Known(f, w0, k) && es[j].key == k
    requires Known(f, WorldAt(f, w0, es, i), k)
    requires StoredAt(f, w0, es, i, k).restartCount >= f.policy[k].maxRestartAttempts
    ensures var w := WorldAt(f, w0, es, j);
      !Tries(f, w, es[j]) && !Starts(f, w, es[j]) && !DeletesPod(f, w, es[j])
  {
    BudgetKept(f, w0, es, i, j, k);
    NodesOk(f, w0, es, j, k);
    StepWithinBudget(f, WorldAt(f, w0, es, j), es[j]);
  }
}
