/** The limiter's guarantees carried over to the fleet. */
module FleetLimits {
  import opened Clock
  import opened SyncState
  import opened Fleet
  import RL = RateLimiter

  /** The limiter's own view of a fleet run. */
  function Trace(f: Setup, w0: World, es: seq<Event>): (t: seq<RL.Event>)
    ensures |t| == |es|
  {
    seq(|es|, i requires 0 <= i < |es| => OnLimiter(f, WorldAt(f, w0, es, i), es[i]))
  }

  lemma TraceAt(f: Setup, w0: World, es: seq<Event>, i: nat)
    requires i < |es|
    ensures Trace(f, w0, es)[i] == OnLimiter(f, WorldAt(f, w0, es, i), es[i])
    ensures Trace(f, w0, es)[i].at == es[i].at
  {
  }

  lemma StepOnLimiter(f: Setup, w: World, e: Event)
    ensures Step(f, w, e).limiter == RL.Step(f.limits, w.limiter, OnLimiter(f, w, e))
  {
    hide RL.Acquired, RL.Released, NextNode, Decide;
  }

  lemma {:induction false} LimiterFollowsTrace(f: Setup, w0: World, es: seq<Event>, n: nat)
    requires n <= |es| && Start(f, w0)
    ensures WorldAt(f, w0, es, n).limiter == RL.StateAt(f.limits, Trace(f, w0, es), n)
  {
    hide Step, OnLimiter, RL.Step, Trace;
    if n > 0 {
      LimiterFollowsTrace(f, w0, es, n - 1);
      StepOnLimiter(f, WorldAt(f, w0, es, n - 1), es[n - 1]);
      TraceAt(f, w0, es, n - 1);
    }
  }

  /** The distinct nodes whose recovery starts in [a, b]. */
  function StartedNodes(f: Setup, w0: World, es: seq<Event>, n: nat, a: Time, b: Time): set<Key>
    requires n <= |es|
  {
    if n == 0 then {}
    else StartedNodes(f, w0, es, n - 1, a, b)
         + if Starts(f, WorldAt(f, w0, es, n - 1), es[n - 1]) && a <= es[n - 1].at <= b then {es[n - 1].key} else {}
  }

  /** The attempts in [a, b] that ended in an error or in Failed. */
  function AbortedAttempts(f: Setup, w0: World, es: seq<Event>, n: nat, a: Time, b: Time): nat
    requires n <= |es|
  {
    if n == 0 then 0
    else AbortedAttempts(f, w0, es, n - 1, a, b)
         + if Releases(f, WorldAt(f, w0, es, n - 1), es[n - 1]) && a <= es[n - 1].at <= b then 1 else 0
  }

  lemma TraceEvent(f: Setup, w0: World, es: seq<Event>, i: nat)
    requires i < |es| && Start(f, w0)
    ensures var t, w := Trace(f, w0, es), WorldAt(f, w0, es, i);
      && t[i].at == es[i].at
      && (Starts(f, w, es[i]) <==> RL.GrantAt(f.limits, t, i))
      && (Starts(f, w, es[i]) ==> t[i].key == es[i].key)
      && (Releases(f, w, es[i]) <==> t[i].Release?)
      && (t[i].Release? ==> t[i].key == es[i].key)
      && (Tries(f, w, es[i]) ==> t[i] == RL.Acquire(es[i].key, es[i].at))
  {
    hide WorldAt, RL.StateAt, Trace, RL.Permits, Decide;
    LimiterFollowsTrace(f, w0, es, i);
    TraceAt(f, w0, es, i);
  }

  lemma {:induction false} TraceCounts(f: Setup, w0: World, es: seq<Event>, n: nat, a: Time, b: Time)
    requires n <= |es| && Start(f, w0)
    ensures StartedNodes(f, w0, es, n, a, b) == RL.GrantedNodes(f.limits, Trace(f, w0, es), n, a, b)
    ensures AbortedAttempts(f, w0, es, n, a, b) == RL.ReleaseCount(Trace(f, w0, es), n, a, b)
  {
    hide WorldAt, RL.StateAt, Trace, Starts, Releases, RL.GrantAt;
    if n > 0 {
      TraceCounts(f, w0, es, n - 1, a, b);
      TraceEvent(f, w0, es, n - 1);
    }
  }

  /** Fleet-wide herd bound: whatever the nodes do, within five minutes at most maxConcurrent distinct
      nodes start a recovery, plus one for every attempt that was aborted meanwhile. */
  lemma HerdBound(f: Setup, w0: World, es: seq<Event>, a: Time, b: Time)
    requires Start(f, w0) && Chronological(es) && b - a <= RL.STALE_AFTER
    ensures |StartedNodes(f, w0, es, |es|, a, b)| <= RL.Cap(f.limits) + AbortedAttempts(f, w0, es, |es|, a, b)
  {
    hide Trace;
    TraceCounts(f, w0, es, |es|, a, b);
    TraceTimes(f, w0, es);
    RL.WindowBound(f.limits, Trace(f, w0, es), |es|, a, b);
  }

  lemma TraceTimes(f: Setup, w0: World, es: seq<Event>)
    requires Chronological(es)
    ensures RL.Chronological(Trace(f, w0, es))
  {
    hide Trace;
    var t := Trace(f, w0, es);
    forall i, j | 0 <= i <= j < |es| ensures t[i].at <= t[j].at {
      TraceAt(f, w0, es, i);
      TraceAt(f, w0, es, j);
    }
  }

  /** Two recoveries of one node start at least the cooldown apart, in every run of the fleet. */
  lemma RestartsAreSpaced(f: Setup, w0: World, es: seq<Event>, i: nat, j: nat)
    requires Start(f, w0) && Chronological(es) && i < j < |es| && es[i].key == es[j].key
    requires Starts(f, WorldAt(f, w0, es, i), es[i]) && Starts(f, WorldAt(f, w0, es, j), es[j])
    ensures es[j].at - es[i].at >= f.limits.cooldown
  {
    hide Trace, WorldAt, RL.StateAt, Starts, RL.GrantAt;
    TraceTimes(f, w0, es);
    TraceEvent(f, w0, es, i);
    TraceEvent(f, w0, es, j);
    RL.CooldownSeparation(f.limits, Trace(f, w0, es), i, j);
  }

  // ---------------------------------------------------------------------------------------------
  // Exactly who may start
  // ---------------------------------------------------------------------------------------------

  /** The recovery started by event i began at most five minutes before `now` and was not aborted. */
  ghost predicate Recent(f: Setup, w0: World, es: seq<Event>, i: nat, n: nat, now: Time)
    requires i < n <= |es|
  {
    && Starts(f, WorldAt(f, w0, es, i), es[i]) && now - es[i].at <= RL.STALE_AFTER
    && forall j | i < j < n :: !(Releases(f, WorldAt(f, w0, es, j), es[j]) && es[j].key == es[i].key)
  }

  ghost function RecentlyStarted(f: Setup, w0: World, es: seq<Event>, n: nat, now: Time): set<Key>
    requires n <= |es|
  {
    set i: nat | i < n && Recent(f, w0, es, i, n, now) :: es[i].key
  }

  ghost predicate StartedWithinCooldown(f: Setup, w0: World, es: seq<Event>, n: nat, k: Key, now: Time)
    requires n <= |es|
  {
    exists i: nat :: i < n && Starts(f, WorldAt(f, w0, es, i), es[i]) && es[i].key == k && now - es[i].at < f.limits.cooldown
  }

  lemma RecentIsTaken(f: Setup, w0: World, es: seq<Event>, i: nat, n: nat, now: Time)
    requires Start(f, w0) && i < n <= |es|
    ensures Recent(f, w0, es, i, n, now) <==> RL.SlotTaken(f.limits, Trace(f, w0, es), i, n, now)
    ensures Recent(f, w0, es, i, n, now) ==> Trace(f, w0, es)[i].Acquire? && Trace(f, w0, es)[i].key == es[i].key
  {
    hide WorldAt, Trace, Starts, Releases, RL.StateAt, RL.Permits, Tries;
    forall j | i <= j < n
      ensures var t := Trace(f, w0, es);
        && t[j].at == es[j].at
        && (Starts(f, WorldAt(f, w0, es, j), es[j]) <==> RL.GrantAt(f.limits, t, j))
        && (Starts(f, WorldAt(f, w0, es, j), es[j]) ==> t[j].key == es[j].key)
        && (Releases(f, WorldAt(f, w0, es, j), es[j]) <==> t[j].Release?)
        && (t[j].Release? ==> t[j].key == es[j].key)
    {
      TraceEvent(f, w0, es, j);
    }
  }

  lemma SameHolders(f: Setup, w0: World, es: seq<Event>, n: nat, now: Time)
    requires Start(f, w0) && n <= |es|
    ensures RecentlyStarted(f, w0, es, n, now) == RL.SlotHolders(f.limits, Trace(f, w0, es), n, now)
  {
    hide Recent, Trace, RL.StateAt, RL.Permits;
    forall i: nat | i < n
      ensures Recent(f, w0, es, i, n, now) <==> RL.SlotTaken(f.limits, Trace(f, w0, es), i, n, now)
      ensures Recent(f, w0, es, i, n, now) ==> Trace(f, w0, es)[i].Acquire? && Trace(f, w0, es)[i].key == es[i].key
    {
      RecentIsTaken(f, w0, es, i, n, now);
    }
    var a, b := RecentlyStarted(f, w0, es, n, now), RL.SlotHolders(f.limits, Trace(f, w0, es), n, now);
    forall k ensures k in a <==> k in b {
      if k in a {
        var i: nat :| i < n && Recent(f, w0, es, i, n, now) && es[i].key == k;
        assert RL.SlotTaken(f.limits, Trace(f, w0, es), i, n, now);
      }
    }
  }

  lemma SameCooling(f: Setup, w0: World, es: seq<Event>, n: nat, k: Key, now: Time)
    requires Start(f, w0) && n <= |es|
    ensures StartedWithinCooldown(f, w0, es, n, k, now) <==> RL.Cooling(f.limits, Trace(f, w0, es), n, k, now)
  {
    hide WorldAt, Trace, Starts, Releases, RL.StateAt, RL.Permits, Tries;
    forall i: nat | i < n
      ensures var t := Trace(f, w0, es);
        && t[i].at == es[i].at
        && (Starts(f, WorldAt(f, w0, es, i), es[i]) <==> RL.GrantAt(f.limits, t, i))
        && (Starts(f, WorldAt(f, w0, es, i), es[i]) ==> t[i].key == es[i].key)
    {
      TraceEvent(f, w0, es, i);
    }
  }

  /** Over every run of the fleet, a node that needs a recovery starts it iff fewer than maxConcurrent
      nodes started one in the last five minutes that was not aborted, and the node itself started none
      within the cooldown. */
  lemma StartsIff(f: Setup, w0: World, es: seq<Event>, n: nat)
    requires Start(f, w0) && Chronological(es) && n < |es| && Tries(f, WorldAt(f, w0, es, n), es[n])
    ensures Starts(f, WorldAt(f, w0, es, n), es[n]) <==>
      && |RecentlyStarted(f, w0, es, n, es[n].at)| < f.limits.maxConcurrent
      && !StartedWithinCooldown(f, w0, es, n, es[n].key, es[n].at)
  {
    hide Trace, Tries, Starts, WorldAt, RL.GrantAt, RL.SlotHolders, RL.Cooling, RecentlyStarted, StartedWithinCooldown;
    TraceTimes(f, w0, es);
    TraceEvent(f, w0, es, n);
    SameHolders(f, w0, es, n, es[n].at);
    SameCooling(f, w0, es, n, es[n].key, es[n].at);
    RL.AdmissionLaw(f.limits, Trace(f, w0, es), n);
  }

  // ---------------------------------------------------------------------------------------------
  // What becomes of a slot
  // ---------------------------------------------------------------------------------------------

  /** Event j is the Act of the attempt that the grant at i began: the node's first one after it. */
  ghost predicate SameAttempt(f: Setup, w0: World, es: seq<Event>, i: nat, j: nat)
    requires i < j <= |es|
  {
    && Starts(f, WorldAt(f, w0, es, i), es[i])
    && forall k | i < k < j :: !(es[k].Act? && es[k].key == es[i].key)
  }

  /** Some node's TryAcquire between i and j comes more than five minutes after the grant at i. */
  ghost predicate Evicted(f: Setup, w0: World, es: seq<Event>, i: nat, j: nat)
    requires i < j <= |es|
  {
    exists k :: i < k < j && Tries(f, WorldAt(f, w0, es, k), es[k]) && es[k].at - es[i].at > RL.STALE_AFTER
  }

  /** While a node acts, its slot goes only by eviction. */
  lemma HeldStep(f: Setup, w: World, e: Event, key: Key, since: Time)
    requires Known(f, w, key) && w.nodes[key].pc.Acting? && !(e.Act? && e.key == key)
    requires key in w.limiter.active ==> w.limiter.active[key] == since
    ensures var w' := Step(f, w, e);
      && Known(f, w', key) && w'.nodes[key] == w.nodes[key]
      && (key in w'.limiter.active <==> key in w.limiter.active && !(Tries(f, w, e) && e.at - since > RL.STALE_AFTER))
      && (key in w'.limiter.active ==> w'.limiter.active[key] == since)
  {
    hide Decide, RL.Permits;
  }

  lemma GrantedStep(f: Setup, w: World, e: Event)
    requires Starts(f, w, e)
    ensures var w' := Step(f, w, e);
      && Known(f, w', e.key) && w'.nodes[e.key].pc.Acting?
      && e.key in w'.limiter.active && w'.limiter.active[e.key] == e.at
  {
    hide Decide, RL.Permits;
  }

  lemma {:induction false} HeldUntilEvicted(f: Setup, w0: World, es: seq<Event>, i: nat, j: nat)
    requires i < j <= |es| && SameAttempt(f, w0, es, i, j)
    ensures var w := WorldAt(f, w0, es, j);
      && Known(f, w, es[i].key) && w.nodes[es[i].key].pc.Acting?
      && (es[i].key in w.limiter.active <==> !Evicted(f, w0, es, i, j))
      && (es[i].key in w.limiter.active ==> w.limiter.active[es[i].key] == es[i].at)
  {
    hide Step, Starts, Tries;
    var w := WorldAt(f, w0, es, j - 1);
    if i == j - 1 {
      GrantedStep(f, w, es[i]);
    } else {
      HeldUntilEvicted(f, w0, es, i, j - 1);
      HeldStep(f, w, es[j - 1], es[i].key, es[i].at);
    }
  }

  lemma ActStep(f: Setup, w: World, e: Event)
    requires e.Act? && Known(f, w, e.key) && w.nodes[e.key].pc.Acting? && NodeOk(f.policy[e.key], w.nodes[e.key])
    ensures var w' := Step(f, w, e);
      && Known(f, w', e.key)
      && (e.key in w'.limiter.active <==>
            e.key in w.limiter.active && w'.nodes[e.key].pc.Saving? && w'.nodes[e.key].pc.st.phase == Recovering)
  {
    assert !Tries(f, w, e);
  }

  predicate AboutToSave(w: World, key: Key, p: Phase) {
    key in w.nodes && w.nodes[key].pc.Saving? && w.nodes[key].pc.st.phase == p
  }

  /** Over every run, a slot taken at i is held after the attempt's Act at j iff the attempt ends
      error-free in Recovering and no other node's call evicted the slot meanwhile, which takes more
      than five minutes. */
  lemma SlotKeptIffRecovering(f: Setup, w0: World, es: seq<Event>, i: nat, j: nat)
    requires Start(f, w0) && i < j < |es| && SameAttempt(f, w0, es, i, j) && es[j].Act? && es[j].key == es[i].key
    ensures var w := WorldAt(f, w0, es, j + 1);
      && (es[i].key in w.limiter.active <==> AboutToSave(w, es[i].key, Recovering) && !Evicted(f, w0, es, i, j))
      && (Chronological(es) && es[j].at - es[i].at <= RL.STALE_AFTER ==>
            (es[i].key in w.limiter.active <==> AboutToSave(w, es[i].key, Recovering)))
  {
    hide Step, Starts, Tries, NodeOk;
    HeldUntilEvicted(f, w0, es, i, j);
    SameNodes(f, w0, es, j);
    NodesOk(f, w0, es, j, es[i].key);
    ActStep(f, WorldAt(f, w0, es, j), es[j]);
    assert WorldAt(f, w0, es, j + 1) == Step(f, WorldAt(f, w0, es, j), es[j]);
    if Chronological(es) && Evicted(f, w0, es, i, j) {
      var k :| i < k < j && Tries(f, WorldAt(f, w0, es, k), es[k]) && es[k].at - es[i].at > RL.STALE_AFTER;
      assert es[k].at <= es[j].at;
    }
  }
}
