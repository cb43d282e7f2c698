/** The fleet-wide recovery limiter (internal/controller/rate_limiter.go): a cap on concurrent
    recoveries, eviction of entries older than five minutes and a per-node cooldown.

    `Acquire` and `Release` give the effect of one mutex section on the two maps; the class
    carries them out in place. The rest of the module is about whole runs: any interleaving of
    the two calls by any set of nodes. */
module RateLimiter {
  import opened Clock

  type Key = string

  const STALE_AFTER := 5 * MINUTE

  datatype Config = Config(maxConcurrent: int, cooldown: int)

  datatype State = State(active: map<Key, Time>, last: map<Key, Time>)

  const EMPTY := State(map[], map[])

  function Live(active: map<Key, Time>, now: Time): map<Key, Time> {
    map k | k in active && now - active[k] <= STALE_AFTER :: active[k]
  }

  predicate Permits(c: Config, s: State, key: Key, now: Time) {
    && |Live(s.active, now)| < c.maxConcurrent
    && (key in s.last ==> now - s.last[key] >= c.cooldown)
  }

  function Acquired(c: Config, s: State, key: Key, now: Time): State {
    var live := Live(s.active, now);
    if Permits(c, s, key, now) then State(live[key := now], s.last[key := now]) else s.(active := live)
  }

  function Released(s: State, key: Key): State {
    s.(active := s.active - {key})
  }

  class RecoveryRateLimiter {
    var activeRecoveries: map<Key, Time>
    var lastRecoveryByNode: map<Key, Time>
    const config: Config

    ghost function View(): State
      reads this
    {
      State(activeRecoveries, lastRecoveryByNode)
    }

    constructor (maxConcurrent: int, cooldown: int)
      ensures View() == EMPTY && config == Config(maxConcurrent, cooldown)
    {
      activeRecoveries, lastRecoveryByNode := map[], map[];
      config := Config(maxConcurrent, cooldown);
    }

    method TryAcquire(key: Key, now: Time) returns (granted: bool)
      modifies this
      ensures View() == Acquired(config, old(View()), key, now)
      ensures granted == Permits(config, old(View()), key, now)
    {
      EvictStale(now);
      if |activeRecoveries| >= config.maxConcurrent {
        return false;
      }
      if key in lastRecoveryByNode && now - lastRecoveryByNode[key] < config.cooldown {
        return false;
      }
      activeRecoveries := activeRecoveries[key := now];
      lastRecoveryByNode := lastRecoveryByNode[key := now];
      return true;
    }

    /** The eviction loop: visits every entry once and deletes the stale ones. */
    method EvictStale(now: Time)
      modifies this`activeRecoveries
      ensures activeRecoveries == Live(old(activeRecoveries), now)
    {
      var pending := activeRecoveries.Keys;
      while pending != {}
        invariant pending <= activeRecoveries.Keys <= old(activeRecoveries).Keys
        invariant forall k | k in activeRecoveries :: activeRecoveries[k] == old(activeRecoveries)[k]
        invariant forall k | k in old(activeRecoveries) && k !in pending ::
            k in activeRecoveries <==> now - old(activeRecoveries)[k] <= STALE_AFTER
        decreases |pending|
      {
        var k :| k in pending;
        if now - activeRecoveries[k] > STALE_AFTER {
          activeRecoveries := activeRecoveries - {k};
        }
        pending := pending - {k};
      }
    }

    method Release(key: Key)
      modifies this`activeRecoveries
      ensures View() == Released(old(View()), key)
    {
      activeRecoveries := activeRecoveries - {key};
    }

    method ActiveCount() returns (n: nat)
      ensures n == |View().active|
    {
      n := |activeRecoveries|;
    }
  }

  // ---------------------------------------------------------------------------------------------
  // Runs: each event is one mutex section; `Other` is any moment at which the limiter is untouched.
  // ---------------------------------------------------------------------------------------------

  datatype Event =
    | Acquire(key: Key, at: Time)
    | Release(key: Key, at: Time)
    | Other(at: Time)

  function Step(c: Config, s: State, e: Event): State {
    match e
    case Acquire(key, now) => Acquired(c, s, key, now)
    case Release(key, _) => Released(s, key)
    case Other(_) => s
  }

  function StateAt(c: Config, es: seq<Event>, n: nat): State
    requires n <= |es|
  {
    if n == 0 then EMPTY else Step(c, StateAt(c, es, n - 1), es[n - 1])
  }

  ghost predicate Chronological(es: seq<Event>) {
    forall i, j :: 0 <= i <= j < |es| ==> es[i].at <= es[j].at
  }

  predicate GrantAt(c: Config, es: seq<Event>, i: nat)
    requires i < |es|
  {
    es[i].Acquire? && Permits(c, StateAt(c, es, i), es[i].key, es[i].at)
  }

  predicate GrantWithin(c: Config, es: seq<Event>, i: nat, a: Time, b: Time)
    requires i < |es|
  {
    GrantAt(c, es, i) && a <= es[i].at <= b
  }

  /** The distinct nodes granted a recovery at some time in [a, b], among the first n events. */
  function GrantedNodes(c: Config, es: seq<Event>, n: nat, a: Time, b: Time): set<Key>
    requires n <= |es|
  {
    if n == 0 then {}
    else GrantedNodes(c, es, n - 1, a, b) + if GrantWithin(c, es, n - 1, a, b) then {es[n - 1].key} else {}
  }

  /** The grants in [a, b] that go to a node of `nodes`, counted with repetition. */
  function GrantCount(c: Config, es: seq<Event>, n: nat, a: Time, b: Time, nodes: set<Key>): nat
    requires n <= |es|
  {
    if n == 0 then 0
    else GrantCount(c, es, n - 1, a, b, nodes)
         + if GrantWithin(c, es, n - 1, a, b) && es[n - 1].key in nodes then 1 else 0
  }

  /** All grants in [a, b], counted with repetition. */
  function TotalGrants(c: Config, es: seq<Event>, n: nat, a: Time, b: Time): nat
    requires n <= |es|
  {
    if n == 0 then 0
    else TotalGrants(c, es, n - 1, a, b) + if GrantWithin(c, es, n - 1, a, b) then 1 else 0
  }

  predicate ReleaseWithin(e: Event, a: Time, b: Time) {
    e.Release? && a <= e.at <= b
  }

  function ReleaseCount(es: seq<Event>, n: nat, a: Time, b: Time): nat
    requires n <= |es|
  {
    if n == 0 then 0
    else ReleaseCount(es, n - 1, a, b) + if ReleaseWithin(es[n - 1], a, b) then 1 else 0
  }

  ghost function ReleasedNodes(es: seq<Event>, n: nat, a: Time, b: Time): (r: set<Key>)
    requires n <= |es|
    ensures |r| <= ReleaseCount(es, n, a, b)
  {
    if n == 0 then {}
    else ReleasedNodes(es, n - 1, a, b) + if ReleaseWithin(es[n - 1], a, b) then {es[n - 1].key} else {}
  }

  function Cap(c: Config): nat {
    if c.maxConcurrent < 0 then 0 else c.maxConcurrent
  }

  lemma SubsetSize<T>(a: set<T>, b: set<T>)
    requires a <= b
    ensures |a| <= |b|
  {
    assert b == a + (b - a);
  }

  lemma AcquireKeepsCap(c: Config, s: State, key: Key, now: Time)
    requires |s.active.Keys| <= Cap(c)
    ensures |Acquired(c, s, key, now).active.Keys| <= Cap(c)
  {
    var live := Live(s.active, now);
    assert live.Keys <= s.active.Keys;
    SubsetSize(live.Keys, s.active.Keys);
    assert live[key := now].Keys == live.Keys + {key};
  }

  lemma ReleaseKeepsCap(c: Config, s: State, key: Key)
    requires |s.active.Keys| <= Cap(c)
    ensures |Released(s, key).active.Keys| <= Cap(c)
  {
    SubsetSize((s.active - {key}).Keys, s.active.Keys);
  }

  /** The active map never exceeds the cap, at any point of any run. */
  lemma {:induction false} ActiveWithinCap(c: Config, es: seq<Event>, n: nat)
    requires n <= |es|
    ensures |StateAt(c, es, n).active.Keys| <= Cap(c)
  {
    if n > 0 {
      ActiveWithinCap(c, es, n - 1);
      match es[n - 1]
      case Acquire(key, now) => AcquireKeepsCap(c, StateAt(c, es, n - 1), key, now);
      case Release(key, _) => ReleaseKeepsCap(c, StateAt(c, es, n - 1), key);
      case Other(_) =>
    }
  }

  /** Whether `k` holds a slot that was taken no earlier than `a`. */
  predicate HeldSince(s: State, k: Key, a: Time) {
    k in s.active && a <= s.active[k]
  }

  lemma StepKeepsHeld(c: Config, s: State, e: Event, k: Key, a: Time)
    requires HeldSince(s, k, a) && e.at - a <= STALE_AFTER && a <= e.at
    ensures HeldSince(Step(c, s, e), k, a) || e == Release(k, e.at)
  {
  }

  lemma GrantHolds(c: Config, s: State, k: Key, now: Time)
    requires Permits(c, s, k, now)
    ensures HeldSince(Acquired(c, s, k, now), k, now) && Acquired(c, s, k, now).active[k] == now
  {
  }

  /** Inside a window of at most five minutes a granted node stays in the active map, with its
      start inside the window, until it is released. */
  lemma {:induction false} GrantsStayActive(c: Config, es: seq<Event>, n: nat, a: Time, b: Time, k: Key)
    requires Chronological(es) && n <= |es| && b - a <= STALE_AFTER
    requires n > 0 ==> es[n - 1].at <= b
    requires k in GrantedNodes(c, es, n, a, b)
    ensures k in ReleasedNodes(es, n, a, b) || HeldSince(StateAt(c, es, n), k, a)
  {
    hide Acquired, Permits, Released;
    var s, e := StateAt(c, es, n - 1), es[n - 1];
    if k in GrantedNodes(c, es, n - 1, a, b) {
      GrantedInWindow(c, es, n - 1, a, b, k);
      assert es[n - 2].at <= e.at;
      GrantsStayActive(c, es, n - 1, a, b, k);
      if HeldSince(s, k, a) {
        StepKeepsHeld(c, s, e, k, a);
      }
    } else {
      GrantHolds(c, s, k, e.at);
    }
  }

  /** A node counted as granted in [a, b] was granted by an event at or after `a`. */
  lemma {:induction false} GrantedInWindow(c: Config, es: seq<Event>, n: nat, a: Time, b: Time, k: Key)
    requires Chronological(es) && n <= |es| && k in GrantedNodes(c, es, n, a, b)
    ensures n > 0 && a <= es[n - 1].at
  {
    hide GrantAt;
    if k in GrantedNodes(c, es, n - 1, a, b) {
      GrantedInWindow(c, es, n - 1, a, b, k);
      assert es[n - 2].at <= es[n - 1].at;
    }
  }

  lemma UnionSize<T>(a: set<T>, b: set<T>, c: set<T>)
    requires a <= b + c
    ensures |a| <= |b| + |c|
  {
    SubsetSize(a, b + c);
  }

  /** Thundering-herd bound: over every run, the distinct nodes granted within a window of at most
      five minutes number at most the cap plus the Release calls in that window. */
  lemma {:induction false} WindowBound(c: Config, es: seq<Event>, n: nat, a: Time, b: Time)
    requires Chronological(es) && n <= |es| && b - a <= STALE_AFTER
    ensures |GrantedNodes(c, es, n, a, b)| <= Cap(c) + ReleaseCount(es, n, a, b)
  {
    hide StateAt, ReleasedNodes, GrantAt;
    if n > 0 && es[n - 1].at > b {
      WindowBound(c, es, n - 1, a, b);
    } else {
      var granted, held, freed :=
        GrantedNodes(c, es, n, a, b), StateAt(c, es, n).active.Keys, ReleasedNodes(es, n, a, b);
      forall k | k in granted ensures k in held + freed {
        GrantsStayActive(c, es, n, a, b, k);
      }
      UnionSize(granted, held, freed);
      ActiveWithinCap(c, es, n);
    }
  }

  /** A node's last grant is forgotten by no event, and only a new grant replaces it. */
  lemma RemembersStep(c: Config, s: State, e: Event, k: Key)
    ensures var s' := Step(c, s, e);
      && (k in s.last ==> k in s'.last && (s'.last[k] == s.last[k] || s'.last[k] == e.at))
      && (e == Acquire(k, e.at) && Permits(c, s, k, e.at) ==> k in s'.last && s'.last[k] == e.at)
  {
  }

  /** The last-recovery map remembers every grant, whatever is released afterwards. */
  lemma {:induction false} LastRemembersGrant(c: Config, es: seq<Event>, i: nat, n: nat)
    requires Chronological(es) && i < n <= |es| && GrantAt(c, es, i)
    ensures es[i].key in StateAt(c, es, n).last
    ensures StateAt(c, es, n).last[es[i].key] >= es[i].at
  {
    hide Step, Permits;
    RemembersStep(c, StateAt(c, es, n - 1), es[n - 1], es[i].key);
    assert es[i].at <= es[n - 1].at;
    if i < n - 1 {
      LastRemembersGrant(c, es, i, n - 1);
    }
  }

  /** Two grants to one node are at least the cooldown apart, even with Releases in between. */
  lemma CooldownSeparation(c: Config, es: seq<Event>, i: nat, j: nat)
    requires Chronological(es) && i < j < |es|
    requires GrantAt(c, es, i) && GrantAt(c, es, j) && es[i].key == es[j].key
    ensures es[j].at - es[i].at >= c.cooldown
  {
    LastRemembersGrant(c, es, i, j);
  }

  /** One node's grants in a window: the k-th one is at least k cooldowns after its start. */
  lemma {:induction false} NodeGrantsSpread(c: Config, es: seq<Event>, n: nat, a: Time, b: Time, k: Key)
    requires Chronological(es) && n <= |es| && c.cooldown > 0
    ensures var g := GrantCount(c, es, n, a, b, {k});
      g > 0 ==>
        && k in StateAt(c, es, n).last
        && a + (g - 1) * c.cooldown <= StateAt(c, es, n).last[k]
        && a + (g - 1) * c.cooldown <= b
  {
    hide Step, Permits;
    if n > 0 {
      NodeGrantsSpread(c, es, n - 1, a, b, k);
      var g := GrantCount(c, es, n - 1, a, b, {k});
      SpreadStep(c, StateAt(c, es, n - 1), es[n - 1], a + (g - 1) * c.cooldown, k);
      assert g * c.cooldown == (g - 1) * c.cooldown + c.cooldown;
    }
  }

  /** A lower bound on a node's last grant survives every event, and a new grant raises it by the
      cooldown. */
  lemma SpreadStep(c: Config, s: State, e: Event, x: Time, k: Key)
    requires c.cooldown > 0
    ensures k in s.last && x <= s.last[k] ==> k in Step(c, s, e).last && x <= Step(c, s, e).last[k]
    ensures e == Acquire(k, e.at) && Permits(c, s, k, e.at) ==>
      && k in Step(c, s, e).last && Step(c, s, e).last[k] == e.at
      && (k in s.last && x <= s.last[k] ==> e.at >= x + c.cooldown)
  {
  }

  lemma NodeGrantBound(c: Config, es: seq<Event>, n: nat, a: Time, b: Time, k: Key)
    requires Chronological(es) && n <= |es| && c.cooldown > 0 && a <= b
    ensures GrantCount(c, es, n, a, b, {k}) <= (b - a) / c.cooldown + 1
  {
    hide GrantCount, StateAt;
    NodeGrantsSpread(c, es, n, a, b, k);
    var g := GrantCount(c, es, n, a, b, {k});
    if g > 0 {
      assert (g - 1) * c.cooldown <= b - a;
      QuotientBound(g - 1, c.cooldown, b - a);
    }
  }

  lemma QuotientBound(q: nat, d: int, x: int)
    requires d > 0 && q * d <= x
    ensures q <= x / d
  {
    var r := x / d;
    assert x < (r + 1) * d;
    ProductMonotone(if r + 1 <= q then r + 1 else 0, q, d);
  }

  lemma {:induction false} GrantCountSplits(c: Config, es: seq<Event>, n: nat, a: Time, b: Time, nodes: set<Key>, k: Key)
    requires n <= |es| && k in nodes
    ensures GrantCount(c, es, n, a, b, nodes)
         == GrantCount(c, es, n, a, b, nodes - {k}) + GrantCount(c, es, n, a, b, {k})
  {
    if n > 0 {
      GrantCountSplits(c, es, n - 1, a, b, nodes, k);
    }
  }

  lemma {:induction false} GrantCountBound(c: Config, es: seq<Event>, n: nat, a: Time, b: Time, nodes: set<Key>)
    requires Chronological(es) && n <= |es| && c.cooldown > 0 && a <= b
    ensures GrantCount(c, es, n, a, b, nodes) <= |nodes| * ((b - a) / c.cooldown + 1)
    decreases |nodes|
  {
    hide GrantCount;
    if nodes == {} {
      NoNodesNoGrants(c, es, n, a, b);
    } else {
      var k :| k in nodes;
      GrantCountSplits(c, es, n, a, b, nodes, k);
      NodeGrantBound(c, es, n, a, b, k);
      GrantCountBound(c, es, n, a, b, nodes - {k});
      var m := (b - a) / c.cooldown + 1;
      assert |nodes| == |nodes - {k}| + 1;
      DistributeOne(|nodes - {k}|, m);
    }
  }

  lemma DistributeOne(x: nat, m: int)
    ensures (x + 1) * m == x * m + m
  {
  }

  lemma {:induction false} NoNodesNoGrants(c: Config, es: seq<Event>, n: nat, a: Time, b: Time)
    requires n <= |es|
    ensures GrantCount(c, es, n, a, b, {}) == 0
  {
    if n > 0 { NoNodesNoGrants(c, es, n - 1, a, b); }
  }

  lemma {:induction false} AllGrantsCounted(c: Config, es: seq<Event>, n: nat, a: Time, b: Time, nodes: set<Key>)
    requires n <= |es| && GrantedNodes(c, es, n, a, b) <= nodes
    ensures TotalGrants(c, es, n, a, b) == GrantCount(c, es, n, a, b, nodes)
  {
    if n > 0 { AllGrantsCounted(c, es, n - 1, a, b, nodes); }
  }

  lemma ProductMonotone(x: nat, y: nat, m: nat)
    requires x <= y
    ensures x * m <= y * m
  {
  }

  /** Restart-rate bound: in a window of at most five minutes the grants, repetitions included, are
      at most (cap + releases) * (window / cooldown + 1). */
  lemma TotalGrantBound(c: Config, es: seq<Event>, a: Time, b: Time)
    requires Chronological(es) && c.cooldown > 0 && 0 <= b - a <= STALE_AFTER
    ensures TotalGrants(c, es, |es|, a, b)
         <= (Cap(c) + ReleaseCount(es, |es|, a, b)) * ((b - a) / c.cooldown + 1)
  {
    hide GrantedNodes, GrantCount, TotalGrants, ReleaseCount;
    var nodes := GrantedNodes(c, es, |es|, a, b);
    var m := (b - a) / c.cooldown + 1;
    WindowBound(c, es, |es|, a, b);
    AllGrantsCounted(c, es, |es|, a, b, nodes);
    GrantCountBound(c, es, |es|, a, b, nodes);
    ProductMonotone(|nodes|, Cap(c) + ReleaseCount(es, |es|, a, b), m);
  }

  // ---------------------------------------------------------------------------------------------
  // The exact admission law, in terms of earlier grants and releases only
  // ---------------------------------------------------------------------------------------------

  /** Event i granted a slot at most five minutes before `now`, and no Release among the first n events
      followed it. */
  ghost predicate SlotTaken(c: Config, es: seq<Event>, i: nat, n: nat, now: Time)
    requires i < n <= |es|
  {
    && GrantAt(c, es, i) && now - es[i].at <= STALE_AFTER
    && forall j | i < j < n :: !(es[j].Release? && es[j].key == es[i].key)
  }

  /** The distinct nodes with such a grant. */
  ghost function SlotHolders(c: Config, es: seq<Event>, n: nat, now: Time): set<Key>
    requires n <= |es|
  {
    set i: nat | i < n && SlotTaken(c, es, i, n, now) :: es[i].key
  }

  /** Some earlier grant to `k` is less than the cooldown ago. */
  ghost predicate Cooling(c: Config, es: seq<Event>, n: nat, k: Key, now: Time)
    requires n <= |es|
  {
    exists i: nat :: i < n && GrantAt(c, es, i) && es[i].key == k && now - es[i].at < c.cooldown
  }

  /** An entry of the active map, or of the last-recovery map, is the stamp of a grant. */
  ghost predicate Stamped(c: Config, es: seq<Event>, n: nat, k: Key, at: Time, unreleased: bool)
    requires n <= |es|
  {
    exists i: nat :: i < n && GrantAt(c, es, i) && es[i].key == k && es[i].at == at
      && (unreleased ==> forall j | i < j < n :: !(es[j].Release? && es[j].key == k))
  }

  lemma EntriesOfStep(c: Config, s: State, e: Event, k: Key)
    ensures var s' := Step(c, s, e);
      && (k in s'.active ==>
            || (k in s.active && s'.active[k] == s.active[k] && !(e.Release? && e.key == k))
            || (e.Acquire? && e.key == k && Permits(c, s, k, e.at) && s'.active[k] == e.at))
      && (k in s'.last ==>
            || (k in s.last && s'.last[k] == s.last[k])
            || (e.Acquire? && e.key == k && Permits(c, s, k, e.at) && s'.last[k] == e.at))
  {
    hide Permits;
  }

  lemma {:induction false} EntriesAreGrants(c: Config, es: seq<Event>, n: nat, k: Key)
    requires n <= |es|
    ensures var s := StateAt(c, es, n);
      && (k in s.active ==> Stamped(c, es, n, k, s.active[k], true))
      && (k in s.last ==> Stamped(c, es, n, k, s.last[k], false))
  {
    hide Step, Permits, Stamped;
    if n > 0 {
      EntriesAreGrants(c, es, n - 1, k);
      var s, e := StateAt(c, es, n - 1), es[n - 1];
      EntriesOfStep(c, s, e, k);
      StampsLast(c, es, n, k, if k in s.active then s.active[k] else 0, true);
      StampsLast(c, es, n, k, if k in s.last then s.last[k] else 0, false);
    }
  }

  lemma StampsLast(c: Config, es: seq<Event>, n: nat, k: Key, at: Time, unreleased: bool)
    requires 0 < n <= |es|
    ensures Stamped(c, es, n - 1, k, at, unreleased) && !(unreleased && es[n - 1].Release? && es[n - 1].key == k) ==>
      Stamped(c, es, n, k, at, unreleased)
    ensures GrantAt(c, es, n - 1) && es[n - 1].key == k ==> Stamped(c, es, n, k, es[n - 1].at, unreleased)
  {
    hide StateAt, Permits;
  }

  /** A grant that is not stale and was not released is still in the active map. */
  lemma {:induction false} TakenStaysActive(c: Config, es: seq<Event>, i: nat, n: nat, now: Time)
    requires Chronological(es) && i < n <= |es| && es[n - 1].at <= now && SlotTaken(c, es, i, n, now)
    ensures HeldSince(StateAt(c, es, n), es[i].key, es[i].at)
  {
    hide Acquired, Released, Permits;
    var s, e := StateAt(c, es, n - 1), es[n - 1];
    if i == n - 1 {
      GrantHolds(c, s, e.key, e.at);
    } else {
      assert es[n - 2].at <= e.at;
      TakenStaysActive(c, es, i, n - 1, now);
      assert es[i].at <= e.at;
      StepKeepsHeld(c, s, e, es[i].key, es[i].at);
    }
  }

  lemma LiveAreHolders(c: Config, es: seq<Event>, n: nat, now: Time)
    requires Chronological(es) && n <= |es| && (n > 0 ==> es[n - 1].at <= now)
    ensures Live(StateAt(c, es, n).active, now).Keys == SlotHolders(c, es, n, now)
  {
    hide StateAt, Permits;
    var active := StateAt(c, es, n).active;
    forall k ensures k in Live(active, now) <==> k in SlotHolders(c, es, n, now) {
      if k in Live(active, now) {
        EntriesAreGrants(c, es, n, k);
        var i: nat :| i < n && GrantAt(c, es, i) && es[i].key == k && es[i].at == active[k]
          && forall j | i < j < n :: !(es[j].Release? && es[j].key == k);
        assert SlotTaken(c, es, i, n, now);
      }
      if k in SlotHolders(c, es, n, now) {
        var i: nat :| i < n && SlotTaken(c, es, i, n, now) && es[i].key == k;
        TakenStaysActive(c, es, i, n, now);
      }
    }
  }

  lemma LastIsCooling(c: Config, es: seq<Event>, n: nat, k: Key, now: Time)
    requires Chronological(es) && n <= |es|
    ensures var last := StateAt(c, es, n).last;
      (k in last && now - last[k] < c.cooldown) <==> Cooling(c, es, n, k, now)
  {
    hide StateAt, Permits;
    EntriesAreGrants(c, es, n, k);
    if Cooling(c, es, n, k, now) {
      var i: nat :| i < n && GrantAt(c, es, i) && es[i].key == k && now - es[i].at < c.cooldown;
      LastRemembersGrant(c, es, i, n);
    }
  }

  /** Exactly which calls are granted, over every run: an Acquire is granted iff fewer than maxConcurrent
      nodes have a grant at most five minutes old that no Release followed, and no earlier grant to the
      same node is less than the cooldown ago. */
  lemma AdmissionLaw(c: Config, es: seq<Event>, n: nat)
    requires Chronological(es) && n < |es| && es[n].Acquire?
    ensures GrantAt(c, es, n) <==>
      && |SlotHolders(c, es, n, es[n].at)| < c.maxConcurrent
      && !Cooling(c, es, n, es[n].key, es[n].at)
  {
    hide StateAt, SlotHolders, Cooling;
    if n > 0 {
      assert es[n - 1].at <= es[n].at;
    }
    LiveAreHolders(c, es, n, es[n].at);
    LastIsCooling(c, es, n, es[n].key, es[n].at);
    var live := Live(StateAt(c, es, n).active, es[n].at);
    assert |live| == |live.Keys|;
  }

  /** The five minutes are sharp: one nanosecond more and a cap of one lets two nodes through
      with no Release at all. */
  lemma WindowIsSharp()
    ensures exists c: Config, es: seq<Event>, a: Time, b: Time ::
      && Chronological(es) && b - a == STALE_AFTER + 1 && c.maxConcurrent == 1
      && |GrantedNodes(c, es, |es|, a, b)| == 2 && ReleaseCount(es, |es|, a, b) == 0
  {
    var c, b := Config(1, MINUTE), STALE_AFTER + 1;
    var es := [Acquire("x", 0), Acquire("y", b)];
    var s1 := State(map["x" := 0], map["x" := 0]);
    assert Live(map[], 0) == map[] && Live(map["x" := 0], b) == map[];
    assert StateAt(c, es, 0) == EMPTY && GrantAt(c, es, 0);
    assert StateAt(c, es, 1) == s1 by {
      assert map[]["x" := 0] == map["x" := 0];
    }
    assert GrantAt(c, es, 1);
    SharpWindowCounts(c, es, b);
  }

  lemma SharpWindowCounts(c: Config, es: seq<Event>, b: Time)
    requires b >= 0 && es == [Acquire("x", 0), Acquire("y", b)] && GrantAt(c, es, 0) && GrantAt(c, es, 1)
    ensures Chronological(es) && |GrantedNodes(c, es, 2, 0, b)| == 2 && ReleaseCount(es, 2, 0, b) == 0
  {
    hide StateAt, Permits;
    assert GrantedNodes(c, es, 1, 0, b) == {"x"};
    assert GrantedNodes(c, es, 2, 0, b) == {"x", "y"};
    assert "x"[0] != "y"[0];
    assert ReleaseCount(es, 1, 0, b) == 0;
  }
}
