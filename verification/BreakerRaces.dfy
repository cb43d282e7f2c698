/** Two laws of the method-atomic breaker that overlapping calls break: Closed only below the failure
    limit, and no probe before the timeout. For each, a failing interleaving and exactly when it fails.
    `BreakerAtRest` has two more. */
module BreakerRaces {
  import opened Clock
  import opened Options
  import opened CircuitBreaker
  import opened BreakerSteps

  // ---------------------------------------------------------------------------------------------
  // Calls that run alone within a longer run
  // ---------------------------------------------------------------------------------------------

  lemma {:induction false} AloneInRun(c: Config, es: seq<Event>, i: nat, n: nat, t: Tid, now: Time)
    requires i + n <= |es| && forall j | i <= j < i + n :: es[j] == Go(t, now)
    ensures MachineAt(c, es, i + n) == GoAlone(c, MachineAt(c, es, i), t, now, n)
  {
    hide Go1;
    if n > 0 {
      AloneInRun(c, es, i, n - 1, t, now);
      assert es[i + n - 1] == Go(t, now);
      assert MachineAt(c, es, i + n) == Next(c, MachineAt(c, es, i + n - 1), es[i + n - 1]);
    }
  }

  lemma FailureInRun(c: Config, es: seq<Event>, i: nat, t: Tid, now: Time)
    requires i + 6 <= |es| && es[i] == CallFailure(t) && forall j | i < j < i + 6 :: es[j] == Go(t, now)
    requires MachineAt(c, es, i).lock.None? && PcOf(MachineAt(c, es, i), t).Idle?
    ensures var m := MachineAt(c, es, i);
      MachineAt(c, es, i + 6) == To(m.(b := AfterFailure(c, m.b, now)), t, Idle(false))
  {
    hide Next, GoAlone;
    assert MachineAt(c, es, i + 1) == Next(c, MachineAt(c, es, i), es[i]);
    AloneInRun(c, es, i + 1, 5, t, now);
    FailureAlone(c, MachineAt(c, es, i), t, now);
  }

  lemma AllowInRun(c: Config, es: seq<Event>, i: nat, t: Tid, now: Time)
    requires i + 6 <= |es| && es[i] == CallAllow(t) && forall j | i < j < i + 6 :: es[j] == Go(t, now)
    requires MachineAt(c, es, i).lock.None? && PcOf(MachineAt(c, es, i), t).Idle?
    ensures var m := MachineAt(c, es, i);
      MachineAt(c, es, i + 6) == To(m.(b := AfterAllow(c, m.b, now)), t, Idle(Allows(c, m.b, now)))
  {
    hide Next, GoAlone;
    assert MachineAt(c, es, i + 1) == Next(c, MachineAt(c, es, i), es[i]);
    AloneInRun(c, es, i + 1, 5, t, now);
    AllowAlone(c, MachineAt(c, es, i), t, now);
  }

  lemma Unroll(c: Config, es: seq<Event>, i: nat)
    requires i < |es|
    ensures MachineAt(c, es, i + 1) == Next(c, MachineAt(c, es, i), es[i])
  {
  }

  // ---------------------------------------------------------------------------------------------
  // A Closed that was decided before a failure and stored after it
  // ---------------------------------------------------------------------------------------------

  /** "Closed only below the limit" fails once calls overlap: a success that decided to close stores
      Closed after another thread's failure was counted, and the breaker rests Closed at the limit. */
  lemma DelayedStoreBreaksLimit()
    ensures exists c: Config, es: seq<Event> ::
      var m := MachineAt(c, es, |es|);
      c.maxFailures >= 1 && Quiescent(m) && m.b.state == Closed && m.b.failures >= c.maxFailures
  {
    var c, g0, g1, g2 := Config(1, 0, 1), Go(0, 0), Go(1, 0), Go(2, 0);
    var es := [CallFailure(0), g0, g0, g0, g0, g0, CallAllow(1), g1, g1, g1, g1, g1,
               CallSuccess(1), g1, g1, CallFailure(2), g2, g2, g2, g2, g2, g1, g1];
    hide MachineAt, Quiescent;
    OpensThenProbes(c, es);
    SuccessStallsThenStores(c, es, MachineAt(c, es, 12));
  }

  lemma OpensThenProbes(c: Config, es: seq<Event>)
    requires c == Config(1, 0, 1) && |es| >= 12
    requires es[0] == CallFailure(0) && forall j | 0 < j < 6 :: es[j] == Go(0, 0)
    requires es[6] == CallAllow(1) && forall j | 6 < j < 12 :: es[j] == Go(1, 0)
    ensures MachineAt(c, es, 12)
         == Machine(Breaker(HalfOpen, true, 1, 0, 0), None, map[0 := Idle(false), 1 := Idle(true)])
  {
    assert MachineAt(c, es, 0) == Machine(Fresh(), None, map[]);
    hide MachineAt;
    FailureInRun(c, es, 0, 0, 0);
    AllowInRun(c, es, 6, 1, 0);
  }

  lemma SuccessStallsThenStores(c: Config, es: seq<Event>, m12: Machine)
    requires c == Config(1, 0, 1) && |es| == 23 && MachineAt(c, es, 12) == m12
    requires m12 == Machine(Breaker(HalfOpen, true, 1, 0, 0), None, map[0 := Idle(false), 1 := Idle(true)])
    requires es[12] == CallSuccess(1) && es[13] == es[14] == es[21] == es[22] == Go(1, 0)
    requires es[15] == CallFailure(2) && forall j | 15 < j < 21 :: es[j] == Go(2, 0)
    ensures var m := MachineAt(c, es, 23);
      Quiescent(m) && m.b.state == Closed && m.b.failures == 1
  {
    hide MachineAt;
    Unroll(c, es, 12);
    Unroll(c, es, 13);
    Unroll(c, es, 14);
    FailureInRun(c, es, 15, 2, 0);
    Unroll(c, es, 21);
    Unroll(c, es, 22);
  }

  /** A failure finds the count at the limit, and will store Open. */
  predicate Trips(c: Config, m: Machine, e: Event) {
    e.Go? && PcOf(m, e.t) == FailLoad && m.b.failures >= c.maxFailures
  }

  /** A success is the last probe: it clears the counters, and will store Closed. */
  predicate DecidesToClose(c: Config, m: Machine, e: Event) {
    e.Go? && PcOf(m, e.t) == SuccCount && m.lock.None? && m.b.successes + 1 >= c.halfOpenProbes
  }

  predicate ClearsFailures(c: Config, m: Machine, e: Event) {
    DecidesToClose(c, m, e) || (e.Go? && PcOf(m, e.t) == SuccClear && m.lock.None?)
  }

  predicate StoresOpen(m: Machine, e: Event) {
    e.Go? && PcOf(m, e.t) == FailStore
  }

  predicate StoresClosed(m: Machine, e: Event) {
    e.Go? && PcOf(m, e.t) == SuccStore
  }

  lemma LimitStep(c: Config, m: Machine, e: Event)
    requires c.maxFailures >= 1
    ensures var m' := Next(c, m, e);
      && (m'.lock.None? && m'.b.failures >= c.maxFailures ==>
            Trips(c, m, e) || (m.lock.None? && m.b.failures >= c.maxFailures && !ClearsFailures(c, m, e)))
      && (Trips(c, m, e) || (m.b.failures >= c.maxFailures && !ClearsFailures(c, m, e)) ==>
            m'.b.failures >= c.maxFailures)
  {
  }

  /** No success clears the failure count from step i up to n. */
  ghost predicate NoClear(c: Config, es: seq<Event>, i: nat, n: nat)
    requires n <= |es|
  {
    forall k | i <= k < n :: !ClearsFailures(c, MachineAt(c, es, k), es[k])
  }

  /** A count at the limit, outside the failures' lock sections, was found there by a failure. */
  lemma {:induction false} LimitWasTripped(c: Config, es: seq<Event>, n: nat) returns (l: nat)
    requires n <= |es| && c.maxFailures >= 1
    requires MachineAt(c, es, n).lock.None? && MachineAt(c, es, n).b.failures >= c.maxFailures
    ensures l < n && Trips(c, MachineAt(c, es, l), es[l]) && NoClear(c, es, l + 1, n)
  {
    hide Next, Trips, ClearsFailures;
    LimitStep(c, MachineAt(c, es, n - 1), es[n - 1]);
    if Trips(c, MachineAt(c, es, n - 1), es[n - 1]) {
      l := n - 1;
    } else {
      l := LimitWasTripped(c, es, n - 1);
    }
  }

  lemma {:induction false} TrippedLimitStays(c: Config, es: seq<Event>, l: nat, n: nat)
    requires l < n <= |es| && c.maxFailures >= 1
    requires Trips(c, MachineAt(c, es, l), es[l]) && NoClear(c, es, l + 1, n)
    ensures MachineAt(c, es, n).b.failures >= c.maxFailures
  {
    hide Next, Trips, ClearsFailures;
    LimitStep(c, MachineAt(c, es, n - 1), es[n - 1]);
    if l < n - 1 {
      TrippedLimitStays(c, es, l, n - 1);
    }
  }

  /** A failure finds the count at the limit or the breaker half-open, and will store Open. */
  predicate DecidesToOpen(c: Config, m: Machine, e: Event) {
    e.Go? && PcOf(m, e.t) == FailLoad && (m.b.failures >= c.maxFailures || m.b.state == HalfOpen)
  }

  /** Which steps lead to the two stores and which lead away from them. */
  lemma StoreMoves(c: Config, m: Machine, e: Event)
    ensures var pc, pc' := PcOf(m, e.t), PcOf(Next(c, m, e), e.t);
      && (Trips(c, m, e) ==> DecidesToOpen(c, m, e))
      && (DecidesToOpen(c, m, e) ==> pc' == FailStore)
      && (DecidesToClose(c, m, e) ==> pc' == SuccStore)
      && (pc != FailStore && pc' == FailStore ==> DecidesToOpen(c, m, e))
      && (pc != SuccStore && pc' == SuccStore ==> DecidesToClose(c, m, e))
      && (pc == FailStore && pc' != FailStore ==> StoresOpen(m, e))
      && (pc == SuccStore && pc' != SuccStore ==> StoresClosed(m, e))
  {
  }

  /** Step l is the decision of the failure whose Open is stored at k. */
  ghost predicate OwnOpen(c: Config, es: seq<Event>, l: nat, k: nat)
    requires k < |es|
  {
    && l < k && DecidesToOpen(c, MachineAt(c, es, l), es[l]) && es[k].t == es[l].t
    && StoresOpen(MachineAt(c, es, k), es[k])
    && forall x | l < x <= k :: PcOf(MachineAt(c, es, x), es[l].t) == FailStore
  }

  /** Step i is the decision of the success whose Closed is stored at j. */
  ghost predicate OwnClose(c: Config, es: seq<Event>, i: nat, j: nat)
    requires j < |es|
  {
    && i < j && DecidesToClose(c, MachineAt(c, es, i), es[i]) && es[j].t == es[i].t
    && StoresClosed(MachineAt(c, es, j), es[j])
    && forall x | i < x <= j :: PcOf(MachineAt(c, es, x), es[i].t) == SuccStore
  }

  /** A failure that decided to open has stored Open by the time its thread rests. */
  lemma OpenIsStored(c: Config, es: seq<Event>, l: nat, n: nat) returns (k: nat)
    requires l < n <= |es| && DecidesToOpen(c, MachineAt(c, es, l), es[l]) && PcOf(MachineAt(c, es, n), es[l].t).Idle?
    ensures k < n && OwnOpen(c, es, l, k)
  {
    hide Next, DecidesToOpen, StoresOpen;
    StoreMoves(c, MachineAt(c, es, l), es[l]);
    k := LeftFrom(c, es, l + 1, n, es[l].t, {FailStore});
    StoreMoves(c, MachineAt(c, es, k), es[k]);
  }

  lemma ClosedIsStored(c: Config, es: seq<Event>, i: nat, n: nat) returns (j: nat)
    requires i < n <= |es| && DecidesToClose(c, MachineAt(c, es, i), es[i]) && PcOf(MachineAt(c, es, n), es[i].t).Idle?
    ensures j < n && OwnClose(c, es, i, j)
  {
    hide Next, DecidesToClose, StoresClosed;
    StoreMoves(c, MachineAt(c, es, i), es[i]);
    j := LeftFrom(c, es, i + 1, n, es[i].t, {SuccStore});
    StoreMoves(c, MachineAt(c, es, j), es[j]);
  }

  /** Every store has a decision of its own, and its thread has waited since. */
  lemma OpenerDecided(c: Config, es: seq<Event>, k: nat) returns (l: nat)
    requires k < |es| && StoresOpen(MachineAt(c, es, k), es[k])
    ensures OwnOpen(c, es, l, k)
  {
    hide Next, MachineAt, DecidesToOpen;
    l := CameInto(c, es, k, es[k].t, {FailStore});
    Unroll(c, es, l);
    StoreMoves(c, MachineAt(c, es, l), es[l]);
  }

  lemma CloserDecided(c: Config, es: seq<Event>, j: nat) returns (i: nat)
    requires j < |es| && StoresClosed(MachineAt(c, es, j), es[j])
    ensures OwnClose(c, es, i, j)
  {
    hide Next, MachineAt, DecidesToClose;
    i := CameInto(c, es, j, es[j].t, {SuccStore});
    Unroll(c, es, i);
    StoreMoves(c, MachineAt(c, es, i), es[i]);
  }

  /** No atomic write of the state from step i up to n. */
  ghost predicate NoStateWrite(c: Config, es: seq<Event>, i: nat, n: nat)
    requires n <= |es|
  {
    forall k | i <= k < n :: !WritesState(MachineAt(c, es, k), es[k])
  }

  lemma WrittenState(c: Config, m: Machine, e: Event)
    ensures WritesState(m, e) && Next(c, m, e).b.state == Closed <==> StoresClosed(m, e)
    ensures StoresOpen(m, e) ==> WritesState(m, e) && !StoresClosed(m, e)
  {
  }

  /** Closed after an Open was stored: some success stored Closed later, and that was the last word. */
  lemma {:induction false} ClosedWasStored(c: Config, es: seq<Event>, k: nat, n: nat) returns (j: nat)
    requires k < n <= |es| && StoresOpen(MachineAt(c, es, k), es[k]) && MachineAt(c, es, n).b.state == Closed
    ensures k < j < n && StoresClosed(MachineAt(c, es, j), es[j]) && NoStateWrite(c, es, j + 1, n)
  {
    hide Next, StoresOpen, StoresClosed, WritesState;
    var m, e := MachineAt(c, es, n - 1), es[n - 1];
    StateHolds(c, m, e);
    WrittenState(c, m, e);
    if StoresClosed(m, e) {
      j := n - 1;
    } else {
      j := ClosedWasStored(c, es, k, n - 1);
    }
  }

  lemma {:induction false} StoredClosedStays(c: Config, es: seq<Event>, j: nat, n: nat)
    requires j < n <= |es| && StoresClosed(MachineAt(c, es, j), es[j]) && NoStateWrite(c, es, j + 1, n)
    ensures MachineAt(c, es, n).b.state == Closed
  {
    hide Next, StoresClosed, WritesState;
    StateHolds(c, MachineAt(c, es, n - 1), es[n - 1]);
    WrittenState(c, MachineAt(c, es, n - 1), es[n - 1]);
    if j < n - 1 {
      StoredClosedStays(c, es, j, n - 1);
    }
  }

  /** The race: a success decides at i to close; before it stores Closed at j, a failure finds the
      count at the limit at l and stores Open at k. Nothing clears the count after l or writes the
      state after j, up to n. */
  ghost predicate CloseOverridesTrip(c: Config, es: seq<Event>, n: nat, i: nat, l: nat, k: nat, j: nat)
    requires n <= |es|
  {
    && i < l < k < j < n && OwnClose(c, es, i, j) && NoStateWrite(c, es, j + 1, n)
    && OwnOpen(c, es, l, k) && Trips(c, MachineAt(c, es, l), es[l]) && NoClear(c, es, l + 1, n)
  }

  /** Exactly when the law fails: at rest, over every run, the breaker is Closed at or above the limit
      iff its last word was a delayed Closed that overrode a failure's Open. */
  lemma ClosedAtLimitIff(c: Config, es: seq<Event>, n: nat)
    requires n <= |es| && c.maxFailures >= 1 && Quiescent(MachineAt(c, es, n))
    ensures MachineAt(c, es, n).b.state == Closed && MachineAt(c, es, n).b.failures >= c.maxFailures
       <==> exists i: nat, l: nat, k: nat, j: nat :: CloseOverridesTrip(c, es, n, i, l, k, j)
  {
    hide MachineAt, Trips, DecidesToClose, DecidesToOpen, StoresOpen, StoresClosed, NoClear, NoStateWrite;
    if MachineAt(c, es, n).b.state == Closed && MachineAt(c, es, n).b.failures >= c.maxFailures {
      var i, l, k, j := LimitRace(c, es, n);
    }
    forall i: nat, l: nat, k: nat, j: nat | CloseOverridesTrip(c, es, n, i, l, k, j)
      ensures MachineAt(c, es, n).b.state == Closed && MachineAt(c, es, n).b.failures >= c.maxFailures
    {
      TrippedLimitStays(c, es, l, n);
      StoredClosedStays(c, es, j, n);
    }
  }

  lemma LimitRace(c: Config, es: seq<Event>, n: nat) returns (i: nat, l: nat, k: nat, j: nat)
    requires n <= |es| && c.maxFailures >= 1 && Quiescent(MachineAt(c, es, n))
    requires MachineAt(c, es, n).b.state == Closed && MachineAt(c, es, n).b.failures >= c.maxFailures
    ensures CloseOverridesTrip(c, es, n, i, l, k, j)
  {
    hide MachineAt, Trips, NoStateWrite, DecidesToOpen, StoresOpen, StoresClosed;
    l := LimitWasTripped(c, es, n);
    StoreMoves(c, MachineAt(c, es, l), es[l]);
    k := OpenIsStored(c, es, l, n);
    j := ClosedWasStored(c, es, k, n);
    i := CloserDecided(c, es, j);
    TripIsNoClear(c, MachineAt(c, es, l), es[l]);
    assert i < l by {
      assert ClearsFailures(c, MachineAt(c, es, i), es[i]);
    }
  }

  lemma TripIsNoClear(c: Config, m: Machine, e: Event)
    requires Trips(c, m, e)
    ensures !ClearsFailures(c, m, e)
  {
  }

  // ---------------------------------------------------------------------------------------------
  // A probe whose clock check is out of date
  // ---------------------------------------------------------------------------------------------

  /** "No probe before resetTimeout" fails too: a caller that read the clock before another thread's
      failure is recorded is let through at the very moment of that failure. */
  lemma StaleClockAdmitsEarly()
    ensures exists c: Config, es: seq<Event>, n: nat ::
      && n < |es| && c.resetTimeout == 10
      && Swaps(MachineAt(c, es, n), es[n]) && es[n].at - MachineAt(c, es, n).b.lastFailureAt < c.resetTimeout
  {
    var c, g0, g1, g2 := Config(1, 10, 1), Go(0, 0), Go(1, 10), Go(2, 10);
    var es := [CallFailure(0), g0, g0, g0, g0, g0, CallAllow(1), g1, g1, CallFailure(2), g2, g2, g2, g2, g2, g1, g1];
    hide MachineAt;
    FailureOpens(c, es);
    CallerStallsThenSwaps(c, es, MachineAt(c, es, 6));
  }

  lemma FailureOpens(c: Config, es: seq<Event>)
    requires c == Config(1, 10, 1) && |es| >= 6 && es[0] == CallFailure(0) && forall j | 0 < j < 6 :: es[j] == Go(0, 0)
    ensures MachineAt(c, es, 6) == Machine(Breaker(Open, false, 1, 0, 0), None, map[0 := Idle(false)])
  {
    assert MachineAt(c, es, 0) == Machine(Fresh(), None, map[]);
    hide MachineAt;
    FailureInRun(c, es, 0, 0, 0);
  }

  lemma CallerStallsThenSwaps(c: Config, es: seq<Event>, m6: Machine)
    requires c == Config(1, 10, 1) && |es| == 17 && MachineAt(c, es, 6) == m6
    requires m6 == Machine(Breaker(Open, false, 1, 0, 0), None, map[0 := Idle(false)])
    requires es[6] == CallAllow(1) && es[7] == es[8] == es[15] == es[16] == Go(1, 10)
    requires es[9] == CallFailure(2) && forall j | 9 < j < 15 :: es[j] == Go(2, 10)
    ensures Swaps(MachineAt(c, es, 16), es[16]) && MachineAt(c, es, 16).b.lastFailureAt == 10
  {
    hide MachineAt;
    Unroll(c, es, 6);
    Unroll(c, es, 7);
    Unroll(c, es, 8);
    FailureInRun(c, es, 9, 2, 10);
    Unroll(c, es, 15);
  }

  /** The step at which a failure is stamped. */
  predicate Stamps(m: Machine, e: Event) {
    e.Go? && PcOf(m, e.t) == FailLock && m.lock.None?
  }

  ghost predicate TimesInOrder(es: seq<Event>) {
    forall i, j :: 0 <= i <= j < |es| && es[i].Go? && es[j].Go? ==> es[i].at <= es[j].at
  }

  lemma StampStep(c: Config, m: Machine, e: Event)
    ensures Next(c, m, e).b.lastFailureAt == if Stamps(m, e) then e.at else m.b.lastFailureAt
  {
  }

  /** Between i and j the stamp is the latest failure recorded meanwhile, or the one it was. */
  lemma {:induction false} LatestStamp(c: Config, es: seq<Event>, i: nat, j: nat)
    requires i <= j <= |es| && TimesInOrder(es)
    ensures var last := MachineAt(c, es, j).b.lastFailureAt;
      && (last == MachineAt(c, es, i).b.lastFailureAt
          || exists k :: i <= k < j && Stamps(MachineAt(c, es, k), es[k]) && es[k].at == last)
      && forall k | i <= k < j && Stamps(MachineAt(c, es, k), es[k]) :: es[k].at <= last
  {
    hide Next;
    if i < j {
      LatestStamp(c, es, i, j - 1);
      StampStep(c, MachineAt(c, es, j - 1), es[j - 1]);
    }
  }

  /** The caller's clock check: it reads a last failure at least resetTimeout ago and goes on. */
  predicate PassesCheck(c: Config, m: Machine, e: Event) {
    e.Go? && PcOf(m, e.t) == AllowTime && m.lock.None? && e.at - m.b.lastFailureAt >= c.resetTimeout
  }

  lemma CheckMove(c: Config, m: Machine, e: Event)
    ensures PcOf(m, e.t) !in {AllowPermit, AllowSwap} && PcOf(Next(c, m, e), e.t) in {AllowPermit, AllowSwap} ==>
      PassesCheck(c, m, e)
  {
  }

  /** Step i is the clock check of the call that is at step j: passed by the same thread, which has
      been between the check and the swap ever since. */
  ghost predicate OwnCheck(c: Config, es: seq<Event>, i: nat, j: nat)
    requires j < |es|
  {
    && i < j && es[i].t == es[j].t && PassesCheck(c, MachineAt(c, es, i), es[i])
    && forall k | i < k <= j :: PcOf(MachineAt(c, es, k), es[j].t) in {AllowPermit, AllowSwap}
  }

  /** Every swap has exactly one clock check of its own. */
  lemma SwapHasOwnCheck(c: Config, es: seq<Event>, j: nat) returns (i: nat)
    requires j < |es| && Swaps(MachineAt(c, es, j), es[j])
    ensures OwnCheck(c, es, i, j) && forall x: nat | OwnCheck(c, es, x, j) :: x == i
  {
    hide MachineAt, Next;
    i := CameInto(c, es, j, es[j].t, {AllowPermit, AllowSwap});
    Unroll(c, es, i);
    CheckMove(c, MachineAt(c, es, i), es[i]);
  }

  /** A failure recorded after the caller's own clock check and less than resetTimeout before its swap. */
  ghost predicate Overtaken(c: Config, es: seq<Event>, j: nat, k: nat)
    requires j < |es| && es[j].Go?
  {
    && k < j && Stamps(MachineAt(c, es, k), es[k]) && es[j].at - es[k].at < c.resetTimeout
    && exists i: nat :: OwnCheck(c, es, i, j) && i < k
  }

  /** Exactly when a probe comes early, over every swap of every run: it is let in within resetTimeout
      of the last failure iff a failure overtook it between its own clock check and its swap. */
  lemma EarlyIffOvertaken(c: Config, es: seq<Event>, j: nat)
    requires j < |es| && TimesInOrder(es) && Swaps(MachineAt(c, es, j), es[j])
    ensures es[j].at - MachineAt(c, es, j).b.lastFailureAt < c.resetTimeout <==> exists k: nat :: Overtaken(c, es, j, k)
  {
    hide MachineAt;
    var i := SwapHasOwnCheck(c, es, j);
    LatestStamp(c, es, i, j);
    assert es[i].at <= es[j].at;
    if es[j].at - MachineAt(c, es, j).b.lastFailureAt < c.resetTimeout {
      var k :| i <= k < j && Stamps(MachineAt(c, es, k), es[k]) && es[k].at == MachineAt(c, es, j).b.lastFailureAt;
      assert Overtaken(c, es, j, k);
    }
  }
}
