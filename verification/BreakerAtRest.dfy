/** Two more laws of the method-atomic breaker that overlapping calls break, looked at when no call is
    under way: not Closed only at or above the failure limit, and half-open only with the permit taken.
    For each, a failing interleaving and exactly when it fails. */
module BreakerAtRest {
  import opened Options
  import opened CircuitBreaker
  import opened BreakerSteps
  import opened BreakerRaces

  // ---------------------------------------------------------------------------------------------
  // Not Closed, with fewer failures on record than the limit
  // ---------------------------------------------------------------------------------------------

  /** A success that found the breaker Closed clears the count after a failure has opened it. */
  lemma DelayedClearBreaksLimit()
    ensures exists c: Config, es: seq<Event> ::
      var m := MachineAt(c, es, |es|);
      c.maxFailures >= 1 && Quiescent(m) && m.b.state == Open && m.b.failures == 0
  {
    var c, g1, g2 := Config(1, 0, 1), Go(1, 0), Go(2, 0);
    var es := [CallSuccess(1), g1, g1, CallFailure(2), g2, g2, g2, g2, g2, g1];
    ClearIsDelayed(c, es);
  }

  lemma ClearIsDelayed(c: Config, es: seq<Event>)
    requires c == Config(1, 0, 1) && |es| == 10 && es[0] == CallSuccess(1) && es[1] == es[2] == es[9] == Go(1, 0)
    requires es[3] == CallFailure(2) && forall j | 3 < j < 9 :: es[j] == Go(2, 0)
    ensures var m := MachineAt(c, es, 10); Quiescent(m) && m.b.state == Open && m.b.failures == 0
  {
    assert MachineAt(c, es, 0) == Machine(Fresh(), None, map[]);
    hide MachineAt;
    Unroll(c, es, 0);
    Unroll(c, es, 1);
    Unroll(c, es, 2);
    FailureInRun(c, es, 3, 2, 0);
    Unroll(c, es, 9);
  }

  predicate FindsClosed(m: Machine, e: Event) {
    e.Go? && PcOf(m, e.t) == SuccReload && m.b.state == Closed
  }

  lemma ClearMove(c: Config, m: Machine, e: Event)
    ensures PcOf(m, e.t) != SuccClear && PcOf(Next(c, m, e), e.t) == SuccClear ==> FindsClosed(m, e)
  {
  }

  /** The success that clears the count at z had found the breaker Closed before k, and k is before z. */
  ghost predicate LateClear(c: Config, es: seq<Event>, y: nat, k: nat, z: nat)
    requires z < |es|
  {
    && y < k < z && FindsClosed(MachineAt(c, es, y), es[y]) && es[y].t == es[z].t
    && forall x | y < x <= z :: PcOf(MachineAt(c, es, x), es[z].t) == SuccClear
  }

  ghost predicate NoTrip(c: Config, es: seq<Event>, i: nat, n: nat)
    requires n <= |es|
  {
    forall k | i <= k < n :: !Trips(c, MachineAt(c, es, k), es[k])
  }

  ghost predicate NoClosedStore(c: Config, es: seq<Event>, i: nat, n: nat)
    requires n <= |es|
  {
    forall k | i <= k < n :: !StoresClosed(MachineAt(c, es, k), es[k])
  }

  /** The race: a failure that decided at l stores Open at k, and no Closed is stored after it; z is a
      clear of the count with no trip after it. Either the clear is late (its success had found the
      breaker Closed before k), or the Open is: the clear, or a Closed stored while the failure held on
      to the HalfOpen it had seen, falls between its decision and its store. */
  ghost predicate ClearSurvivesOpen(c: Config, es: seq<Event>, n: nat, l: nat, k: nat, z: nat)
    requires n <= |es|
  {
    && k < n && z < n && OwnOpen(c, es, l, k) && NoClosedStore(c, es, k + 1, n)
    && ClearsFailures(c, MachineAt(c, es, z), es[z]) && NoTrip(c, es, z + 1, n)
    && (|| (exists y: nat :: LateClear(c, es, y, k, z))
        || l < z < k
        || (z < l && MachineAt(c, es, l).b.state == HalfOpen
            && exists j :: l < j < k && StoresClosed(MachineAt(c, es, j), es[j])))
  }

  lemma ExitStep(c: Config, m: Machine, e: Event)
    ensures var m' := Next(c, m, e);
      && (m.b.state == Closed && m'.b.state != Closed ==> StoresOpen(m, e))
      && (m.b.state != Closed && m'.b.state == Closed <==> m.b.state != Closed && StoresClosed(m, e))
      && (StoresClosed(m, e) ==> m'.b.state == Closed)
      && (StoresOpen(m, e) ==> m'.b.state == Open)
  {
  }

  /** A breaker that is not Closed left Closed by a failure's store and has not been back since. */
  lemma {:induction false} LeftClosed(c: Config, es: seq<Event>, n: nat) returns (k: nat)
    requires n <= |es| && MachineAt(c, es, n).b.state != Closed
    ensures k < n && MachineAt(c, es, k).b.state == Closed && StoresOpen(MachineAt(c, es, k), es[k])
    ensures forall x | k < x <= n :: MachineAt(c, es, x).b.state != Closed
    ensures NoClosedStore(c, es, k + 1, n)
  {
    hide Next, StoresOpen, StoresClosed;
    ExitStep(c, MachineAt(c, es, n - 1), es[n - 1]);
    if MachineAt(c, es, n - 1).b.state == Closed {
      k := n - 1;
    } else {
      k := LeftClosed(c, es, n - 1);
    }
  }

  lemma {:induction false} OpenStays(c: Config, es: seq<Event>, k: nat, n: nat)
    requires k < n <= |es| && StoresOpen(MachineAt(c, es, k), es[k]) && NoClosedStore(c, es, k + 1, n)
    ensures MachineAt(c, es, n).b.state != Closed
  {
    hide Next, StoresOpen, StoresClosed;
    ExitStep(c, MachineAt(c, es, n - 1), es[n - 1]);
    if k < n - 1 {
      OpenStays(c, es, k, n - 1);
    }
  }

  /** Behind every breaker that is not Closed there is a failure that found the count at the limit. */
  lemma {:induction false} SomeTrip(c: Config, es: seq<Event>, n: nat) returns (l: nat)
    requires n <= |es| && MachineAt(c, es, n).b.state != Closed
    ensures l < n && Trips(c, MachineAt(c, es, l), es[l])
  {
    hide MachineAt, StoresOpen, StoresClosed;
    var k := LeftClosed(c, es, n);
    l := OpenerDecided(c, es, k);
    if !Trips(c, MachineAt(c, es, l), es[l]) {
      l := SomeTrip(c, es, l);
    }
  }

  lemma {:induction false} LastClear(c: Config, es: seq<Event>, a: nat, n: nat) returns (z: nat)
    requires n <= |es| && !NoClear(c, es, a, n)
    ensures a <= z < n && ClearsFailures(c, MachineAt(c, es, z), es[z]) && NoClear(c, es, z + 1, n)
  {
    hide MachineAt, ClearsFailures;
    if ClearsFailures(c, MachineAt(c, es, n - 1), es[n - 1]) {
      z := n - 1;
    } else {
      z := LastClear(c, es, a, n - 1);
    }
  }

  /** Below the limit at rest, after a trip: some clear came later, and no trip after that. */
  lemma ClearedSince(c: Config, es: seq<Event>, l: nat, n: nat) returns (z: nat)
    requires l < n <= |es| && c.maxFailures >= 1 && Trips(c, MachineAt(c, es, l), es[l])
    requires MachineAt(c, es, n).b.failures < c.maxFailures
    ensures z < n && ClearsFailures(c, MachineAt(c, es, z), es[z])
    ensures NoClear(c, es, z + 1, n) && NoTrip(c, es, z + 1, n)
  {
    hide MachineAt, ClearsFailures, Trips;
    if NoClear(c, es, l + 1, n) {
      TrippedLimitStays(c, es, l, n);
    }
    z := LastClear(c, es, l + 1, n);
    forall x | z + 1 <= x < n ensures !Trips(c, MachineAt(c, es, x), es[x]) {
      if Trips(c, MachineAt(c, es, x), es[x]) {
        TrippedLimitStays(c, es, x, n);
      }
    }
  }

  /** Exactly when that law fails: at rest, over every run, the breaker is not Closed although the
      failures on record are below the limit iff a clear and an Open crossed each other. */
  lemma OpenBelowLimitIff(c: Config, es: seq<Event>, n: nat)
    requires n <= |es| && c.maxFailures >= 1 && Quiescent(MachineAt(c, es, n))
    ensures MachineAt(c, es, n).b.state != Closed && MachineAt(c, es, n).b.failures < c.maxFailures
       <==> exists l: nat, k: nat, z: nat :: ClearSurvivesOpen(c, es, n, l, k, z)
  {
    hide MachineAt, Trips, StoresOpen, StoresClosed, ClearsFailures, DecidesToOpen;
    var m := MachineAt(c, es, n);
    if m.b.state != Closed && m.b.failures < c.maxFailures {
      var l, k, z := CrossedClear(c, es, n);
    }
    forall l: nat, k: nat, z: nat | ClearSurvivesOpen(c, es, n, l, k, z)
      ensures m.b.state != Closed && m.b.failures < c.maxFailures
    {
      OpenStays(c, es, k, n);
      if m.b.failures >= c.maxFailures {
        var x := LimitWasTripped(c, es, n);
        TripIsNoClear(c, MachineAt(c, es, x), es[x]);
      }
    }
  }

  lemma CrossedClear(c: Config, es: seq<Event>, n: nat) returns (l: nat, k: nat, z: nat)
    requires n <= |es| && c.maxFailures >= 1 && Quiescent(MachineAt(c, es, n))
    requires MachineAt(c, es, n).b.state != Closed && MachineAt(c, es, n).b.failures < c.maxFailures
    ensures ClearSurvivesOpen(c, es, n, l, k, z)
  {
    hide MachineAt;
    k := LeftClosed(c, es, n);
    l := OpenerDecided(c, es, k);
    var x := SomeTrip(c, es, n);
    z := ClearedSince(c, es, x, n);
    assert z != k && z != l;
    if z > k {
      var y := ClearIsLate(c, es, n, k, z);
      assert LateClear(c, es, y, k, z);
    } else if z < l {
      assert !Trips(c, MachineAt(c, es, l), es[l]);
      var j := ClosedBetween(c, es, l, k);
      assert l < j < k;
    }
  }

  /** A clear after the breaker left Closed for good: not by a success that closes it, so by one that had
      found it Closed. */
  lemma ClearIsLate(c: Config, es: seq<Event>, n: nat, k: nat, z: nat) returns (y: nat)
    requires k < z < n <= |es| && Quiescent(MachineAt(c, es, n))
    requires NoClosedStore(c, es, k + 1, n) && forall x | k < x <= n :: MachineAt(c, es, x).b.state != Closed
    requires StoresOpen(MachineAt(c, es, k), es[k]) && ClearsFailures(c, MachineAt(c, es, z), es[z])
    ensures LateClear(c, es, y, k, z)
  {
    hide MachineAt, Next, StoresClosed;
    if DecidesToClose(c, MachineAt(c, es, z), es[z]) {
      var j := ClosedIsStored(c, es, z, n);
      assert false;
    }
    y := CameInto(c, es, z, es[z].t, {SuccClear});
    Unroll(c, es, y);
    ClearMove(c, MachineAt(c, es, y), es[y]);
  }

  /** Closed at k and half-open at l: a success stored Closed in between. */
  lemma {:induction false} ClosedBetween(c: Config, es: seq<Event>, l: nat, k: nat) returns (j: nat)
    requires l < k <= |es| && MachineAt(c, es, l).b.state == HalfOpen && MachineAt(c, es, k).b.state == Closed
    ensures l <= j < k && StoresClosed(MachineAt(c, es, j), es[j])
  {
    hide Next, StoresClosed, StoresOpen;
    ExitStep(c, MachineAt(c, es, k - 1), es[k - 1]);
    if StoresClosed(MachineAt(c, es, k - 1), es[k - 1]) {
      j := k - 1;
    } else {
      j := ClosedBetween(c, es, l, k - 1);
    }
  }

  // ---------------------------------------------------------------------------------------------
  // Half-open, with the permit free
  // ---------------------------------------------------------------------------------------------

  /** A failure that has stored Open frees the permit only after the next prober took it and swapped. */
  lemma DelayedFreeLosesPermit()
    ensures exists c: Config, es: seq<Event> ::
      var m := MachineAt(c, es, |es|);
      c.maxFailures >= 1 && Quiescent(m) && m.b.state == HalfOpen && !m.b.permit
  {
    var c, g0, g1 := Config(1, 0, 1), Go(0, 0), Go(1, 0);
    var es := [CallFailure(0), g0, g0, g0, CallAllow(1), g1, g1, g1, g1, g1, g0];
    FreeIsDelayed(c, es);
  }

  lemma FreeIsDelayed(c: Config, es: seq<Event>)
    requires c == Config(1, 0, 1) && |es| == 11 && es[0] == CallFailure(0) && es[1] == es[2] == es[3] == es[10] == Go(0, 0)
    requires es[4] == CallAllow(1) && forall j | 4 < j < 10 :: es[j] == Go(1, 0)
    ensures var m := MachineAt(c, es, 11); Quiescent(m) && m.b.state == HalfOpen && !m.b.permit
  {
    hide MachineAt;
    OpenerStalls(c, es);
    AllowInRun(c, es, 4, 1, 0);
    Unroll(c, es, 10);
  }

  lemma OpenerStalls(c: Config, es: seq<Event>)
    requires c == Config(1, 0, 1) && |es| >= 4 && es[0] == CallFailure(0) && es[1] == es[2] == es[3] == Go(0, 0)
    ensures MachineAt(c, es, 4) == Machine(Breaker(Open, false, 1, 0, 0), None, map[0 := FailFree])
  {
    assert MachineAt(c, es, 0) == Machine(Fresh(), None, map[]);
    hide MachineAt;
    Unroll(c, es, 0);
    Unroll(c, es, 1);
    Unroll(c, es, 2);
    Unroll(c, es, 3);
  }

  predicate TakesPermit(m: Machine, e: Event) {
    e.Go? && PcOf(m, e.t) == AllowPermit && !m.b.permit
  }

  predicate FreesPermit(m: Machine, e: Event) {
    e.Go? && PcOf(m, e.t) in {AllowUndo, SuccFree, FailFree}
  }

  lemma PermitMoves(c: Config, m: Machine, e: Event)
    ensures var pc, pc' := PcOf(m, e.t), PcOf(Next(c, m, e), e.t);
      && Next(c, m, e).b.permit == (TakesPermit(m, e) || (m.b.permit && !FreesPermit(m, e)))
      && (TakesPermit(m, e) ==> pc' == AllowSwap)
      && (pc != AllowSwap && pc' == AllowSwap ==> TakesPermit(m, e))
      && (pc == AllowSwap && pc' != AllowSwap ==> Swaps(m, e) || pc' == AllowUndo)
      && (StoresOpen(m, e) ==> pc' == FailFree)
      && (pc in {AllowUndo, FailFree} && pc' != pc ==> FreesPermit(m, e))
  {
  }

  ghost predicate NoFree(c: Config, es: seq<Event>, i: nat, n: nat)
    requires n <= |es|
  {
    forall k | i <= k < n :: !FreesPermit(MachineAt(c, es, k), es[k])
  }

  /** Step p is where the prober that swaps at i took the permit. */
  ghost predicate OwnTake(c: Config, es: seq<Event>, p: nat, i: nat)
    requires i < |es|
  {
    && p < i && TakesPermit(MachineAt(c, es, p), es[p]) && es[p].t == es[i].t && Swaps(MachineAt(c, es, i), es[i])
    && forall x | p < x <= i :: PcOf(MachineAt(c, es, x), es[i].t) == AllowSwap
  }

  /** The race: the swap at i began the episode that is still on at n, and after its prober took the
      permit, at p, some call freed it, at j. */
  ghost predicate EpisodeLosesPermit(c: Config, es: seq<Event>, n: nat, p: nat, i: nat, j: nat)
    requires n <= |es|
  {
    && i < n && OwnTake(c, es, p, i) && NoStateWrite(c, es, i + 1, n)
    && p < j < n && FreesPermit(MachineAt(c, es, j), es[j])
  }

  lemma {:induction false} PermitWasTaken(c: Config, es: seq<Event>, n: nat) returns (q: nat)
    requires n <= |es| && MachineAt(c, es, n).b.permit
    ensures q < n && TakesPermit(MachineAt(c, es, q), es[q]) && NoFree(c, es, q + 1, n)
  {
    hide Next, TakesPermit, FreesPermit;
    PermitMoves(c, MachineAt(c, es, n - 1), es[n - 1]);
    if TakesPermit(MachineAt(c, es, n - 1), es[n - 1]) {
      q := n - 1;
    } else {
      q := PermitWasTaken(c, es, n - 1);
    }
  }

  lemma {:induction false} PermitWasFreed(c: Config, es: seq<Event>, p: nat, n: nat) returns (j: nat)
    requires p < n <= |es| && TakesPermit(MachineAt(c, es, p), es[p]) && !MachineAt(c, es, n).b.permit
    ensures p < j < n && FreesPermit(MachineAt(c, es, j), es[j])
  {
    hide Next, TakesPermit, FreesPermit;
    PermitMoves(c, MachineAt(c, es, n - 1), es[n - 1]);
    if p < n - 1 && FreesPermit(MachineAt(c, es, n - 1), es[n - 1]) {
      j := n - 1;
    } else {
      j := PermitWasFreed(c, es, p, n - 1);
    }
  }

  /** A half-open episode began with a swap. */
  lemma {:induction false} EpisodeBegan(c: Config, es: seq<Event>, n: nat) returns (i: nat)
    requires n <= |es| && MachineAt(c, es, n).b.state == HalfOpen
    ensures i < n && Swaps(MachineAt(c, es, i), es[i]) && NoStateWrite(c, es, i + 1, n)
  {
    hide Next, Swaps, StoresOpen, StoresClosed;
    StateHolds(c, MachineAt(c, es, n - 1), es[n - 1]);
    ExitStep(c, MachineAt(c, es, n - 1), es[n - 1]);
    WriteKinds(MachineAt(c, es, n - 1), es[n - 1]);
    if WritesState(MachineAt(c, es, n - 1), es[n - 1]) {
      i := n - 1;
    } else {
      i := EpisodeBegan(c, es, n - 1);
    }
  }

  lemma WriteKinds(m: Machine, e: Event)
    ensures WritesState(m, e) <==> Swaps(m, e) || StoresOpen(m, e) || StoresClosed(m, e)
  {
  }

  /** A thread that took the permit, rests, and saw nobody free it has swapped. */
  lemma TakerSwapped(c: Config, es: seq<Event>, q: nat, n: nat) returns (s: nat)
    requires q < n <= |es| && TakesPermit(MachineAt(c, es, q), es[q]) && NoFree(c, es, q + 1, n)
    requires PcOf(MachineAt(c, es, n), es[q].t).Idle?
    ensures s < n && OwnTake(c, es, q, s)
  {
    hide MachineAt, Next, TakesPermit, FreesPermit, Swaps;
    Unroll(c, es, q);
    PermitMoves(c, MachineAt(c, es, q), es[q]);
    s := LeftFrom(c, es, q + 1, n, es[q].t, {AllowSwap});
    Unroll(c, es, s);
    PermitMoves(c, MachineAt(c, es, s), es[s]);
    if !Swaps(MachineAt(c, es, s), es[s]) {
      var u := LeftFrom(c, es, s + 1, n, es[q].t, {AllowUndo});
      Unroll(c, es, u);
      PermitMoves(c, MachineAt(c, es, u), es[u]);
      assert false;
    }
  }

  /** Between a half-open episode and a later swap a failure stores Open. */
  lemma {:induction false} OpenBetween(c: Config, es: seq<Event>, a: nat, b: nat) returns (x: nat)
    requires a <= b <= |es| && MachineAt(c, es, a).b.state == HalfOpen && MachineAt(c, es, b).b.state == Open
    ensures a <= x < b && StoresOpen(MachineAt(c, es, x), es[x])
  {
    hide Next, Swaps, StoresOpen, StoresClosed;
    var m, e := MachineAt(c, es, b - 1), es[b - 1];
    StateHolds(c, m, e);
    ExitStep(c, m, e);
    WriteKinds(m, e);
    if StoresOpen(m, e) {
      x := b - 1;
    } else {
      x := OpenBetween(c, es, a, b - 1);
    }
  }

  lemma OpenerFrees(c: Config, es: seq<Event>, x: nat, n: nat) returns (y: nat)
    requires x < n <= |es| && StoresOpen(MachineAt(c, es, x), es[x]) && PcOf(MachineAt(c, es, n), es[x].t).Idle?
    ensures x < y < n && FreesPermit(MachineAt(c, es, y), es[y])
  {
    hide MachineAt, Next, FreesPermit;
    Unroll(c, es, x);
    PermitMoves(c, MachineAt(c, es, x), es[x]);
    y := LeftFrom(c, es, x + 1, n, es[x].t, {FailFree});
    Unroll(c, es, y);
    PermitMoves(c, MachineAt(c, es, y), es[y]);
  }

  /** A permit freed after the prober of the present episode took it is free at rest: whoever took it
      again has had to give it back. */
  lemma LostPermitStaysLost(c: Config, es: seq<Event>, n: nat, p: nat, i: nat, j: nat)
    requires n <= |es| && Quiescent(MachineAt(c, es, n)) && EpisodeLosesPermit(c, es, n, p, i, j)
    ensures !MachineAt(c, es, n).b.permit
  {
    hide MachineAt, FreesPermit;
    if MachineAt(c, es, n).b.permit {
      var q := PermitWasTaken(c, es, n);
      assert q != j by { TakeIsNoFree(MachineAt(c, es, q), es[q]); }
      assert p < j < q;
      var s := TakerSwapped(c, es, q, n);
      assert s < i;
      SwapMakesHalfOpen(c, es, s);
      var x := OpenBetween(c, es, s + 1, i);
      var y := OpenerFrees(c, es, x, n);
      assert false;
    }
  }

  lemma TakeIsNoFree(m: Machine, e: Event)
    requires TakesPermit(m, e)
    ensures !FreesPermit(m, e)
  {
  }

  lemma SwapMakesHalfOpen(c: Config, es: seq<Event>, s: nat)
    requires s < |es| && Swaps(MachineAt(c, es, s), es[s])
    ensures MachineAt(c, es, s + 1).b.state == HalfOpen
  {
    Unroll(c, es, s);
    StateHolds(c, MachineAt(c, es, s), es[s]);
  }

  /** Exactly when that law fails: at rest, over every run, the breaker is half-open with the permit
      free iff some call freed it after the prober of the present episode took it. (The converse law
      never fails at rest: a permit that is taken means half-open.) */
  lemma HalfOpenWithoutPermitIff(c: Config, es: seq<Event>, n: nat)
    requires n <= |es| && Quiescent(MachineAt(c, es, n))
    ensures MachineAt(c, es, n).b.state == HalfOpen && !MachineAt(c, es, n).b.permit
       <==> exists p: nat, i: nat, j: nat :: EpisodeLosesPermit(c, es, n, p, i, j)
    ensures MachineAt(c, es, n).b.permit ==> MachineAt(c, es, n).b.state == HalfOpen
  {
    PermitNeverLeaks(c, es, n);
    hide MachineAt, Next, FreesPermit, TakesPermit;
    if MachineAt(c, es, n).b.state == HalfOpen && !MachineAt(c, es, n).b.permit {
      var i := EpisodeBegan(c, es, n);
      var p := CameInto(c, es, i, es[i].t, {AllowSwap});
      Unroll(c, es, p);
      PermitMoves(c, MachineAt(c, es, p), es[p]);
      var j := PermitWasFreed(c, es, p, n);
      assert EpisodeLosesPermit(c, es, n, p, i, j);
    }
    forall p: nat, i: nat, j: nat | EpisodeLosesPermit(c, es, n, p, i, j)
      ensures MachineAt(c, es, n).b.state == HalfOpen && !MachineAt(c, es, n).b.permit
    {
      LostPermitStaysLost(c, es, n, p, i, j);
      EpisodeLasts(c, es, i, n);
    }
  }

  lemma {:induction false} EpisodeLasts(c: Config, es: seq<Event>, i: nat, n: nat)
    requires i < n <= |es| && Swaps(MachineAt(c, es, i), es[i]) && NoStateWrite(c, es, i + 1, n)
    ensures MachineAt(c, es, n).b.state == HalfOpen
  {
    hide Next, Swaps, WritesState;
    StateHolds(c, MachineAt(c, es, n - 1), es[n - 1]);
    if i < n - 1 {
      EpisodeLasts(c, es, i, n - 1);
    }
  }
}
