/** The breaker with clients that record an outcome only for a call that was let through, in every
    interleaving of their atomic operations: when can a breaker that opened close again?

    A client is between its Allow and its record while its thread is at Idle(true). It may also drop its
    call, as reconcileWithAnalytics does when no detector is configured: it then just asks again. */
module BreakerClients {
  import opened Clock
  import opened Options
  import opened CircuitBreaker
  import opened BreakerSteps
  import opened BreakerRaces

  predicate Legal(m: Machine, e: Event) {
    e.CallSuccess? || e.CallFailure? ==> PcOf(m, e.t) == Idle(true)
  }

  ghost predicate LegalRun(c: Config, es: seq<Event>) {
    forall i | 0 <= i < |es| :: Legal(MachineAt(c, es, i), es[i])
  }

  function End(c: Config, es: seq<Event>): Machine {
    MachineAt(c, es, |es|)
  }

  function Threads(m: Machine, S: set<Pc>): set<Tid> {
    set t | t in m.pcs && m.pcs[t] in S
  }

  /** The calls let through whose outcome is not recorded yet. */
  function Pending(m: Machine): set<Tid> {
    Threads(m, {Idle(true)})
  }

  // ---------------------------------------------------------------------------------------------
  // The successes that can still be collected
  // ---------------------------------------------------------------------------------------------

  const MAY_SUCCEED := {Idle(true), SuccLoad, SuccCount}
  const PROBER := {AllowReset}
  const FAILING := {FailLock, FailLoad, FailStore}

  function Bit(b: bool): nat {
    if b then 1 else 0
  }

  function Max(x: int, y: int): int {
    if x < y then y else x
  }

  /** With the count as it is, or with a count that starts at zero in this episode or the next. */
  function Weigh(b: Breaker, able: nat, probers: nat, failing: nat): int {
    Max(b.successes + able, able + probers + failing + Bit(b.state != HalfOpen))
  }

  /** The count that the breaker can reach at most, from `m` on and before it closes. */
  function Reach(m: Machine): int {
    Weigh(m.b, |Threads(m, MAY_SUCCEED)|, |Threads(m, PROBER)|, |Threads(m, FAILING)|)
  }

  /** A breaker with no use for probes still needs one success to close. */
  function Needed(c: Config): int {
    Max(c.halfOpenProbes, 1)
  }

  /** How many threads are in S changes with the moving thread alone. */
  lemma CountStep(c: Config, m: Machine, e: Event, S: set<Pc>)
    requires Idle(false) !in S
    ensures var m' := Next(c, m, e);
      && |Threads(m', S)| + Bit(PcOf(m, e.t) in S) == |Threads(m, S)| + Bit(PcOf(m', e.t) in S)
      && |Threads(m, S)| >= Bit(PcOf(m, e.t) in S)
  {
    hide Next, PcOf, Threads;
    var m' := Next(c, m, e);
    var before, after := Threads(m, S), Threads(m', S);
    forall t: Tid ensures (t in before <==> PcOf(m, t) in S) && (t != e.t ==> (t in before <==> t in after)) {
      ThreadAt(m, t, S);
      ThreadAt(m', t, S);
      if t != e.t {
        OthersStay(c, m, e, t);
      }
    }
    ThreadAt(m', e.t, S);
    assert before - {e.t} == after - {e.t};
    SizeWith(before, e.t);
    SizeWith(after, e.t);
  }

  lemma ThreadAt(m: Machine, t: Tid, S: set<Pc>)
    requires Idle(false) !in S
    ensures t in Threads(m, S) <==> PcOf(m, t) in S
  {
  }

  lemma SizeWith(s: set<Tid>, t: Tid)
    ensures |s| == |s - {t}| + Bit(t in s)
  {
    if t in s {
      assert s == (s - {t}) + {t};
    } else {
      assert s == s - {t};
    }
  }

  /** One step, in numbers: `able`, `probers` and `failing` count the threads before it, the moving one
      included. */
  predicate WeightFalls(c: Config, m: Machine, e: Event, able: nat, probers: nat, failing: nat) {
    var m' := Next(c, m, e);
    var pc, pc' := PcOf(m, e.t), PcOf(m', e.t);
    var able', probers', failing' := able - Bit(pc in MAY_SUCCEED) + Bit(pc' in MAY_SUCCEED),
      probers - Bit(pc in PROBER) + Bit(pc' in PROBER), failing - Bit(pc in FAILING) + Bit(pc' in FAILING);
    && m'.b.state != Closed && able' >= 0 && probers' >= 0 && failing' >= 0
    && Weigh(m'.b, able', probers', failing') <= Weigh(m.b, able, probers, failing)
    && (pc' == SuccStore ==> Weigh(m.b, able, probers, failing) >= Needed(c))
  }

  predicate Counted(m: Machine, t: Tid, able: nat, probers: nat, failing: nat) {
    && able >= Bit(PcOf(m, t) in MAY_SUCCEED) && probers >= Bit(PcOf(m, t) in PROBER)
    && failing >= Bit(PcOf(m, t) in FAILING)
  }

  lemma WeightOfCall(c: Config, m: Machine, e: Event, able: nat, probers: nat, failing: nat)
    requires Legal(m, e) && m.b.state != Closed && PcOf(m, e.t) != SuccStore && Counted(m, e.t, able, probers, failing)
    requires !e.Go? || PcOf(m, e.t).Idle?
    ensures WeightFalls(c, m, e, able, probers, failing)
  {
  }

  lemma WeightOfAllow(c: Config, m: Machine, e: Event, able: nat, probers: nat, failing: nat)
    requires e.Go? && m.b.state != Closed && Counted(m, e.t, able, probers, failing)
    requires PcOf(m, e.t) in {AllowLoad, AllowTime, AllowPermit, AllowSwap, AllowReset, AllowUndo}
    ensures WeightFalls(c, m, e, able, probers, failing)
  {
  }

  lemma WeightOfSuccess(c: Config, m: Machine, e: Event, able: nat, probers: nat, failing: nat)
    requires e.Go? && m.b.state != Closed && Counted(m, e.t, able, probers, failing)
    requires PcOf(m, e.t) in {SuccLoad, SuccCount, SuccFree, SuccReload, SuccClear}
    ensures WeightFalls(c, m, e, able, probers, failing)
  {
  }

  lemma WeightOfFailure(c: Config, m: Machine, e: Event, able: nat, probers: nat, failing: nat)
    requires e.Go? && m.b.state != Closed && Counted(m, e.t, able, probers, failing)
    requires PcOf(m, e.t) in {FailLock, FailLoad, FailStore, FailFree}
    ensures WeightFalls(c, m, e, able, probers, failing)
  {
  }

  lemma WeightStep(c: Config, m: Machine, e: Event, able: nat, probers: nat, failing: nat)
    requires Legal(m, e) && m.b.state != Closed && PcOf(m, e.t) != SuccStore && Counted(m, e.t, able, probers, failing)
    ensures WeightFalls(c, m, e, able, probers, failing)
  {
    hide WeightFalls, Next, Counted;
    if !e.Go? || PcOf(m, e.t).Idle? {
      WeightOfCall(c, m, e, able, probers, failing);
    } else if PcOf(m, e.t) in {AllowLoad, AllowTime, AllowPermit, AllowSwap, AllowReset, AllowUndo} {
      WeightOfAllow(c, m, e, able, probers, failing);
    } else if PcOf(m, e.t) in {FailLock, FailLoad, FailStore, FailFree} {
      WeightOfFailure(c, m, e, able, probers, failing);
    } else {
      WeightOfSuccess(c, m, e, able, probers, failing);
    }
  }

  /** While the breaker is neither Closed nor about to be, its reach never rises; and only a reach of
      halfOpenProbes lets a success decide to close it. */
  lemma ReachNeverRises(c: Config, m: Machine, e: Event)
    requires Legal(m, e) && m.b.state != Closed && Threads(m, {SuccStore}) == {}
    ensures var m' := Next(c, m, e);
      && m'.b.state != Closed && Reach(m') <= Reach(m)
      && (Threads(m', {SuccStore}) != {} ==> Reach(m) >= Needed(c))
  {
    hide Next, Threads, PcOf, Weigh, Needed, Legal;
    ThreadAt(m, e.t, {SuccStore});
    CountStep(c, m, e, MAY_SUCCEED);
    CountStep(c, m, e, PROBER);
    CountStep(c, m, e, FAILING);
    CountStep(c, m, e, {SuccStore});
    WeightStep(c, m, e, |Threads(m, MAY_SUCCEED)|, |Threads(m, PROBER)|, |Threads(m, FAILING)|);
  }

  /** Over every interleaving of legal clients: a breaker whose reach is below what it needs is not
      Closed at any later point, however often it reopens. */
  lemma {:induction false} NeverRecloses(c: Config, es: seq<Event>, i: nat, n: nat)
    requires LegalRun(c, es) && i <= n <= |es|
    requires var m := MachineAt(c, es, i);
      m.b.state != Closed && Threads(m, {SuccStore}) == {} && Reach(m) < Needed(c)
    ensures var m := MachineAt(c, es, n);
      m.b.state != Closed && Threads(m, {SuccStore}) == {} && Reach(m) <= Reach(MachineAt(c, es, i))
  {
    hide Next, Reach, Threads, Legal;
    if i < n {
      NeverRecloses(c, es, i, n - 1);
      ReachNeverRises(c, MachineAt(c, es, n - 1), es[n - 1]);
    }
  }

  lemma CountedStep(c: Config, m: Machine, e: Event)
    requires m.b.successes < Needed(c)
    ensures Next(c, m, e).b.successes < Needed(c)
  {
  }

  lemma {:induction false} CountBelowNeeded(c: Config, es: seq<Event>, n: nat)
    requires n <= |es|
    ensures MachineAt(c, es, n).b.successes < Needed(c)
  {
    hide Next;
    if n > 0 {
      CountBelowNeeded(c, es, n - 1);
      CountedStep(c, MachineAt(c, es, n - 1), es[n - 1]);
    }
  }

  lemma ReachAtRest(m: Machine)
    requires Quiescent(m)
    ensures Threads(m, {SuccStore}) == {}
    ensures Reach(m) == Max(m.b.successes + |Pending(m)|, |Pending(m)| + Bit(m.b.state != HalfOpen))
  {
    assert forall t | t in m.pcs :: PcOf(m, t).Idle?;
    assert Threads(m, MAY_SUCCEED) == Pending(m);
    assert Threads(m, PROBER) == {} && Threads(m, FAILING) == {};
  }

  // ---------------------------------------------------------------------------------------------
  // Runs that go on
  // ---------------------------------------------------------------------------------------------

  /** A legal run whose clock has not passed `now`. */
  ghost predicate Ready(c: Config, es: seq<Event>, now: Time) {
    && LegalRun(c, es) && TimesInOrder(es)
    && forall i | 0 <= i < |es| && es[i].Go? :: es[i].at <= now
  }

  lemma {:induction false} SameBefore(c: Config, es: seq<Event>, es': seq<Event>, n: nat)
    requires n <= |es| && es <= es'
    ensures MachineAt(c, es', n) == MachineAt(c, es, n)
  {
    hide Next;
    if n > 0 { SameBefore(c, es, es', n - 1); }
  }

  lemma Append(c: Config, es: seq<Event>, e: Event, now: Time)
    requires Ready(c, es, now) && Legal(End(c, es), e) && (e.Go? ==> e.at == now)
    ensures Ready(c, es + [e], now) && End(c, es + [e]) == Next(c, End(c, es), e)
  {
    hide LegalRun, Legal, Next, MachineAt, End, TimesInOrder;
    AppendStep(c, es, e);
    AppendLegal(c, es, e);
    AppendTimes(es, e, now);
  }

  lemma AppendStep(c: Config, es: seq<Event>, e: Event)
    ensures End(c, es + [e]) == Next(c, End(c, es), e)
  {
    hide Next;
    SameBefore(c, es, es + [e], |es|);
  }

  lemma AppendLegal(c: Config, es: seq<Event>, e: Event)
    requires LegalRun(c, es) && Legal(End(c, es), e)
    ensures LegalRun(c, es + [e])
  {
    hide MachineAt, Legal;
    var es' := es + [e];
    forall i | 0 <= i < |es'| ensures Legal(MachineAt(c, es', i), es'[i]) {
      SameBefore(c, es, es', i);
      if i < |es| {
        assert es'[i] == es[i];
      } else {
        assert es'[i] == e;
      }
    }
  }

  lemma AppendTimes(es: seq<Event>, e: Event, now: Time)
    requires TimesInOrder(es) && (e.Go? ==> e.at == now) && forall i | 0 <= i < |es| && es[i].Go? :: es[i].at <= now
    ensures TimesInOrder(es + [e])
    ensures forall i | 0 <= i < |es + [e]| && (es + [e])[i].Go? :: (es + [e])[i].at <= now
  {
  }

  /** Thread t goes on alone for n steps. */
  lemma {:induction false} GoOn(c: Config, es: seq<Event>, t: Tid, now: Time, n: nat) returns (es': seq<Event>)
    requires Ready(c, es, now)
    ensures es <= es' && Ready(c, es', now) && End(c, es') == GoAlone(c, End(c, es), t, now, n)
  {
    hide Ready, End, Go1;
    if n == 0 {
      es' := es;
    } else {
      es' := GoOn(c, es, t, now, n - 1);
      GoIsLegal(End(c, es'), t, now);
      Append(c, es', Go(t, now), now);
      es' := es' + [Go(t, now)];
    }
  }

  lemma GoIsLegal(m: Machine, t: Tid, now: Time)
    ensures Legal(m, Go(t, now))
  {
  }

  /** A call and the first n of its operations, with nobody in between. */
  lemma CallAlone(c: Config, es: seq<Event>, call: Event, now: Time, n: nat) returns (es': seq<Event>)
    requires Ready(c, es, now) && Legal(End(c, es), call) && !call.Go?
    ensures es <= es' && Ready(c, es', now)
    ensures End(c, es') == GoAlone(c, Next(c, End(c, es), call), call.t, now, n)
  {
    hide Ready, End, Next, GoAlone;
    Append(c, es, call, now);
    es' := GoOn(c, es + [call], call.t, now, n);
  }

  // ---------------------------------------------------------------------------------------------
  // Closing
  // ---------------------------------------------------------------------------------------------

  /** The run `es'` goes on from `es` and closes the breaker; on the way it may reopen. */
  ghost predicate ClosesAfter(c: Config, es: seq<Event>, es': seq<Event>) {
    es <= es' && LegalRun(c, es') && TimesInOrder(es') && End(c, es').b.state == Closed
  }

  ghost predicate CanClose(c: Config, es: seq<Event>) {
    exists es' :: ClosesAfter(c, es, es')
  }

  /** Half-open, and enough of the pending calls P succeed, one after the other. */
  lemma {:induction false} CloseBySuccesses(c: Config, es: seq<Event>, P: set<Tid>, now: Time) returns (es': seq<Event>)
    requires Ready(c, es, now) && End(c, es).lock.None? && End(c, es).b.state == HalfOpen
    requires P != {} && forall t | t in P :: PcOf(End(c, es), t) == Idle(true)
    requires End(c, es).b.successes + |P| >= c.halfOpenProbes
    ensures es <= es' && Ready(c, es', now) && End(c, es').b.state == Closed
    decreases |P|
  {
    hide Ready, End, Next, GoAlone;
    var t :| t in P;
    var m := End(c, es);
    es' := CallAlone(c, es, CallSuccess(t), now, 5);
    SuccessAlone(c, m, t, now);
    if End(c, es').b.state != Closed {
      var rest := P - {t};
      assert |P| == |rest| + 1;
      es' := CloseBySuccesses(c, es', rest, now);
    }
  }

  lemma {:induction false} ClockBound(es: seq<Event>, least: Time) returns (now: Time)
    ensures now >= least && forall i | 0 <= i < |es| && es[i].Go? :: es[i].at <= now
  {
    if es == [] {
      now := least;
    } else {
      now := ClockBound(es[..|es| - 1], least);
      var e := es[|es| - 1];
      now := if e.Go? && e.at > now then e.at else now;
    }
  }

  lemma {:induction false} NewThread(s: set<Tid>) returns (t: Tid)
    ensures forall u | u in s :: u < t
  {
    if s == {} {
      t := 0;
    } else {
      var u :| u in s;
      t := NewThread(s - {u});
      assert forall v | v in s :: v == u || v in s - {u};
      t := if t <= u then u + 1 else t;
    }
  }

  /** An Allow that stops right after its swap, before it resets the count. */
  lemma SwapAlone(c: Config, m: Machine, t: Tid, now: Time)
    requires m.lock.None? && PcOf(m, t).Idle? && m.b.state == Open && !m.b.permit
    requires now - m.b.lastFailureAt >= c.resetTimeout
    ensures GoAlone(c, Next(c, m, CallAllow(t)), t, now, 4)
         == To(m.(b := m.b.(state := HalfOpen, permit := true)), t, AllowReset)
  {
    hide GoAlone;
    FourSteps(c, Next(c, m, CallAllow(t)), t, now);
  }

  lemma FourSteps(c: Config, m: Machine, t: Tid, now: Time)
    ensures GoAlone(c, m, t, now, 4) == Go1(c, Go1(c, Go1(c, Go1(c, m, t, now), t, now), t, now), t, now)
  {
    hide Go1;
    assert GoAlone(c, m, t, now, 1) == Go1(c, m, t, now);
    assert GoAlone(c, m, t, now, 2) == Go1(c, Go1(c, m, t, now), t, now);
  }

  lemma PendingAt(m: Machine, t: Tid)
    ensures t in Pending(m) <==> PcOf(m, t) == Idle(true)
  {
  }

  /** Half-open at rest: the breaker can be Closed again, in some run of legal clients, reopened or not,
      iff a call is pending and the recorded successes plus the pending calls reach halfOpenProbes. */
  lemma CanCloseIff(c: Config, es: seq<Event>)
    requires LegalRun(c, es) && TimesInOrder(es) && Quiescent(End(c, es)) && End(c, es).b.state == HalfOpen
    ensures var m := End(c, es);
      CanClose(c, es) <==> |Pending(m)| > 0 && m.b.successes + |Pending(m)| >= c.halfOpenProbes
  {
    hide MachineAt, Reach, Pending, Legal;
    var m := End(c, es);
    if |Pending(m)| > 0 && m.b.successes + |Pending(m)| >= c.halfOpenProbes {
      forall t: Tid ensures t in Pending(m) <==> PcOf(m, t) == Idle(true) {
        PendingAt(m, t);
      }
      var now := ClockBound(es, 0);
      var es' := CloseBySuccesses(c, es, Pending(m), now);
      assert ClosesAfter(c, es, es');
    } else {
      ReachAtRest(m);
      CountBelowNeeded(c, es, |es|);
      StuckBelowReach(c, es);
    }
  }

  lemma StuckBelowReach(c: Config, es: seq<Event>)
    requires var m := End(c, es);
      m.b.state != Closed && Threads(m, {SuccStore}) == {} && Reach(m) < Needed(c)
    ensures !CanClose(c, es)
  {
    hide MachineAt, Reach, Threads;
    forall es' | ClosesAfter(c, es, es') ensures false {
      SameBefore(c, es, es', |es|);
      NeverRecloses(c, es', |es|, |es'|);
    }
  }

  /** Open at rest: it can iff the pending calls and the one probe of the next episode reach
      halfOpenProbes, or the pending calls do together with the successes left over from an earlier
      episode, which nothing resets until the next prober gets past its swap. */
  lemma OpenCanCloseIff(c: Config, es: seq<Event>)
    requires LegalRun(c, es) && TimesInOrder(es) && Quiescent(End(c, es)) && End(c, es).b.state == Open
    ensures var m := End(c, es);
      var p := |Pending(m)|;
      CanClose(c, es) <==> p + 1 >= c.halfOpenProbes || (p >= 1 && m.b.successes + p >= c.halfOpenProbes)
  {
    hide MachineAt, Reach, Pending, Legal;
    var m := End(c, es);
    if |Pending(m)| + 1 >= c.halfOpenProbes {
      var es' := CloseByProbe(c, es);
      assert ClosesAfter(c, es, es');
    } else if |Pending(m)| >= 1 && m.b.successes + |Pending(m)| >= c.halfOpenProbes {
      var es' := CloseByLeftovers(c, es);
      assert ClosesAfter(c, es, es');
    } else {
      ReachAtRest(m);
      CountBelowNeeded(c, es, |es|);
      StuckBelowReach(c, es);
    }
  }

  /** The moment and the thread for the next probe. */
  lemma NextProbe(c: Config, es: seq<Event>) returns (u: Tid, now: Time)
    requires LegalRun(c, es) && TimesInOrder(es) && Quiescent(End(c, es)) && End(c, es).b.state == Open
    ensures var m := End(c, es);
      u !in m.pcs && u !in Pending(m) && Ready(c, es, now) && now - m.b.lastFailureAt >= c.resetTimeout && !m.b.permit
  {
    hide MachineAt, Legal;
    var m := End(c, es);
    PermitNeverLeaks(c, es, |es|);
    u := NewThread(m.pcs.Keys);
    now := ClockBound(es, m.b.lastFailureAt + c.resetTimeout);
  }

  lemma CloseByProbe(c: Config, es: seq<Event>) returns (es': seq<Event>)
    requires LegalRun(c, es) && TimesInOrder(es) && Quiescent(End(c, es)) && End(c, es).b.state == Open
    requires |Pending(End(c, es))| + 1 >= c.halfOpenProbes
    ensures ClosesAfter(c, es, es')
  {
    hide MachineAt, Pending, GoAlone, Legal;
    var m := End(c, es);
    var u, now := NextProbe(c, es);
    CallIsLegal(m, u);
    es' := CallAlone(c, es, CallAllow(u), now, 5);
    AllowAlone(c, m, u, now);
    var P := Pending(m) + {u};
    forall t | t in P ensures PcOf(End(c, es'), t) == Idle(true) {
      PendingAt(m, t);
    }
    es' := CloseBySuccesses(c, es', P, now);
  }

  lemma CallIsLegal(m: Machine, t: Tid)
    ensures Legal(m, CallAllow(t))
  {
  }

  lemma CloseByLeftovers(c: Config, es: seq<Event>) returns (es': seq<Event>)
    requires LegalRun(c, es) && TimesInOrder(es) && Quiescent(End(c, es)) && End(c, es).b.state == Open
    requires |Pending(End(c, es))| >= 1 && End(c, es).b.successes + |Pending(End(c, es))| >= c.halfOpenProbes
    ensures ClosesAfter(c, es, es')
  {
    hide MachineAt, Pending, GoAlone, Legal;
    var m := End(c, es);
    var u, now := NextProbe(c, es);
    CallIsLegal(m, u);
    es' := CallAlone(c, es, CallAllow(u), now, 4);
    SwapAlone(c, m, u, now);
    forall t | t in Pending(m) ensures PcOf(End(c, es'), t) == Idle(true) {
      PendingAt(m, t);
    }
    es' := CloseBySuccesses(c, es', Pending(m), now);
  }

  // ---------------------------------------------------------------------------------------------
  // The trap
  // ---------------------------------------------------------------------------------------------

  ghost predicate Trapped(m: Machine) {
    m.b.state == HalfOpen && forall t: Tid :: PcOf(m, t) in {Idle(false), AllowLoad}
  }

  lemma TrappedStep(c: Config, m: Machine, e: Event)
    requires Trapped(m) && Legal(m, e)
    ensures Next(c, m, e).b == m.b && Trapped(Next(c, m, e)) && !AnswersTrue(c, m, e)
  {
    var m' := Next(c, m, e);
    assert PcOf(m, e.t) in {Idle(false), AllowLoad};
    forall t: Tid ensures PcOf(m', t) in {Idle(false), AllowLoad} {
      if t != e.t {
        OthersStay(c, m, e, t);
      }
    }
  }

  lemma {:induction false} TrapHolds(c: Config, es: seq<Event>, i: nat, n: nat)
    requires LegalRun(c, es) && i <= n <= |es| && Trapped(MachineAt(c, es, i))
    ensures Trapped(MachineAt(c, es, n)) && MachineAt(c, es, n).b == MachineAt(c, es, i).b
  {
    hide Next, Trapped, Legal;
    if i < n {
      TrapHolds(c, es, i, n - 1);
      TrappedStep(c, MachineAt(c, es, n - 1), es[n - 1]);
    }
  }

  /** Half-open at rest with nothing pending is a trap: in every continuation the breaker stays as it is
      and no Allow is ever answered true again. */
  lemma HalfOpenTrap(c: Config, es: seq<Event>, i: nat, n: nat)
    requires LegalRun(c, es) && i <= n < |es| && Quiescent(MachineAt(c, es, i))
    requires MachineAt(c, es, i).b.state == HalfOpen && Pending(MachineAt(c, es, i)) == {}
    ensures MachineAt(c, es, n).b == MachineAt(c, es, i).b && !AnswersTrue(c, MachineAt(c, es, n), es[n])
  {
    hide MachineAt, Next, Pending;
    var m := MachineAt(c, es, i);
    forall t: Tid ensures PcOf(m, t) in {Idle(false), AllowLoad} {
      PendingAt(m, t);
    }
    TrapHolds(c, es, i, n);
    TrappedStep(c, MachineAt(c, es, n), es[n]);
  }

  // ---------------------------------------------------------------------------------------------
  // The shipped breaker
  // ---------------------------------------------------------------------------------------------

  const SHIPPED := Config(5, 30 * SECOND, 3)

  /** What this gives for the shipped value 3: an Open breaker at rest can close again iff two calls are
      in flight, or one is and two successes of an earlier episode are left over. */
  lemma ShippedBreakerRecoversIff(es: seq<Event>)
    requires LegalRun(SHIPPED, es) && TimesInOrder(es)
    requires Quiescent(End(SHIPPED, es)) && End(SHIPPED, es).b.state == Open
    ensures var m := End(SHIPPED, es);
      CanClose(SHIPPED, es) <==> |Pending(m)| >= 2 || (|Pending(m)| == 1 && m.b.successes == 2)
  {
    hide MachineAt, Pending, CanClose;
    OpenCanCloseIff(SHIPPED, es);
    CountBelowNeeded(SHIPPED, es, |es|);
  }

  /** So with nothing in flight it never closes again, at any point of any run. */
  lemma ShippedBreakerNeverRecovers(es: seq<Event>, i: nat, n: nat)
    requires LegalRun(SHIPPED, es) && i <= n <= |es| && Quiescent(MachineAt(SHIPPED, es, i))
    requires var m := MachineAt(SHIPPED, es, i);
      m.b.state == Open && (|Pending(m)| == 0 || (|Pending(m)| == 1 && m.b.successes < 2))
    ensures MachineAt(SHIPPED, es, n).b.state != Closed
  {
    hide MachineAt, Pending, Reach;
    ReachAtRest(MachineAt(SHIPPED, es, i));
    CountBelowNeeded(SHIPPED, es, i);
    NeverRecloses(SHIPPED, es, i, n);
  }

  // -- A run that gets there: whole calls, one after the other

  ghost predicate Rests(c: Config, es: seq<Event>, b: Breaker, P: set<Tid>, now: Time) {
    Ready(c, es, now) && Quiescent(End(c, es)) && End(c, es).b == b && Pending(End(c, es)) == P
  }

  lemma PendingAfter(m: Machine, b: Breaker, t: Tid, answer: bool)
    ensures Pending(To(m.(b := b), t, Idle(answer))) == if answer then Pending(m) + {t} else Pending(m) - {t}
  {
  }

  lemma AskCall(c: Config, es: seq<Event>, b: Breaker, P: set<Tid>, t: Tid, now: Time) returns (es': seq<Event>)
    requires Rests(c, es, b, P, now) && Allows(c, b, now)
    ensures Rests(c, es', AfterAllow(c, b, now), P + {t}, now)
  {
    hide Ready, End, Next, GoAlone, Pending, AfterAllow, Allows;
    var m := End(c, es);
    es' := CallAlone(c, es, CallAllow(t), now, 5);
    AllowAlone(c, m, t, now);
    IdleStaysQuiescent(m, AfterAllow(c, b, now), t, true);
    PendingAfter(m, AfterAllow(c, b, now), t, true);
  }

  lemma SuccessCall(c: Config, es: seq<Event>, b: Breaker, P: set<Tid>, t: Tid, now: Time) returns (es': seq<Event>)
    requires Rests(c, es, b, P, now) && t in P
    ensures Rests(c, es', AfterSuccess(c, b), P - {t}, now)
  {
    PendingAt(End(c, es), t);
    hide Ready, End, Next, GoAlone, Pending, AfterSuccess;
    var m := End(c, es);
    es' := CallAlone(c, es, CallSuccess(t), now, 5);
    SuccessAlone(c, m, t, now);
    IdleStaysQuiescent(m, AfterSuccess(c, b), t, false);
    PendingAfter(m, AfterSuccess(c, b), t, false);
  }

  lemma FailureCall(c: Config, es: seq<Event>, b: Breaker, P: set<Tid>, t: Tid, now: Time) returns (es': seq<Event>)
    requires Rests(c, es, b, P, now) && t in P
    ensures Rests(c, es', AfterFailure(c, b, now), P - {t}, now)
  {
    PendingAt(End(c, es), t);
    hide Ready, End, Next, GoAlone, Pending, AfterFailure;
    var m := End(c, es);
    es' := CallAlone(c, es, CallFailure(t), now, 5);
    FailureAlone(c, m, t, now);
    IdleStaysQuiescent(m, AfterFailure(c, b, now), t, false);
    PendingAfter(m, AfterFailure(c, b, now), t, false);
  }

  function UpTo(n: nat): (s: set<Tid>)
    ensures forall t | t in s :: t < n
  {
    if n == 0 then {} else UpTo(n - 1) + {n - 1}
  }

  /** n calls are let through a Closed breaker. */
  lemma {:induction false} AskMany(c: Config, n: nat) returns (es: seq<Event>)
    ensures Rests(c, es, Fresh(), UpTo(n), 0)
  {
    if n == 0 {
      es := [];
      StartsAtRest(c);
    } else {
      hide Rests;
      es := AskMany(c, n - 1);
      es := AskCall(c, es, Fresh(), UpTo(n - 1), n - 1, 0);
    }
  }

  lemma StartsAtRest(c: Config)
    ensures Rests(c, [], Fresh(), UpTo(0), 0)
  {
    assert UpTo(0) == {};
  }

  /** The last k of n pending calls fail; fewer than maxFailures do not open the breaker. */
  lemma {:induction false} FailMany(c: Config, es: seq<Event>, n: nat, k: nat) returns (es': seq<Event>)
    requires Rests(c, es, Fresh(), UpTo(n), 0) && k <= n && k < c.maxFailures
    ensures Rests(c, es', Breaker(Closed, false, k, 0, 0), UpTo(n - k), 0)
  {
    hide Rests;
    if k == 0 {
      es' := es;
    } else {
      es' := FailMany(c, es, n, k - 1);
      var t := n - k;
      es' := FailureCall(c, es', Breaker(Closed, false, k - 1, 0, 0), UpTo(t + 1), t, 0);
      assert UpTo(t + 1) - {t} == UpTo(t);
    }
  }

  /** The leftovers are real: five failures open the shipped breaker, a probe is let in after 30 s, two
      older calls succeed, the probe fails, and the breaker rests Open with one call pending and two
      successes counted. */
  lemma LeftoversHappen() returns (es: seq<Event>)
    ensures LegalRun(SHIPPED, es) && TimesInOrder(es) && Quiescent(End(SHIPPED, es))
    ensures End(SHIPPED, es).b.state == Open && |Pending(End(SHIPPED, es))| == 1 && End(SHIPPED, es).b.successes == 2
    ensures CanClose(SHIPPED, es)
  {
    es := LeftoverRun();
    hide MachineAt, CanClose, Pending;
    ShippedBreakerRecoversIff(es);
  }

  lemma LeftoverRun() returns (es: seq<Event>)
    ensures Rests(SHIPPED, es, Breaker(Open, false, 6, 2, 30 * SECOND), {0}, 30 * SECOND)
  {
    hide Rests;
    es := AskMany(SHIPPED, 8);
    es := FailMany(SHIPPED, es, 8, 4);
    es := FailureCall(SHIPPED, es, Breaker(Closed, false, 4, 0, 0), UpTo(4), 3, 0);
    assert UpTo(4) - {3} == {0, 1, 2};
    Later(SHIPPED, es, Breaker(Open, false, 5, 0, 0), {0, 1, 2}, 0, 30 * SECOND);
    es := ProbeFails(es, {0, 1, 2}, 30 * SECOND);
  }

  lemma ProbeFails(es: seq<Event>, P: set<Tid>, now: Time) returns (es': seq<Event>)
    requires P == {0, 1, 2} && now == 30 * SECOND && Rests(SHIPPED, es, Breaker(Open, false, 5, 0, 0), P, now)
    ensures Rests(SHIPPED, es', Breaker(Open, false, 6, 2, now), {0}, now)
  {
    hide Rests;
    es' := AskCall(SHIPPED, es, Breaker(Open, false, 5, 0, 0), P, 9, now);
    es' := SuccessCall(SHIPPED, es', Breaker(HalfOpen, true, 5, 0, 0), P + {9}, 1, now);
    es' := SuccessCall(SHIPPED, es', Breaker(HalfOpen, true, 5, 1, 0), P + {9} - {1}, 2, now);
    es' := FailureCall(SHIPPED, es', Breaker(HalfOpen, true, 5, 2, 0), P + {9} - {1} - {2}, 9, now);
    assert P + {9} - {1} - {2} - {9} == {0};
  }

  lemma Later(c: Config, es: seq<Event>, b: Breaker, P: set<Tid>, now: Time, later: Time)
    requires Rests(c, es, b, P, now) && now <= later
    ensures Rests(c, es, b, P, later)
  {
  }
}
