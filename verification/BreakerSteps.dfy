/** The circuit breaker at the granularity of its atomic operations: each thread has a program
    counter, and threads interleave between any two loads, stores, swaps and lock sections of
    internal/analytics/circuit_breaker.go. The lock sections of Allow and RecordSuccess touch no
    atomic and are one step each; RecordFailure loads the state while it holds the lock, so its
    section is two steps. */
module BreakerSteps {
  import opened Clock
  import opened Options
  import opened CircuitBreaker

  type Tid = nat

  datatype Pc =
    | Idle(answer: bool)  // `answer`: what the thread's last Allow returned
    | AllowLoad | AllowTime | AllowPermit | AllowSwap | AllowReset | AllowUndo
    | SuccLoad | SuccCount | SuccStore | SuccFree | SuccReload | SuccClear
    | FailLock | FailLoad | FailStore | FailFree

  datatype Machine = Machine(b: Breaker, lock: Option<Tid>, pcs: map<Tid, Pc>)

  /** One step of thread `t`: the start of a call, or the next atomic operation of the current one. */
  datatype Event = CallAllow(t: Tid) | CallSuccess(t: Tid) | CallFailure(t: Tid) | Go(t: Tid, at: Time)

  function PcOf(m: Machine, t: Tid): Pc {
    if t in m.pcs then m.pcs[t] else Idle(false)
  }

  function To(m: Machine, t: Tid, pc: Pc): Machine {
    m.(pcs := m.pcs[t := pc])
  }

  /** A lock section waits while another thread holds the lock. */
  predicate NeedsLock(pc: Pc) {
    pc in {AllowTime, AllowReset, SuccCount, SuccClear, FailLock}
  }

  function Go1(c: Config, m: Machine, t: Tid, now: Time): Machine {
    var b, pc := m.b, PcOf(m, t);
    if NeedsLock(pc) && m.lock.Some? then m
    else match pc {
      case Idle(_) => m
      case AllowLoad => To(m, t, if b.state == Open then AllowTime else Idle(b.state == Closed))
      case AllowTime => To(m, t, if now - b.lastFailureAt < c.resetTimeout then Idle(false) else AllowPermit)
      case AllowPermit => if b.permit then To(m, t, Idle(false)) else To(m.(b := b.(permit := true)), t, AllowSwap)
      case AllowSwap => if b.state == Open then To(m.(b := b.(state := HalfOpen)), t, AllowReset) else To(m, t, AllowUndo)
      case AllowReset => To(m.(b := b.(successes := 0)), t, Idle(true))
      case AllowUndo => To(m.(b := b.(permit := false)), t, Idle(false))
      case SuccLoad => To(m, t, if b.state == HalfOpen then SuccCount else SuccReload)
      case SuccCount =>
        if b.successes + 1 >= c.halfOpenProbes then To(m.(b := b.(failures := 0, successes := 0)), t, SuccStore)
        else To(m.(b := b.(successes := b.successes + 1)), t, Idle(false))
      case SuccStore => To(m.(b := b.(state := Closed)), t, SuccFree)
      case SuccFree => To(m.(b := b.(permit := false)), t, Idle(false))
      case SuccReload => To(m, t, if b.state == Closed then SuccClear else Idle(false))
      case SuccClear => To(m.(b := b.(failures := 0)), t, Idle(false))
      case FailLock => To(m.(b := b.(failures := b.failures + 1, lastFailureAt := now), lock := Some(t)), t, FailLoad)
      case FailLoad =>
        To(m.(lock := None), t, if b.failures >= c.maxFailures || b.state == HalfOpen then FailStore else Idle(false))
      case FailStore => To(m.(b := b.(state := Open)), t, FailFree)
      case FailFree => To(m.(b := b.(permit := false)), t, Idle(false))
    }
  }

  function Next(c: Config, m: Machine, e: Event): Machine {
    match e
    case CallAllow(t) => if PcOf(m, t).Idle? then To(m, t, AllowLoad) else m
    case CallSuccess(t) => if PcOf(m, t).Idle? then To(m, t, SuccLoad) else m
    case CallFailure(t) => if PcOf(m, t).Idle? then To(m, t, FailLock) else m
    case Go(t, now) => Go1(c, m, t, now)
  }

  function MachineAt(c: Config, es: seq<Event>, n: nat): Machine
    requires n <= |es|
  {
    if n == 0 then Machine(Fresh(), None, map[]) else Next(c, MachineAt(c, es, n - 1), es[n - 1])
  }

  ghost predicate Quiescent(m: Machine) {
    m.lock.None? && forall t: Tid :: PcOf(m, t).Idle?
  }

  // ---------------------------------------------------------------------------------------------
  // No leaked permit
  // ---------------------------------------------------------------------------------------------

  /** Between taking the permit and giving it back or turning it into HalfOpen, or between a store of
      the state and the store that frees the permit. */
  predicate OwesPermit(pc: Pc) {
    pc in {AllowSwap, AllowUndo, SuccFree, FailFree}
  }

  ghost predicate PermitExplained(m: Machine) {
    m.b.permit ==> m.b.state == HalfOpen || exists t: Tid :: OwesPermit(PcOf(m, t))
  }

  lemma OthersStay(c: Config, m: Machine, e: Event, t: Tid)
    requires t != e.t
    ensures PcOf(Next(c, m, e), t) == PcOf(m, t)
  {
  }

  /** A thread whose program counter lies in S came there by a step of its own and has not left S since.
      A thread that never called anything is at Idle(false). */
  lemma {:induction false} CameInto(c: Config, es: seq<Event>, n: nat, t: Tid, S: set<Pc>) returns (i: nat)
    requires n <= |es| && PcOf(MachineAt(c, es, n), t) in S && Idle(false) !in S
    ensures i < n && es[i].t == t && PcOf(MachineAt(c, es, i), t) !in S
    ensures forall k | i < k <= n :: PcOf(MachineAt(c, es, k), t) in S
  {
    hide Next;
    if PcOf(MachineAt(c, es, n - 1), t) in S {
      i := CameInto(c, es, n - 1, t, S);
    } else {
      if es[n - 1].t != t {
        OthersStay(c, MachineAt(c, es, n - 1), es[n - 1], t);
      }
      i := n - 1;
    }
  }

  /** And a thread that is no longer in S left it by a step of its own. */
  lemma {:induction false} LeftFrom(c: Config, es: seq<Event>, i: nat, n: nat, t: Tid, S: set<Pc>) returns (j: nat)
    requires i <= n <= |es| && PcOf(MachineAt(c, es, i), t) in S && PcOf(MachineAt(c, es, n), t) !in S
    ensures i <= j < n && es[j].t == t && PcOf(MachineAt(c, es, j + 1), t) !in S
    ensures forall k | i <= k <= j :: PcOf(MachineAt(c, es, k), t) in S
    decreases n - i
  {
    hide Next;
    if PcOf(MachineAt(c, es, i + 1), t) in S {
      j := LeftFrom(c, es, i + 1, n, t, S);
    } else {
      if es[i].t != t {
        OthersStay(c, MachineAt(c, es, i), es[i], t);
      }
      j := i;
    }
  }

  /** If the moving thread owes no permit after its step, then a permit taken outside HalfOpen was
      taken before the step too, and this thread did not owe it. */
  lemma PermitStep(c: Config, m: Machine, e: Event)
    ensures var m' := Next(c, m, e);
      m'.b.permit && m'.b.state != HalfOpen && !OwesPermit(PcOf(m', e.t)) ==>
        m.b.permit && m.b.state != HalfOpen && !OwesPermit(PcOf(m, e.t))
  {
  }

  lemma StepKeepsPermitExplained(c: Config, m: Machine, e: Event)
    requires PermitExplained(m)
    ensures PermitExplained(Next(c, m, e))
  {
    hide Next, OwesPermit, PcOf;
    var m' := Next(c, m, e);
    PermitStep(c, m, e);
    if m'.b.permit && m'.b.state != HalfOpen && !OwesPermit(PcOf(m', e.t)) {
      var t: Tid :| OwesPermit(PcOf(m, t));
      OthersStay(c, m, e, t);
    }
  }

  lemma {:induction false} PermitNeverLeaks(c: Config, es: seq<Event>, n: nat)
    requires n <= |es|
    ensures PermitExplained(MachineAt(c, es, n))
  {
    hide Next, PermitExplained;
    if n > 0 {
      PermitNeverLeaks(c, es, n - 1);
      StepKeepsPermitExplained(c, MachineAt(c, es, n - 1), es[n - 1]);
    } else {
      FreshIsExplained(c, es);
    }
  }

  lemma FreshIsExplained(c: Config, es: seq<Event>)
    ensures PermitExplained(MachineAt(c, es, 0))
  {
  }

  // ---------------------------------------------------------------------------------------------
  // A call that runs alone is one call of the method-atomic breaker
  // ---------------------------------------------------------------------------------------------

  function GoAlone(c: Config, m: Machine, t: Tid, now: Time, n: nat): Machine
    decreases n
  {
    if n == 0 then m else Go1(c, GoAlone(c, m, t, now, n - 1), t, now)
  }

  lemma FiveSteps(c: Config, m: Machine, t: Tid, now: Time)
    ensures GoAlone(c, m, t, now, 5)
         == Go1(c, Go1(c, Go1(c, Go1(c, Go1(c, m, t, now), t, now), t, now), t, now), t, now)
  {
    hide Go1;
    assert GoAlone(c, m, t, now, 1) == Go1(c, m, t, now);
    assert GoAlone(c, m, t, now, 3) == Go1(c, Go1(c, Go1(c, m, t, now), t, now), t, now);
  }

  /** Five operations are enough for every call to return. */
  lemma AllowAlone(c: Config, m: Machine, t: Tid, now: Time)
    requires m.lock.None? && PcOf(m, t).Idle?
    ensures GoAlone(c, Next(c, m, CallAllow(t)), t, now, 5)
         == To(m.(b := AfterAllow(c, m.b, now)), t, Idle(Allows(c, m.b, now)))
  {
    hide GoAlone;
    FiveSteps(c, Next(c, m, CallAllow(t)), t, now);
  }

  lemma SuccessAlone(c: Config, m: Machine, t: Tid, now: Time)
    requires m.lock.None? && PcOf(m, t).Idle?
    ensures GoAlone(c, Next(c, m, CallSuccess(t)), t, now, 5) == To(m.(b := AfterSuccess(c, m.b)), t, Idle(false))
  {
    hide GoAlone;
    FiveSteps(c, Next(c, m, CallSuccess(t)), t, now);
  }

  lemma FailureAlone(c: Config, m: Machine, t: Tid, now: Time)
    requires m.lock.None? && PcOf(m, t).Idle?
    ensures GoAlone(c, Next(c, m, CallFailure(t)), t, now, 5) == To(m.(b := AfterFailure(c, m.b, now)), t, Idle(false))
  {
    hide GoAlone;
    var m0 := Next(c, m, CallFailure(t));
    FiveSteps(c, m0, t, now);
    var m2 := Go1(c, Go1(c, m0, t, now), t, now);
    assert m2.lock.None? && m2.b == m.b.(failures := m.b.failures + 1, lastFailureAt := now);
  }

  /** In every reachable state with no call under way, an Open breaker has its permit free, and the
      next Allow after resetTimeout is let through. */
  lemma QuiescentOpenRecovers(c: Config, es: seq<Event>, n: nat, t: Tid, now: Time)
    requires n <= |es| && Quiescent(MachineAt(c, es, n)) && MachineAt(c, es, n).b.state == Open
    requires now - MachineAt(c, es, n).b.lastFailureAt >= c.resetTimeout
    ensures var m' := GoAlone(c, Next(c, MachineAt(c, es, n), CallAllow(t)), t, now, 5);
      !MachineAt(c, es, n).b.permit && PcOf(m', t) == Idle(true) && m'.b.state == HalfOpen
  {
    hide MachineAt, GoAlone, Next;
    PermitNeverLeaks(c, es, n);
    AllowAlone(c, MachineAt(c, es, n), t, now);
  }

  /** Whole calls by any threads, one after the other. */
  function Serial(c: Config, calls: seq<(Tid, Op)>): Machine {
    if calls == [] then Machine(Fresh(), None, map[])
    else
      var m, t, op := Serial(c, calls[..|calls| - 1]), calls[|calls| - 1].0, calls[|calls| - 1].1;
      var called := match op
        case Allow(_) => CallAllow(t)
        case Success(_) => CallSuccess(t)
        case Failure(_) => CallFailure(t);
      GoAlone(c, Next(c, m, called), t, op.at, 5)
  }

  function Ops(calls: seq<(Tid, Op)>): seq<Op> {
    seq(|calls|, i requires 0 <= i < |calls| => calls[i].1)
  }

  /** As long as calls do not overlap, the operations add up to the method-atomic breaker. */
  lemma {:induction false} SerialRunsAreAtomic(c: Config, calls: seq<(Tid, Op)>)
    ensures Quiescent(Serial(c, calls))
    ensures Serial(c, calls).b == CircuitBreaker.StateAt(c, Ops(calls), |calls|)
  {
    hide Next, GoAlone, AfterAllow, AfterSuccess, AfterFailure;
    if calls != [] {
      var n := |calls| - 1;
      var m, t, op := Serial(c, calls[..n]), calls[n].0, calls[n].1;
      SerialRunsAreAtomic(c, calls[..n]);
      SamePrefix(c, Ops(calls[..n]), Ops(calls), n);
      AllowAlone(c, m, t, op.at);
      SuccessAlone(c, m, t, op.at);
      FailureAlone(c, m, t, op.at);
      IdleStaysQuiescent(m, Serial(c, calls).b, t, op.Allow? && Allows(c, m.b, op.at));
    }
  }

  lemma IdleStaysQuiescent(m: Machine, b: Breaker, t: Tid, answer: bool)
    requires Quiescent(m)
    ensures Quiescent(To(m.(b := b), t, Idle(answer)))
  {
    var m' := To(m.(b := b), t, Idle(answer));
    assert forall u: Tid | u != t :: PcOf(m', u) == PcOf(m, u);
  }

  lemma {:induction false} SamePrefix(c: Config, ops: seq<Op>, ops': seq<Op>, n: nat)
    requires n <= |ops| && n <= |ops'| && forall i | 0 <= i < n :: ops[i] == ops'[i]
    ensures CircuitBreaker.StateAt(c, ops, n) == CircuitBreaker.StateAt(c, ops', n)
  {
    hide CircuitBreaker.Step;
    if n > 0 { SamePrefix(c, ops, ops', n - 1); }
  }

  // ---------------------------------------------------------------------------------------------
  // Half-open episodes
  // ---------------------------------------------------------------------------------------------

  predicate Swaps(m: Machine, e: Event) {
    e.Go? && PcOf(m, e.t) == AllowSwap && m.b.state == Open
  }

  predicate WritesState(m: Machine, e: Event) {
    Swaps(m, e) || (e.Go? && PcOf(m, e.t) in {SuccStore, FailStore})
  }

  /** The operation at which an Allow that will return true takes effect. */
  predicate Admits(m: Machine, e: Event) {
    Swaps(m, e) || (e.Go? && PcOf(m, e.t) == AllowLoad && m.b.state == Closed)
  }

  predicate AnswersTrue(c: Config, m: Machine, e: Event) {
    !PcOf(m, e.t).Idle? && PcOf(Next(c, m, e), e.t) == Idle(true)
  }

  /** After a successful swap no Allow takes effect as true until the state is written again: the
      episode belongs to the one caller that swapped. */
  lemma {:induction false} EpisodeAdmitsOne(c: Config, es: seq<Event>, i: nat, j: nat)
    requires i < j < |es| && Swaps(MachineAt(c, es, i), es[i])
    requires forall k | i < k < j :: !WritesState(MachineAt(c, es, k), es[k])
    ensures MachineAt(c, es, j).b.state == HalfOpen && !Admits(MachineAt(c, es, j), es[j])
  {
    hide Next;
    StateHolds(c, MachineAt(c, es, j - 1), es[j - 1]);
    if i < j - 1 {
      EpisodeAdmitsOne(c, es, i, j - 1);
    }
  }

  lemma StateHolds(c: Config, m: Machine, e: Event)
    ensures Swaps(m, e) ==> Next(c, m, e).b.state == HalfOpen
    ensures !WritesState(m, e) ==> Next(c, m, e).b.state == m.b.state
  {
  }

  function Admissions(c: Config, es: seq<Event>, n: nat): nat
    requires n <= |es|
  {
    if n == 0 then 0 else Admissions(c, es, n - 1) + if Admits(MachineAt(c, es, n - 1), es[n - 1]) then 1 else 0
  }

  function TrueAnswers(c: Config, es: seq<Event>, n: nat): nat
    requires n <= |es|
  {
    if n == 0 then 0
    else TrueAnswers(c, es, n - 1) + if AnswersTrue(c, MachineAt(c, es, n - 1), es[n - 1]) then 1 else 0
  }

  function Resetting(m: Machine): set<Tid> {
    set t | t in m.pcs && m.pcs[t] == AllowReset
  }

  lemma StepBalance(c: Config, m: Machine, e: Event)
    ensures |Resetting(Next(c, m, e))| + (if AnswersTrue(c, m, e) then 1 else 0)
         == |Resetting(m)| + (if Admits(m, e) then 1 else 0)
  {
    hide Next, AnswersTrue, Admits, Resetting;
    var m' := Next(c, m, e);
    StepResetting(c, m, e);
    var before, after := Resetting(m), Resetting(m');
    if e.t in before && e.t !in after {
      assert before == after + {e.t};
    } else if e.t in after && e.t !in before {
      assert after == before + {e.t};
    } else {
      assert before == after;
    }
  }

  lemma StepResetting(c: Config, m: Machine, e: Event)
    ensures var m' := Next(c, m, e);
      && (forall t: Tid | t != e.t :: t in Resetting(m) <==> t in Resetting(m'))
      && (AnswersTrue(c, m, e) && !Admits(m, e) ==> e.t in Resetting(m) && e.t !in Resetting(m'))
      && (!AnswersTrue(c, m, e) && Admits(m, e) ==> e.t !in Resetting(m) && e.t in Resetting(m'))
      && ((AnswersTrue(c, m, e) <==> Admits(m, e)) ==> (e.t in Resetting(m) <==> e.t in Resetting(m')))
  {
    hide Next, AnswersTrue, Admits, Resetting, PcOf;
    var m' := Next(c, m, e);
    forall t: Tid | t != e.t ensures t in Resetting(m) <==> t in Resetting(m') {
      OthersStay(c, m, e, t);
      ResettingPc(m, t);
      ResettingPc(m', t);
    }
    ResettingPc(m, e.t);
    ResettingPc(m', e.t);
    AnswerStep(c, m, e);
  }

  lemma ResettingPc(m: Machine, t: Tid)
    ensures t in Resetting(m) <==> PcOf(m, t) == AllowReset
  {
  }

  lemma AnswerStep(c: Config, m: Machine, e: Event)
    ensures var before, after := PcOf(m, e.t) == AllowReset, PcOf(Next(c, m, e), e.t) == AllowReset;
      && (AnswersTrue(c, m, e) && !Admits(m, e) ==> before && !after)
      && (!AnswersTrue(c, m, e) && Admits(m, e) ==> !before && after)
      && ((AnswersTrue(c, m, e) <==> Admits(m, e)) ==> before == after)
  {
  }

  /** Every swap and every Closed load is one call that returns true, and nothing else is: the calls
      answered true plus those about to be are exactly the admissions. */
  lemma {:induction false} AnswersMatchAdmissions(c: Config, es: seq<Event>, n: nat)
    requires n <= |es|
    ensures TrueAnswers(c, es, n) + |Resetting(MachineAt(c, es, n))| == Admissions(c, es, n)
  {
    hide Next, Resetting, AnswersTrue, Admits;
    if n > 0 {
      AnswersMatchAdmissions(c, es, n - 1);
      StepBalance(c, MachineAt(c, es, n - 1), es[n - 1]);
    } else {
      NobodyResets(c, es);
    }
  }

  lemma NobodyResets(c: Config, es: seq<Event>)
    ensures Resetting(MachineAt(c, es, 0)) == {}
  {
  }
}
