/** The ClickHouse circuit breaker (internal/analytics/circuit_breaker.go), one method call at a
    time. `BreakerSteps` looks inside the calls. */
module CircuitBreaker {
  import opened Clock

  datatype CbState = Closed | Open | HalfOpen

  /** maxFailures, resetTimeout and halfOpenProbes as passed to the constructor. */
  datatype Config = Config(maxFailures: int, resetTimeout: int, halfOpenProbes: int)

  datatype Breaker = Breaker(state: CbState, permit: bool, failures: nat, successes: nat, lastFailureAt: Time)

  function Fresh(): Breaker {
    Breaker(Closed, false, 0, 0, 0)
  }

  predicate Allows(c: Config, b: Breaker, now: Time) {
    || b.state == Closed
    || (b.state == Open && now - b.lastFailureAt >= c.resetTimeout && !b.permit)
  }

  function AfterAllow(c: Config, b: Breaker, now: Time): Breaker {
    if b.state == Open && Allows(c, b, now) then b.(state := HalfOpen, permit := true, successes := 0) else b
  }

  function AfterSuccess(c: Config, b: Breaker): Breaker {
    match b.state
    case Closed => b.(failures := 0)
    case Open => b
    case HalfOpen =>
      if b.successes + 1 >= c.halfOpenProbes then b.(state := Closed, permit := false, failures := 0, successes := 0)
      else b.(successes := b.successes + 1)
  }

  function AfterFailure(c: Config, b: Breaker, now: Time): Breaker {
    var b' := b.(failures := b.failures + 1, lastFailureAt := now);
    if b'.failures >= c.maxFailures || b.state == HalfOpen then b'.(state := Open, permit := false) else b'
  }

  class Circuit {
    var state: CbState
    var halfOpenPermit: bool
    var failures: nat
    var successes: nat
    var lastFailureAt: Time
    const config: Config

    ghost function View(): Breaker
      reads this
    {
      Breaker(state, halfOpenPermit, failures, successes, lastFailureAt)
    }

    constructor (config: Config)
      ensures View() == Fresh() && this.config == config
    {
      state, halfOpenPermit, failures, successes, lastFailureAt := Closed, false, 0, 0, 0;
      this.config := config;
    }

    method Allow(now: Time) returns (allowed: bool)
      modifies this
      ensures allowed == Allows(config, old(View()), now)
      ensures View() == AfterAllow(config, old(View()), now)
    {
      match state {
        case Closed => return true;
        case HalfOpen => return false;
        case Open =>
          var elapsed := now - lastFailureAt;
          if elapsed < config.resetTimeout {
            return false;
          }
          if !halfOpenPermit {
            halfOpenPermit := true;
            state := HalfOpen;
            successes := 0;
            return true;
          }
          return false;
      }
    }

    method RecordSuccess()
      modifies this
      ensures View() == AfterSuccess(config, old(View()))
    {
      if state == HalfOpen {
        successes := successes + 1;
        if successes >= config.halfOpenProbes {
          failures := 0;
          successes := 0;
          state := Closed;
          halfOpenPermit := false;
        }
        return;
      }
      if state == Closed {
        failures := 0;
      }
    }

    method RecordFailure(now: Time)
      modifies this
      ensures View() == AfterFailure(config, old(View()), now)
    {
      failures := failures + 1;
      lastFailureAt := now;
      if failures >= config.maxFailures || state == HalfOpen {
        state := Open;
        halfOpenPermit := false;
      }
    }

    method IsOpen() returns (open: bool)
      ensures open <==> View().state == Open
    {
      open := state == Open;
    }
  }

  // ---------------------------------------------------------------------------------------------
  // Histories: what the state says about the calls made so far
  // ---------------------------------------------------------------------------------------------

  datatype Op = Allow(at: Time) | Success(at: Time) | Failure(at: Time)

  function Step(c: Config, b: Breaker, op: Op): Breaker {
    match op
    case Allow(now) => AfterAllow(c, b, now)
    case Success(_) => AfterSuccess(c, b)
    case Failure(now) => AfterFailure(c, b, now)
  }

  function StateAt(c: Config, ops: seq<Op>, n: nat): Breaker
    requires n <= |ops|
  {
    if n == 0 then Fresh() else Step(c, StateAt(c, ops, n - 1), ops[n - 1])
  }

  ghost predicate Chronological(ops: seq<Op>) {
    forall i, j :: 0 <= i <= j < |ops| ==> ops[i].at <= ops[j].at
  }

  predicate Consistent(c: Config, b: Breaker) {
    && (b.state == Closed <==> b.failures < c.maxFailures)
    && (b.permit <==> b.state == HalfOpen)
  }

  lemma {:induction false} AlwaysConsistent(c: Config, ops: seq<Op>, n: nat)
    requires n <= |ops| && c.maxFailures >= 1
    ensures Consistent(c, StateAt(c, ops, n))
  {
    if n > 0 { AlwaysConsistent(c, ops, n - 1); }
  }

  /** "Closed iff fewer than maxFailures failures are on record" holds along every history exactly
      for breakers that tolerate at least one failure. */
  lemma ClosedIffBelowLimit(c: Config)
    ensures (forall ops: seq<Op> :: StateAt(c, ops, |ops|).state == Closed <==> StateAt(c, ops, |ops|).failures < c.maxFailures)
       <==> c.maxFailures >= 1
  {
    if c.maxFailures >= 1 {
      forall ops: seq<Op>
        ensures StateAt(c, ops, |ops|).state == Closed <==> StateAt(c, ops, |ops|).failures < c.maxFailures
      {
        AlwaysConsistent(c, ops, |ops|);
      }
    } else {
      var none: seq<Op> := [];
      assert StateAt(c, none, |none|) == Fresh();
    }
  }

  function FailuresIn(ops: seq<Op>, i: nat, j: nat): nat
    requires i <= j <= |ops|
  {
    if i == j then 0 else FailuresIn(ops, i, j - 1) + if ops[j - 1].Failure? then 1 else 0
  }

  /** A success that leaves the breaker Closed, in whichever way, leaves it with no failures on record. */
  lemma SuccessResets(c: Config, ops: seq<Op>, n: nat)
    requires n < |ops| && ops[n].Success? && StateAt(c, ops, n + 1).state == Closed
    ensures StateAt(c, ops, n + 1).failures == 0
  {
  }

  /** From a Closed breaker without failures on record, and while no success is recorded, the breaker
      is still Closed exactly as long as fewer than maxFailures failures came in: it opens at the
      maxFailures-th and does not close again. */
  lemma {:induction false} OpensAtTheLimit(c: Config, ops: seq<Op>, i: nat, j: nat)
    requires i <= j <= |ops| && c.maxFailures >= 1
    requires StateAt(c, ops, i).state == Closed && StateAt(c, ops, i).failures == 0
    requires forall m | i <= m < j :: !ops[m].Success?
    ensures StateAt(c, ops, j).state == Closed <==> FailuresIn(ops, i, j) < c.maxFailures
  {
    FailuresCounted(c, ops, i, j);
    AlwaysConsistent(c, ops, j);
  }

  lemma {:induction false} FailuresCounted(c: Config, ops: seq<Op>, i: nat, j: nat)
    requires i <= j <= |ops| && StateAt(c, ops, i).failures == 0
    requires forall m | i <= m < j :: !ops[m].Success?
    ensures StateAt(c, ops, j).failures == FailuresIn(ops, i, j)
  {
    if i < j { FailuresCounted(c, ops, i, j - 1); }
  }

  /** While the breaker is not Closed no call passes before resetTimeout has gone by since every
      failure ever recorded. */
  lemma NoEarlyProbe(c: Config, ops: seq<Op>, n: nat, j: nat)
    requires Chronological(ops) && j < n < |ops| && ops[n].Allow? && ops[j].Failure?
    requires StateAt(c, ops, n).state != Closed && Allows(c, StateAt(c, ops, n), ops[n].at)
    ensures ops[n].at - ops[j].at >= c.resetTimeout
  {
    LastFailureIsLatest(c, ops, n, j);
  }

  lemma {:induction false} LastFailureIsLatest(c: Config, ops: seq<Op>, n: nat, j: nat)
    requires Chronological(ops) && j < n <= |ops| && ops[j].Failure?
    ensures StateAt(c, ops, n).lastFailureAt >= ops[j].at
  {
    if j < n - 1 {
      LastFailureIsLatest(c, ops, n - 1, j);
      assert ops[j].at <= ops[n - 1].at;
    }
  }
}
