/** The AI advisor's call limiter (internal/ai/advisor.go): a fixed window that restarts lazily, on the
    first call after it has run out. */
module AdvisorLimiter {
  import opened Clock

  datatype Config = Config(maxCalls: int, window: int)

  datatype State = State(calls: nat, resetAt: Time)

  function Rolled(c: Config, s: State, now: Time): State {
    if now > s.resetAt then State(0, now + c.window) else s
  }

  predicate Allows(c: Config, s: State, now: Time) {
    Rolled(c, s, now).calls < c.maxCalls
  }

  function AfterAllow(c: Config, s: State, now: Time): State {
    var r := Rolled(c, s, now);
    if r.calls < c.maxCalls then r.(calls := r.calls + 1) else r
  }

  class AdvisorRateLimiter {
    var calls: nat
    var resetAt: Time
    const config: Config

    ghost function View(): State
      reads this
    {
      State(calls, resetAt)
    }

    constructor (maxCallsPerWindow: int, window: int, now: Time)
      ensures View() == State(0, now + window) && config == Config(maxCallsPerWindow, window)
    {
      calls, resetAt := 0, now + window;
      config := Config(maxCallsPerWindow, window);
    }

    method Allow(now: Time) returns (allowed: bool)
      modifies this
      ensures allowed == Allows(config, old(View()), now)
      ensures View() == AfterAllow(config, old(View()), now)
    {
      if now > resetAt {
        calls := 0;
        resetAt := now + config.window;
      }
      if calls >= config.maxCalls {
        return false;
      }
      calls := calls + 1;
      return true;
    }
  }

  /** The state after the first n calls, made at `times`, of a limiter created at `born`. */
  function StateAt(c: Config, born: Time, times: seq<Time>, n: nat): State
    requires n <= |times|
  {
    if n == 0 then State(0, born + c.window) else AfterAllow(c, StateAt(c, born, times, n - 1), times[n - 1])
  }

  predicate GrantAt(c: Config, born: Time, times: seq<Time>, i: nat)
    requires i < |times|
  {
    Allows(c, StateAt(c, born, times, i), times[i])
  }

  function Grants(c: Config, born: Time, times: seq<Time>, n: nat, a: Time, b: Time): nat
    requires n <= |times|
  {
    if n == 0 then 0
    else Grants(c, born, times, n - 1, a, b) + if GrantAt(c, born, times, n - 1) && a <= times[n - 1] <= b then 1 else 0
  }

  function Cap(c: Config): nat {
    if c.maxCalls < 0 then 0 else c.maxCalls
  }

  ghost predicate Chronological(times: seq<Time>) {
    forall i, j :: 0 <= i <= j < |times| ==> times[i] <= times[j]
  }

  lemma {:induction false} NoneBefore(c: Config, born: Time, times: seq<Time>, n: nat, a: Time, b: Time)
    requires Chronological(times) && n <= |times| && (n > 0 ==> times[n - 1] < a)
    ensures Grants(c, born, times, n, a, b) == 0
  {
    if n > 0 {
      if n > 1 { assert times[n - 2] <= times[n - 1]; }
      NoneBefore(c, born, times, n - 1, a, b);
    }
  }

  /** Up to its end the interval meets the current window and, only if that window began inside the
      interval, the one before. */
  lemma {:induction false} AtMostTwoWindows(c: Config, born: Time, times: seq<Time>, n: nat, a: Time, b: Time)
    requires Chronological(times) && n <= |times| && b - a <= c.window && (n > 0 ==> times[n - 1] <= b)
    ensures var s := StateAt(c, born, times, n);
      && s.calls <= Cap(c)
      && Grants(c, born, times, n, a, b) <= s.calls + if s.resetAt - c.window < a then 0 else Cap(c)
  {
    if n > 0 {
      if n > 1 { assert times[n - 2] <= times[n - 1]; }
      AtMostTwoWindows(c, born, times, n - 1, a, b);
      if times[n - 1] < a {
        NoneBefore(c, born, times, n, a, b);
      }
    }
  }

  // ---------------------------------------------------------------------------------------------
  // The exact admission law, in terms of the times of the calls and of earlier grants
  // ---------------------------------------------------------------------------------------------

  /** When the window that the first n calls leave in force was opened: at creation, or by the first call
      more than a window's length after the one before was opened. */
  function OpenedAt(c: Config, born: Time, times: seq<Time>, n: nat): Time
    requires n <= |times|
  {
    if n == 0 then born
    else
      var start := OpenedAt(c, born, times, n - 1);
      if times[n - 1] - start > c.window then times[n - 1] else start
  }

  /** The first call of that window. */
  function FirstCall(c: Config, born: Time, times: seq<Time>, n: nat): (i: nat)
    requires n <= |times|
    ensures i <= n
  {
    if n == 0 then 0
    else if times[n - 1] - OpenedAt(c, born, times, n - 1) > c.window then n - 1
    else FirstCall(c, born, times, n - 1)
  }

  /** The grants among the calls from i up to n. */
  function GrantsFrom(c: Config, born: Time, times: seq<Time>, i: nat, n: nat): nat
    requires i <= n <= |times|
  {
    if i == n then 0 else GrantsFrom(c, born, times, i, n - 1) + if GrantAt(c, born, times, n - 1) then 1 else 0
  }

  lemma {:induction false} StateIsHistory(c: Config, born: Time, times: seq<Time>, n: nat)
    requires n <= |times|
    ensures StateAt(c, born, times, n)
         == State(GrantsFrom(c, born, times, FirstCall(c, born, times, n), n), OpenedAt(c, born, times, n) + c.window)
  {
    if n > 0 { StateIsHistory(c, born, times, n - 1); }
  }

  /** Exactly which calls pass: a call is granted iff fewer than maxCalls calls of its window were granted
      before it. */
  lemma GrantedIff(c: Config, born: Time, times: seq<Time>, n: nat)
    requires n < |times|
    ensures GrantAt(c, born, times, n) <==>
      GrantsFrom(c, born, times, FirstCall(c, born, times, n + 1), n) < c.maxCalls
  {
    StateIsHistory(c, born, times, n);
  }

  /** Any interval no longer than the window contains at most twice maxCalls grants. */
  lemma {:induction false} TwiceTheLimit(c: Config, born: Time, times: seq<Time>, n: nat, a: Time, b: Time)
    requires Chronological(times) && n <= |times| && b - a <= c.window
    ensures Grants(c, born, times, n, a, b) <= 2 * Cap(c)
  {
    if n > 0 && times[n - 1] > b {
      TwiceTheLimit(c, born, times, n - 1, a, b);
    } else {
      AtMostTwoWindows(c, born, times, n, a, b);
    }
  }

  /** maxCalls calls in the last instant of the first window, and as many in the next one. */
  function Burst(c: Config, born: Time): seq<Time> {
    seq(2 * Cap(c), i => if i < Cap(c) then born + c.window else born + c.window + 1)
  }

  lemma {:induction false} BurstState(c: Config, born: Time, n: nat)
    requires n <= 2 * Cap(c) && c.window >= 1
    ensures StateAt(c, born, Burst(c, born), n)
         == if n <= Cap(c) then State(n, born + c.window) else State(n - Cap(c), born + 2 * c.window + 1)
    ensures Grants(c, born, Burst(c, born), n, born + c.window, born + c.window + 1) == n
    decreases n
  {
    if n > 0 { BurstState(c, born, n - 1); }
  }

  /** The factor two is attained, by calls one nanosecond apart. */
  lemma TwiceIsAttained(c: Config, born: Time)
    requires c.window >= 1
    ensures Chronological(Burst(c, born))
    ensures Grants(c, born, Burst(c, born), |Burst(c, born)|, born + c.window, born + c.window + 1) == 2 * Cap(c)
  {
    BurstState(c, born, 2 * Cap(c));
  }
}
