/**
 * The retry state machine of the request library: a bounded loop that calls
 * a handler, stops when no retry condition fires, when the response's
 * context has failed, when the wait policy fails or when the context is
 * cancelled during the wait, and otherwise waits and tries again.
 *
 * Durations are nanoseconds as unbounded integers. The handler is an
 * oracle over a state `S` (the standalone model uses a call counter; the
 * middleware interpreter uses its world), and whether cancellation beats
 * the timer is an oracle on the state after the attempt.
 */
module Retry {
  import opened Types

  /** `RetryCondition`: whether one attempt's outcome asks for another try. */
  type Condition = (Option<HttpResponse>, Option<Error>) -> bool

  /** The `(time.Duration, error)` answer of a wait policy. */
  datatype Wait = Wait(duration: int, err: Option<Error>)

  /** `RetryPolicy`: `(resp, min, max, attempt) -> (wait, err)`. */
  type Policy = (Option<HttpResponse>, int, int, int) -> Wait

  /** The five answers of a `Retry` interface value. */
  datatype RetrySource = RetrySource(
    maxEntries: int,
    waitTime: int,
    maxWaitTime: int,
    conditions: seq<Condition>,
    policy: Policy)

  /** The `retry` struct that `backoff` runs on. */
  datatype Settings = Settings(
    maxRetries: int,
    waitTime: int,
    maxWaitTime: int,
    conditions: seq<Condition>,
    policy: Policy)

  /** `newRetry`: reads every setting from the interface value once. */
  function NewRetry(src: RetrySource): (r: Settings)
    ensures r.maxRetries == src.maxEntries && r.conditions == src.conditions
    ensures r.waitTime == src.waitTime && r.maxWaitTime == src.maxWaitTime
    ensures r.policy == src.policy
  {
    Settings(src.maxEntries, src.waitTime, src.maxWaitTime, src.conditions, src.policy)
  }

  const Microsecond: int := 1000
  const Second: int := 1000000000

  /** The only condition of `defaultRetry`: retry on a transport error. */
  function DefaultCondition(resp: Option<HttpResponse>, err: Option<Error>): bool
  {
    err.Some?
  }

  /** The policy of `defaultRetry`: linear in the attempt, capped at `max`. */
  function DefaultPolicy(resp: Option<HttpResponse>, min: int, max: int, attempt: int): Wait
  {
    var wait := min + attempt * min;
    Wait(if wait > max then max else wait, None)
  }

  /** `defaultRetry`: 3 retries, 100µs base wait, 10s ceiling. */
  function DefaultRetry(): RetrySource
  {
    RetrySource(3, 100 * Microsecond, 10 * Second, [DefaultCondition], DefaultPolicy)
  }

  lemma DefaultRetrySettings()
    ensures var r := NewRetry(DefaultRetry());
      && r.maxRetries == 3 && r.waitTime == 100000 && r.maxWaitTime == 10000000000
      && |r.conditions| == 1
      && (forall resp, err :: r.conditions[0](resp, err) <==> err.Some?)
  {
  }

  lemma DefaultPolicyBounded(resp: Option<HttpResponse>, min: int, max: int, attempt: int)
    ensures DefaultPolicy(resp, min, max, attempt).duration <= max
    ensures DefaultPolicy(resp, min, max, attempt).err == None
  {
  }

  lemma DefaultPolicyMonotone(resp: Option<HttpResponse>, min: int, max: int, a1: int, a2: int)
    requires 0 <= min && a1 <= a2
    ensures DefaultPolicy(resp, min, max, a1).duration <= DefaultPolicy(resp, min, max, a2).duration
  {
    MulMonotone(a1, a2, min);
  }

  lemma MulMonotone(a1: int, a2: int, m: int)
    requires 0 <= m && a1 <= a2
    ensures a1 * m <= a2 * m
  {
    var d := a2 - a1;
    assert a2 * m == a1 * m + d * m;
  }

  lemma DefaultPolicyLinear(resp: Option<HttpResponse>, min: int, max: int, attempt: int)
    requires min * (attempt + 1) <= max
    ensures DefaultPolicy(resp, min, max, attempt).duration == min * (attempt + 1)
  {
    assert min + attempt * min == min * (attempt + 1);
  }

  /** With 100ms base and a 1s ceiling the first three waits are 100, 200 and 300ms. */
  lemma DefaultPolicyExample(resp: Option<HttpResponse>)
    ensures DefaultPolicy(resp, 100 * 1000000, Second, 0).duration == 100 * 1000000
    ensures DefaultPolicy(resp, 100 * 1000000, Second, 1).duration == 200 * 1000000
    ensures DefaultPolicy(resp, 100 * 1000000, Second, 2).duration == 300 * 1000000
    ensures forall a :: a >= 9 ==> DefaultPolicy(resp, 100 * 1000000, Second, a).duration == Second
  {
  }

  /** How `backoff` ended. */
  datatype Exit = NoRetry | ContextFailed | PolicyFailed | Cancelled | Exhausted

  /**
   * The observable run of `backoff`: the returned pair, how it ended, the
   * outcome of every call of the handler, the duration of every timer that
   * was started, and the handler's final state.
   */
  datatype Run<S> = Run(
    resp: Option<HttpResponse>,
    err: Option<Error>,
    exit: Exit,
    attempts: seq<Attempt>,
    waits: seq<int>,
    state: S)

  /** The error of the context `backoff` consults: a nil response means `context.Background()`. */
  function ContextErr(a: Attempt): Option<Error>
  {
    if a.resp.Some? then a.resp.value.ctxErr else None
  }

  /** Some retry condition fires on the attempt. */
  predicate Fires(conditions: seq<Condition>, a: Attempt)
  {
    exists j :: 0 <= j < |conditions| && conditions[j](a.resp, a.err)
  }

  /**
   * The loop of `backoff` from attempt `attempt` on, where `last` is the
   * pair the previous attempt left in `resp, err` and `attempts`, `waits`
   * are what the run has observed so far.
   */
  function Loop<S>(r: Settings, fn: S -> (Attempt, S), cancel: S -> Option<Error>,
                   s: S, attempt: nat, last: Attempt, attempts: seq<Attempt>, waits: seq<int>): Run<S>
    decreases if attempt <= r.maxRetries then r.maxRetries + 1 - attempt else 0
  {
    if attempt > r.maxRetries then
      Run(last.resp, last.err, Exhausted, attempts, waits, s)
    else
      var (a, s') := fn(s);
      if ContextErr(a).Some? then
        Run(None, a.err, ContextFailed, attempts + [a], waits, s')
      else if !Fires(r.conditions, a) then
        Run(a.resp, a.err, NoRetry, attempts + [a], waits, s')
      else
        var w := r.policy(a.resp, r.waitTime, r.maxWaitTime, attempt);
        if w.err.Some? then
          Run(None, w.err, PolicyFailed, attempts + [a], waits, s')
        else
          // ctx.Done() can only fire for a response's context; Background never ends
          var c := if a.resp.Some? then cancel(s') else None;
          if c.Some? then
            Run(None, c, Cancelled, attempts + [a], waits + [w.duration], s')
          else
            Loop(r, fn, cancel, s', attempt + 1, a, attempts + [a], waits + [w.duration])
  }

  /** `retry.backoff(fn)` as a function of the oracles. */
  function Backoff<S>(r: Settings, fn: S -> (Attempt, S), cancel: S -> Option<Error>, s: S): Run<S>
  {
    Loop(r, fn, cancel, s, 0, Attempt(None, None), [], [])
  }

  /** Attempt `k` asked for a retry and its wait was computed without error. */
  predicate Retried(r: Settings, a: Attempt, k: nat, wait: int)
  {
    && ContextErr(a).None?
    && Fires(r.conditions, a)
    && r.policy(a.resp, r.waitTime, r.maxWaitTime, k).err.None?
    && r.policy(a.resp, r.waitTime, r.maxWaitTime, k).duration == wait
  }

  /** What a finished run looks like, given how it ended. */
  predicate WellFormedRun<S>(r: Settings, run: Run<S>)
  {
    var n := |run.attempts|;
    && n <= (if r.maxRetries < 0 then 0 else r.maxRetries + 1)
    && (r.maxRetries >= 0 ==> n >= 1)
    && (|run.waits| == n || |run.waits| == n - 1)
    && (forall k :: 0 <= k < |run.waits| && k < n - 1 ==> Retried(r, run.attempts[k], k, run.waits[k]))
    && (match run.exit
        case NoRetry =>
          && n >= 1 && |run.waits| == n - 1
          && run.resp == run.attempts[n - 1].resp && run.err == run.attempts[n - 1].err
          && ContextErr(run.attempts[n - 1]).None? && !Fires(r.conditions, run.attempts[n - 1])
        case ContextFailed =>
          && n >= 1 && |run.waits| == n - 1
          && run.resp.None? && run.err == run.attempts[n - 1].err
          && run.attempts[n - 1].resp.Some? && ContextErr(run.attempts[n - 1]).Some?
        case PolicyFailed =>
          && n >= 1 && |run.waits| == n - 1
          && run.resp.None?
          && ContextErr(run.attempts[n - 1]).None? && Fires(r.conditions, run.attempts[n - 1])
          && run.err == r.policy(run.attempts[n - 1].resp, r.waitTime, r.maxWaitTime, n - 1).err
          && run.err.Some?
        case Cancelled =>
          && n >= 1 && |run.waits| == n
          && run.resp.None? && run.err.Some?
          && run.attempts[n - 1].resp.Some?
          && Retried(r, run.attempts[n - 1], n - 1, run.waits[n - 1])
        case Exhausted =>
          && n == (if r.maxRetries < 0 then 0 else r.maxRetries + 1)
          && |run.waits| == n
          && (n > 0 ==> Retried(r, run.attempts[n - 1], n - 1, run.waits[n - 1]))
          && (n > 0 ==> run.resp == run.attempts[n - 1].resp && run.err == run.attempts[n - 1].err)
          && (n == 0 ==> run.resp.None? && run.err.None?))
  }

  /** Every run of `backoff` has the shape `WellFormedRun` describes. */
  lemma BackoffShape<S>(r: Settings, fn: S -> (Attempt, S), cancel: S -> Option<Error>, s: S)
    ensures WellFormedRun(r, Backoff(r, fn, cancel, s))
  {
    LoopShape(r, fn, cancel, s, 0, Attempt(None, None), [], []);
  }

  lemma {:induction false} LoopShape<S>(r: Settings, fn: S -> (Attempt, S), cancel: S -> Option<Error>,
                                      s: S, attempt: nat, last: Attempt, attempts: seq<Attempt>, waits: seq<int>)
    requires |attempts| == attempt && |waits| == attempt
    requires attempt == 0 || attempt <= r.maxRetries + 1
    requires forall k :: 0 <= k < attempt ==> Retried(r, attempts[k], k, waits[k])
    requires attempt > 0 ==> last == attempts[attempt - 1]
    requires attempt == 0 ==> last == Attempt(None, None)
    ensures WellFormedRun(r, Loop(r, fn, cancel, s, attempt, last, attempts, waits))
    decreases if attempt <= r.maxRetries then r.maxRetries + 1 - attempt else 0
  {
    if attempt <= r.maxRetries {
      var (a, s') := fn(s);
      if ContextErr(a).None? && Fires(r.conditions, a) {
        var w := r.policy(a.resp, r.waitTime, r.maxWaitTime, attempt);
        if w.err.None? {
          var c := if a.resp.Some? then cancel(s') else None;
          if c.None? {
            LoopShape(r, fn, cancel, s', attempt + 1, a, attempts + [a], waits + [w.duration]);
          }
        }
      }
    }
  }

  /** `fn` is called at most `maxRetries + 1` times. */
  lemma BackoffCallsBounded<S>(r: Settings, fn: S -> (Attempt, S), cancel: S -> Option<Error>, s: S)
    requires r.maxRetries >= 0
    ensures 1 <= |Backoff(r, fn, cancel, s).attempts| <= r.maxRetries + 1
  {
    BackoffShape(r, fn, cancel, s);
  }

  /** A property of states that every call of the handler keeps is kept by the whole run. */
  lemma BackoffPreserves<S>(r: Settings, fn: S -> (Attempt, S), cancel: S -> Option<Error>, s: S, inv: S -> bool)
    requires inv(s)
    requires forall x :: inv(x) ==> inv(fn(x).1)
    ensures inv(Backoff(r, fn, cancel, s).state)
  {
    LoopPreserves(r, fn, cancel, s, 0, Attempt(None, None), [], [], inv);
  }

  lemma {:induction false} LoopPreserves<S>(r: Settings, fn: S -> (Attempt, S), cancel: S -> Option<Error>,
                                          s: S, attempt: nat, last: Attempt, attempts: seq<Attempt>, waits: seq<int>,
                                          inv: S -> bool)
    requires inv(s)
    requires forall x :: inv(x) ==> inv(fn(x).1)
    ensures inv(Loop(r, fn, cancel, s, attempt, last, attempts, waits).state)
    decreases if attempt <= r.maxRetries then r.maxRetries + 1 - attempt else 0
  {
    if attempt <= r.maxRetries {
      var (a, s') := fn(s);
      assert inv(s');
      var w := r.policy(a.resp, r.waitTime, r.maxWaitTime, attempt);
      var c := if a.resp.Some? then cancel(s') else None;
      if ContextErr(a).None? && Fires(r.conditions, a) && w.err.None? && c.None? {
        LoopPreserves(r, fn, cancel, s', attempt + 1, a, attempts + [a], waits + [w.duration], inv);
      }
    }
  }

  /**
   * `backoff` as the source writes it: a `for attempt` loop that reassigns
   * `resp, err`, scans the conditions with an early `break`, and returns
   * on each of the four early exits. It returns what the function
   * `Backoff` describes.
   */
  method RunBackoff<S>(r: Settings, fn: S -> (Attempt, S), cancel: S -> Option<Error>, s0: S)
    returns (resp: Option<HttpResponse>, err: Option<Error>, exit: Exit, s: S)
    ensures var run := Backoff(r, fn, cancel, s0);
      resp == run.resp && err == run.err && exit == run.exit && s == run.state
  {
    resp, err := None, None;
    s := s0;
    var attempt: nat := 0;
    ghost var attempts: seq<Attempt> := [];
    ghost var waits: seq<int> := [];
    while attempt <= r.maxRetries
      invariant Loop(r, fn, cancel, s, attempt, Attempt(resp, err), attempts, waits) == Backoff(r, fn, cancel, s0)
      decreases r.maxRetries + 1 - attempt
    {
      var a, s' := fn(s).0, fn(s).1;
      resp, err := a.resp, a.err;
      ghost var before := s;
      s := s';
      if ContextErr(a).Some? {
        resp := None;
        exit := ContextFailed;
        return;
      }
      var needRetry := false;
      var i := 0;
      while i < |r.conditions|
        invariant 0 <= i <= |r.conditions|
        invariant !needRetry
        invariant forall j :: 0 <= j < i ==> !r.conditions[j](a.resp, a.err)
      {
        if r.conditions[i](resp, err) {
          needRetry := true;
          break;
        }
        i := i + 1;
      }
      if !needRetry {
        exit := NoRetry;
        return;
      }
      var w := r.policy(resp, r.waitTime, r.maxWaitTime, attempt);
      if w.err.Some? {
        resp, err := None, w.err;
        exit := PolicyFailed;
        return;
      }
      var c := if a.resp.Some? then cancel(s) else None;
      if c.Some? {
        resp, err := None, c;
        exit := Cancelled;
        return;
      }
      attempts, waits := attempts + [a], waits + [w.duration];
      attempt := attempt + 1;
    }
    exit := Exhausted;
  }

  /** A counter that every call of the handler advances by one advances once per attempt. */
  lemma BackoffCounts<S>(r: Settings, fn: S -> (Attempt, S), cancel: S -> Option<Error>, s: S, count: S -> int)
    requires forall x :: count(fn(x).1) == count(x) + 1
    ensures count(Backoff(r, fn, cancel, s).state) == count(s) + |Backoff(r, fn, cancel, s).attempts|
  {
    LoopCounts(r, fn, cancel, s, 0, Attempt(None, None), [], [], count);
  }

  lemma {:induction false} LoopCounts<S>(r: Settings, fn: S -> (Attempt, S), cancel: S -> Option<Error>,
                                       s: S, attempt: nat, last: Attempt, attempts: seq<Attempt>, waits: seq<int>,
                                       count: S -> int)
    requires forall x :: count(fn(x).1) == count(x) + 1
    ensures var run := Loop(r, fn, cancel, s, attempt, last, attempts, waits);
      count(run.state) == count(s) + |run.attempts| - |attempts|
    decreases if attempt <= r.maxRetries then r.maxRetries + 1 - attempt else 0
  {
    if attempt <= r.maxRetries {
      var (a, s') := fn(s);
      assert count(s') == count(s) + 1;
      var w := r.policy(a.resp, r.waitTime, r.maxWaitTime, attempt);
      var c := if a.resp.Some? then cancel(s') else None;
      if ContextErr(a).None? && Fires(r.conditions, a) && w.err.None? && c.None? {
        LoopCounts(r, fn, cancel, s', attempt + 1, a, attempts + [a], waits + [w.duration], count);
      }
    }
  }

  /**
   * Under the default settings a handler that always fails with no
   * response is called four times, waits 100, 200, 300 and 400µs (a wait
   * follows the last attempt too), and its last error is returned.
   */
  lemma DefaultRetryAlwaysFailing<S>(fn: S -> (Attempt, S), cancel: S -> Option<Error>, s: S, dialErr: Error)
    requires forall x :: fn(x).0 == Attempt(None, Some(dialErr))
    ensures var run := Backoff(NewRetry(DefaultRetry()), fn, cancel, s);
      && run.exit == Exhausted
      && |run.attempts| == 4
      && run.waits == [100000, 200000, 300000, 400000]
      && run.resp.None? && run.err == Some(dialErr)
  {
    var r := NewRetry(DefaultRetry());
    var a := Attempt(None, Some(dialErr));
    assert Fires(r.conditions, a) by { assert r.conditions[0](a.resp, a.err); }
    var s1 := fn(s).1;
    var s2 := fn(s1).1;
    var s3 := fn(s2).1;
    var s4 := fn(s3).1;
    var l4 := Loop(r, fn, cancel, s4, 4, a, [a, a, a, a], [100000, 200000, 300000, 400000]);
    var l3 := Loop(r, fn, cancel, s3, 3, a, [a, a, a], [100000, 200000, 300000]);
    assert l3 == l4;
    var l2 := Loop(r, fn, cancel, s2, 2, a, [a, a], [100000, 200000]);
    assert l2 == l3;
    var l1 := Loop(r, fn, cancel, s1, 1, a, [a], [100000]);
    assert l1 == l2;
    assert Backoff(r, fn, cancel, s) == l1;
  }
}
