/** The retry-with-backoff combinator `backoff(start_sleep_time, factor,
    border_sleep_time)` of chat/waiters/backoff.py.

    The wrapped call is not run: its successive outcomes are given as a finite
    script of `Attempt`s, and the sleeps become entries of a trace. Times are
    seconds, written as reals, so no floating-point rounding arises. */
module Backoff {
  import opened Util

  /** The three parameters of `backoff(...)`. */
  datatype Policy = Policy(start: real, factor: real, border: real)

  /** `backoff()` with its default arguments, as the readiness probes use it. */
  const Default: Policy := Policy(0.1, 2.0, 10.0)

  /** The exceptions a call can raise. The first two are the members of
      `CONNECTION_ERRORS` (Cassandra's and Redis's connection failures);
      every other exception type is `Other`. */
  datatype Error = NoHostAvailable | RedisConnectionError | Other(name: string)

  predicate IsConnectionError(e: Error) {
    e.NoHostAvailable? || e.RedisConnectionError?
  }

  /** What one call of the wrapped function does: raise, return a plain
      value, or return a generator that yields `items` and then either stops
      or raises `failure`. */
  datatype Attempt<T> =
    | Raises(error: Error)
    | Returns(value: T)
    | Yields(items: seq<T>, failure: Option<Error>)

  /** The value the decorator hands back: a generator is materialised to a list. */
  datatype Value<T> = Single(value: T) | Listed(items: seq<T>)

  /** How the body of the `try` ends for one attempt. */
  datatype Outcome<T> = Done(value: Value<T>) | Failed(error: Error)

  /** The body of the `try`: call the function and, if it returned a
      generator, drain it with `list(...)` -- still inside the `try`, so an
      exception raised while draining is handled like one raised by the call. */
  function Settle<T>(a: Attempt<T>): Outcome<T> {
    match a
    case Raises(e) => Failed(e)
    case Returns(v) => Done(Single(v))
    case Yields(items, None) => Done(Listed(items))
    case Yields(_, Some(e)) => Failed(e)
  }

  /** An attempt the `except CONNECTION_ERRORS` clause catches. */
  predicate Retried<T>(a: Attempt<T>) {
    Settle(a).Failed? && IsConnectionError(Settle(a).error)
  }

  /** An attempt that ends the loop: it returns, or raises something else. */
  predicate Ends<T>(a: Attempt<T>) {
    !Retried(a)
  }

  function Pow(x: real, n: nat): real {
    if n == 0 then 1.0 else x * Pow(x, n - 1)
  }

  function Min(a: real, b: real): real {
    if a <= b then a else b
  }

  /** The loop's local variables `n` and `t`. */
  datatype State = State(n: nat, t: real)

  /** The handler of a caught connection error: recompute `t` from `n`,
      clamp it to the border (then `n` stays), or else advance `n`. */
  function OnConnectionError(p: Policy, s: State): (s': State)
    ensures s'.t <= p.border
    ensures s'.n <= s.n + 1
  {
    var t := Raw(p, s.n);
    if t >= p.border then State(s.n, p.border) else State(s.n + 1, t)
  }

  /** The state after `k` caught connection errors, from `n = 0`,
      `t = start_sleep_time`. */
  function After(p: Policy, k: nat): State {
    if k == 0 then State(0, p.start) else OnConnectionError(p, After(p, k - 1))
  }

  /** The `k`-th sleep (0-indexed): the `t` the handler computes on the
      `(k+1)`-th caught connection error. */
  function Delay(p: Policy, k: nat): real {
    After(p, k + 1).t
  }

  /** Every sleep is at most `border_sleep_time`. */
  lemma DelayBounded(p: Policy, k: nat)
    ensures Delay(p, k) <= p.border
  {
  }

  /** The first sleep is `start_sleep_time`, as `factor ** 0 == 1`, when that
      is below the border. */
  lemma FirstDelay(p: Policy)
    requires p.start < p.border
    ensures Delay(p, 0) == p.start
    ensures After(p, 1).n == 1
  {
    assert Raw(p, 0) == p.start * 1.0;
    assert After(p, 1) == OnConnectionError(p, State(0, p.start));
  }

  /** On each caught connection error `n` advances by one exactly when the
      sleep it produces is below the border, and stays otherwise. */
  lemma CounterAdvance(p: Policy, k: nat)
    ensures Delay(p, k) < p.border ==> After(p, k + 1).n == After(p, k).n + 1
    ensures Delay(p, k) == p.border ==> After(p, k + 1).n == After(p, k).n
  {
  }

  /** The cap is sticky: once a sleep equals the border, so does every later one. */
  lemma {:induction false} StickyCap(p: Policy, j: nat, k: nat)
    requires j <= k
    requires Delay(p, j) == p.border
    ensures Delay(p, k) == p.border
    decreases k - j
  {
    if j < k {
      var s := After(p, j + 1);
      assert s.n == After(p, j).n;
      assert OnConnectionError(p, s) == OnConnectionError(p, After(p, j));
      StickyCap(p, j + 1, k);
    }
  }

  lemma {:induction false} PowAtLeastOne(x: real, n: nat)
    requires x >= 1.0
    ensures Pow(x, n) >= 1.0
  {
    if n > 0 {
      PowAtLeastOne(x, n - 1);
    }
  }

  lemma {:induction false} PowMonotone(x: real, m: nat, k: nat)
    requires x >= 1.0
    requires m <= k
    ensures Pow(x, m) <= Pow(x, k)
  {
    if m < k {
      PowMonotone(x, m, k - 1);
      PowAtLeastOne(x, k - 1);
      assert Pow(x, k) == x * Pow(x, k - 1);
    }
  }

  /** The value `start_sleep_time * factor ** n` the handler computes. */
  function Raw(p: Policy, n: nat): real {
    p.start * Pow(p.factor, n)
  }

  lemma RawMonotone(p: Policy, m: nat, k: nat)
    requires p.factor >= 1.0
    requires p.start >= 0.0
    requires m <= k
    ensures Raw(p, m) <= Raw(p, k)
  {
    var a, b := Pow(p.factor, m), Pow(p.factor, k);
    PowMonotone(p.factor, m, k);
    assert p.start * a <= p.start * b;
  }

  lemma DelayFrom(p: Policy, k: nat)
    ensures var t := Raw(p, After(p, k).n);
      Delay(p, k) == if t >= p.border then p.border else t
  {
  }

  /** For `factor >= 1` the counter either equals the number of caught
      errors or froze earlier at an `n` whose `t` reached the border. */
  lemma {:induction false} CounterShape(p: Policy, k: nat)
    ensures After(p, k).n <= k
    ensures After(p, k).n == k
         || (After(p, k).n < k && Raw(p, After(p, k).n) >= p.border)
  {
    if k > 0 {
      CounterShape(p, k - 1);
    }
  }

  /** The docstring's formula: for `factor >= 1` and `start_sleep_time >= 0`
      the `k`-th sleep is `min(start_sleep_time * factor^k, border_sleep_time)`. */
  lemma ClosedForm(p: Policy, k: nat)
    requires p.factor >= 1.0
    requires p.start >= 0.0
    ensures Delay(p, k) == Min(Raw(p, k), p.border)
  {
    CounterShape(p, k);
    var n := After(p, k).n;
    DelayFrom(p, k);
    RawMonotone(p, n, k);
    ClampedIsMin(p, n, k, Delay(p, k));
  }

  lemma ClampedIsMin(p: Policy, n: nat, k: nat, d: real)
    requires Raw(p, n) <= Raw(p, k)
    requires n == k || Raw(p, n) >= p.border
    requires d == if Raw(p, n) >= p.border then p.border else Raw(p, n)
    ensures d == Min(Raw(p, k), p.border)
  {
  }

  /** With the default arguments the sleeps are 0.1, 0.2, 0.4, 0.8, 1.6, 3.2,
      6.4 and then 10 forever: the cap is reached at the eighth failure. */
  lemma DefaultSchedule(k: nat)
    ensures k < 7 ==> Delay(Default, k) == 0.1 * Pow(2.0, k)
    ensures k >= 7 ==> Delay(Default, k) == 10.0
  {
    ClosedForm(Default, k);
    if k >= 7 {
      ClosedForm(Default, 7);
      assert Pow(2.0, 7) == 128.0;
      StickyCap(Default, 7, k);
    } else {
      PowMonotone(2.0, k, 6);
      assert Pow(2.0, 6) == 64.0;
    }
  }

  /** The default sequence written out: 0.1, 0.2, 0.4, 0.8, 1.6, 3.2, 6.4, 10, 10, ... */
  lemma DefaultDelays(k: nat)
    requires k >= 7
    ensures [Delay(Default, 0), Delay(Default, 1), Delay(Default, 2), Delay(Default, 3),
             Delay(Default, 4), Delay(Default, 5), Delay(Default, 6), Delay(Default, k)]
         == [0.1, 0.2, 0.4, 0.8, 1.6, 3.2, 6.4, 10.0]
  {
    DefaultSchedule(0);
    DefaultSchedule(1);
    DefaultSchedule(2);
    DefaultSchedule(3);
    DefaultSchedule(4);
    DefaultSchedule(5);
    DefaultSchedule(6);
    DefaultSchedule(k);
    assert Pow(2.0, 6) == 64.0;
  }

  /** One entry of the trace: a call of the wrapped function, or a sleep. */
  datatype Step = Call | Sleep(seconds: real)

  /** The trace of `k` calls that each raised a connection error: every call
      is followed by the sleep its handler chose. */
  function Schedule(p: Policy, k: nat): seq<Step> {
    if k == 0 then [] else Schedule(p, k - 1) + [Call, Sleep(Delay(p, k - 1))]
  }

  /** Calls and sleeps alternate, the `j`-th sleep being `Delay(p, j)`. */
  lemma {:induction false} ScheduleShape(p: Policy, k: nat, j: nat)
    requires j < k
    ensures |Schedule(p, k)| == 2 * k
    ensures Schedule(p, k)[2 * j] == Call
    ensures Schedule(p, k)[2 * j + 1] == Sleep(Delay(p, j))
  {
    if j < k - 1 {
      ScheduleShape(p, k - 1, j);
    } else if k > 1 {
      ScheduleShape(p, k - 1, 0);
    }
  }

  /** How `inner` ends: it returns the value of the first call that does
      not raise, or the first exception outside `CONNECTION_ERRORS`
      propagates, or `time.sleep` refuses a negative length; when the script
      runs out first, it is still retrying. */
  datatype RetryResult<T> = Returned(value: Value<T>) | Raised(error: Error) | StillRetrying

  /** What `inner` ends with when an attempt ends the loop. */
  function Verdict<T>(a: Attempt<T>): (r: RetryResult<T>)
    requires Ends(a)
    ensures r.Raised? ==> !IsConnectionError(r.error)
    ensures r != StillRetrying
  {
    match Settle(a)
    case Done(v) => Returned(v)
    case Failed(e) => Raised(e)
  }

  /** `time.sleep(t)` raises `ValueError` for `t < 0`. It runs in the
      `except` handler, outside the `try`, so the error leaves `inner`. */
  const SleepRefused: Error := Other("ValueError")

  /** The `i`-th call of the loop: its attempt, and the sleep its handler
      chooses should it raise a connection error. */
  datatype Turn<T> = Turn(attempt: Attempt<T>, delay: real)

  function Turns<T>(p: Policy, attempts: seq<Attempt<T>>): seq<Turn<T>> {
    seq(|attempts|, i requires 0 <= i < |attempts| => Turn(attempts[i], Delay(p, i)))
  }

  /** A turn after which the loop does not call again: its attempt ends the
      loop, or it raised a connection error and its sleep is negative. */
  predicate Stops<T>(u: Turn<T>) {
    Ends(u.attempt) || u.delay < 0.0
  }

  /** The `while True` loop of `inner`. */
  method Retry<T>(p: Policy, attempts: seq<Attempt<T>>) returns (result: RetryResult<T>, trace: seq<Step>)
    ensures var k := FirstWhere(Turns(p, attempts), Stops);
      && trace == Schedule(p, k) + (if k < |attempts| then [Call] else [])
      && result == (if k == |attempts| then StillRetrying
                    else if Ends(attempts[k]) then Verdict(attempts[k])
                    else Raised(SleepRefused))
  {
    var n: nat := 0;
    var t: real := p.start;
    var i := 0;
    trace := [];
    while i < |attempts|
      invariant i <= |attempts|
      invariant forall j :: 0 <= j < i ==> !Ends(attempts[j]) && Delay(p, j) >= 0.0
      invariant State(n, t) == After(p, i)
      invariant trace == Schedule(p, i)
    {
      trace := trace + [Call];
      var outcome := Settle(attempts[i]);
      if outcome.Done? {
        StopsAt(p, attempts, i);
        result := Returned(outcome.value);
        return;
      } else if !IsConnectionError(outcome.error) {
        StopsAt(p, attempts, i);
        result := Raised(outcome.error);
        return;
      }
      t := p.start * Pow(p.factor, n);
      if t >= p.border {
        t := p.border;
      } else {
        n := n + 1;
      }
      assert State(n, t) == After(p, i + 1);
      if t < 0.0 {
        StopsAt(p, attempts, i);
        result := Raised(SleepRefused);
        return;
      }
      trace := trace + [Sleep(t)];
      i := i + 1;
    }
    StopsAt(p, attempts, i);
    result := StillRetrying;
  }

  /** The loop stops at the first turn that ends it. */
  lemma StopsAt<T>(p: Policy, attempts: seq<Attempt<T>>, i: nat)
    requires i <= |attempts|
    requires forall j :: 0 <= j < i ==> !Ends(attempts[j]) && Delay(p, j) >= 0.0
    requires i < |attempts| ==> Ends(attempts[i]) || Delay(p, i) < 0.0
    ensures FirstWhere(Turns(p, attempts), Stops) == i
  {
    var ts := Turns(p, attempts);
    forall j | 0 <= j < i
      ensures !Stops(ts[j])
    {
      assert ts[j] == Turn(attempts[j], Delay(p, j));
    }
    FirstWhereIs(ts, Stops, i);
  }

  lemma {:induction false} PowNonNegative(x: real, n: nat)
    requires x >= 0.0
    ensures Pow(x, n) >= 0.0
  {
    if n > 0 {
      PowNonNegative(x, n - 1);
      assert Pow(x, n) == x * Pow(x, n - 1);
    }
  }

  /** With non-negative arguments every sleep is non-negative, so
      `time.sleep` never refuses one. */
  lemma SleepNonNegative(p: Policy, k: nat)
    requires p.start >= 0.0 && p.factor >= 0.0 && p.border >= 0.0
    ensures Delay(p, k) >= 0.0
  {
    var n := After(p, k).n;
    DelayFrom(p, k);
    PowNonNegative(p.factor, n);
    var r := Pow(p.factor, n);
    assert Raw(p, n) == p.start * r;
    assert p.start * r >= 0.0;
  }

  /** A negative `start_sleep_time` below the border makes the very first
      sleep negative: the first connection error ends `inner` with
      `ValueError` after a single call. */
  lemma NegativeStartRefused<T>(p: Policy, a: Attempt<T>, rest: seq<Attempt<T>>)
    requires p.start < 0.0 && p.start < p.border
    requires Retried(a)
    ensures FirstWhere(Turns(p, [a] + rest), Stops) == 0
    ensures !Ends(([a] + rest)[0])
  {
    FirstDelay(p);
    var ts := Turns(p, [a] + rest);
    assert ts[0].delay == Delay(p, 0);
    FirstWhereIs(ts, Stops, 0);
  }

  /** There is no attempt limit: with non-negative arguments, after any
      number of caught connection errors the next attempt is still made,
      and a success then ends the loop. */
  lemma {:induction false} NoAttemptLimit<T>(p: Policy, failures: seq<Attempt<T>>, v: T)
    requires p.start >= 0.0 && p.factor >= 0.0 && p.border >= 0.0
    requires forall j :: 0 <= j < |failures| ==> Retried(failures[j])
    ensures FirstWhere(Turns(p, failures + [Returns(v)]), Stops) == |failures|
  {
    var s := failures + [Returns(v)];
    var ts := Turns(p, s);
    forall j | 0 <= j < |failures|
      ensures !Stops(ts[j])
    {
      assert s[j] == failures[j];
      SleepNonNegative(p, j);
    }
    FirstWhereIs(ts, Stops, |failures|);
  }
}
