/** email-service: the fixed-window rate limiter on a Redis counter. */
module RateLimiter {
  import opened Common
  import opened Redis

  /** How the two commands of an increment end; a failing one may have been carried out. */
  datatype Outcome = Fine | IncrFails(done: bool) | ExpireFails(done: bool)

  /** INCR, and EXPIRE when the counter is new; 0 is reported when either fails. */
  function Increment(e: Option<Entry<nat>>, window: nat, now: nat, o: Outcome): (Option<Entry<nat>>, nat) {
    var inc := Incremented(e, now);
    if o.IncrFails? then (if o.done then Some(inc) else e, 0)
    else if inc.value != 1 then (Some(inc), inc.value)
    else if o.ExpireFails? then (Some(if o.done then For(1, window, now) else inc), 0)
    else (Some(For(1, window, now)), 1)
  }

  predicate Exceeded(e: Option<Entry<nat>>, max: int, window: nat, now: nat, o: Outcome) {
    Increment(e, window, now, o).1 > max
  }

  class RateLimiterService {
    var counters: map<string, Entry<nat>>

    constructor ()
      ensures counters == map[]
    {
      counters := map[];
    }

    function Counter(identifier: string): Option<Entry<nat>>
      reads this
    {
      if identifier in counters then Some(counters[identifier]) else None
    }

    method IncrementRateLimit(identifier: string, window: nat, now: nat, o: Outcome) returns (count: nat)
      modifies this
      ensures (Counter(identifier), count) == Increment(old(Counter(identifier)), window, now, o)
      ensures forall k | k != identifier :: Counter(k) == old(Counter(k))
    {
      var inc := Incremented(Counter(identifier), now);
      if !o.IncrFails? || o.done {
        counters := counters[identifier := inc];
      }
      if o.IncrFails? {
        return 0;
      }
      if inc.value == 1 {
        if !o.ExpireFails? || o.done {
          counters := counters[identifier := For(inc.value, window, now)];
        }
        if o.ExpireFails? {
          return 0;
        }
      }
      return inc.value;
    }

    method IsRateLimitExceeded(identifier: string, max: int, window: nat, now: nat, o: Outcome) returns (exceeded: bool)
      modifies this
      ensures exceeded == Exceeded(old(Counter(identifier)), max, window, now, o)
      ensures Counter(identifier) == Increment(old(Counter(identifier)), window, now, o).0
    {
      var count := IncrementRateLimit(identifier, window, now, o);
      return count > max;
    }

    /** A read that fails reports the whole limit. */
    method GetRateLimitRemaining(identifier: string, max: int, now: nat, readOk: bool) returns (remaining: int)
      ensures remaining == if readOk then Remaining(Counter(identifier), max, now) else max
    {
      if !readOk {
        return max;
      }
      var count := Count(Counter(identifier), now);
      remaining := Max(0, max - count);
    }
  }

  function Remaining(e: Option<Entry<nat>>, max: int, now: nat): nat {
    Max(0, max - Count(e, now))
  }

  // ---------- runs without Redis faults ----------

  predicate Ordered(times: seq<nat>, from: nat) {
    times == [] || (from <= times[0] && Ordered(times[1..], times[0]))
  }

  function Next(e: Option<Entry<nat>>, window: nat, now: nat): Option<Entry<nat>> {
    Increment(e, window, now, Fine).0
  }

  function Admitted(e: Option<Entry<nat>>, max: int, window: nat, now: nat): nat {
    if Exceeded(e, max, window, now, Fine) then 0 else 1
  }

  /** Calls admitted at a time between `a` and `b`, in a run of calls at `times`. */
  function AdmittedIn(e: Option<Entry<nat>>, max: int, window: nat, times: seq<nat>, a: nat, b: nat): nat
    decreases |times|
  {
    if times == [] then 0
    else (if a <= times[0] <= b then Admitted(e, max, window, times[0]) else 0)
         + AdmittedIn(Next(e, window, times[0]), max, window, times[1..], a, b)
  }

  /** A counter as fault-free runs leave it: counting, with the end of its window, which
      began at or before `from`. */
  predicate Windowed(e: Option<Entry<nat>>, window: nat, from: nat) {
    e.Some? ==> e.value.value >= 1 && e.value.expiresAt.Some? && e.value.expiresAt.value <= from + 1000 * window
  }

  function Left(e: Option<Entry<nat>>, max: int): nat
    requires e.Some?
  {
    Max(0, max - e.value.value)
  }

  /** Inside the interval, with a window under way that ends at `end`: what is left of it, and one
      more window if the interval reaches beyond. */
  lemma {:induction false} WindowBound(
    e: Option<Entry<nat>>, max: int, window: nat, times: seq<nat>, a: nat, b: nat, from: nat, end: nat)
    requires Ordered(times, from) && Windowed(e, window, from) && window > 0
    requires e.Some? && e.value.expiresAt == Some(end) && b < end + 1000 * window
    ensures AdmittedIn(e, max, window, times, a, b) <= Left(e, max) + if b >= end then Max(0, max) else 0
    decreases |times|
  {
    if times == [] {
    } else {
      var t := times[0];
      var next := Next(e, window, t);
      if t < end {
        WindowBound(next, max, window, times[1..], a, b, t, end);
      } else if t <= b {
        WindowBound(next, max, window, times[1..], a, b, t, t + 1000 * window);
      } else {
        NoneAfter(next, max, window, times[1..], a, b, t);
      }
    }
  }

  lemma {:induction false} NoneAfter(
    e: Option<Entry<nat>>, max: int, window: nat, times: seq<nat>, a: nat, b: nat, from: nat)
    requires Ordered(times, from) && b < from
    ensures AdmittedIn(e, max, window, times, a, b) == 0
    decreases |times|
  {
    if times == [] {
    } else {
      NoneAfter(Next(e, window, times[0]), max, window, times[1..], a, b, times[0]);
    }
  }

  /** In every run and every interval of the length of the window, bounds included, at most twice
      the limit is admitted. */
  lemma {:induction false} TwiceTheLimit(
    e: Option<Entry<nat>>, max: int, window: nat, times: seq<nat>, a: nat, b: nat, from: nat)
    requires Ordered(times, from) && Windowed(e, window, from) && window > 0
    requires b <= a + 1000 * window
    ensures AdmittedIn(e, max, window, times, a, b) <= 2 * Max(0, max)
    decreases |times|
  {
    if times == [] {
    } else {
      var t := times[0];
      var next := Next(e, window, t);
      if t < a {
        TwiceTheLimit(next, max, window, times[1..], a, b, t);
      } else if t <= b {
        WindowBound(next, max, window, times[1..], a, b, t, next.value.expiresAt.value);
      } else {
        NoneAfter(next, max, window, times[1..], a, b, t);
      }
    }
  }

  /** What remains is exactly how many of any number of further calls at that time are admitted. */
  lemma {:induction false} RemainingIsAdmitted(e: Option<Entry<nat>>, max: int, window: nat, now: nat, n: nat)
    requires Counting(e) && window > 0
    ensures AdmittedIn(e, max, window, Repeat(now, n), now, now) == Min(n, Remaining(e, max, now))
    decreases n
  {
    if n == 0 {
    } else {
      assert Repeat(now, n)[1..] == Repeat(now, n - 1);
      var next := Next(e, window, now);
      assert Count(next, now) == Count(e, now) + 1;
      RemainingIsAdmitted(next, max, window, now, n - 1);
    }
  }

  /** In an interval shorter than the window it is at most one less than twice the limit. */
  lemma {:induction false} TwiceLessOne(
    e: Option<Entry<nat>>, max: nat, window: nat, times: seq<nat>, a: nat, b: nat, from: nat)
    requires Ordered(times, from) && Windowed(e, window, from) && window > 0 && max >= 1
    requires b < a + 1000 * window
    ensures AdmittedIn(e, max, window, times, a, b) <= 2 * max - 1
    decreases |times|
  {
    if times == [] {
    } else {
      var t := times[0];
      var next := Next(e, window, t);
      if t < a {
        TwiceLessOne(next, max, window, times[1..], a, b, t);
      } else if t <= b {
        WindowBound(next, max, window, times[1..], a, b, t, next.value.expiresAt.value);
      } else {
        NoneAfter(next, max, window, times[1..], a, b, t);
      }
    }
  }

  /** A window opened by the first call admits at most the limit until it ends. */
  lemma OncePerWindow(e: Option<Entry<nat>>, max: int, window: nat, times: seq<nat>, a: nat)
    requires window > 0 && times != [] && Ordered(times, times[0])
    requires e.Some? ==> !Live(e.value, times[0])
    ensures AdmittedIn(e, max, window, times, a, times[0] + 1000 * window - 1) <= Max(0, max)
  {
    var t := times[0];
    WindowBound(Next(e, window, t), max, window, times[1..], a, t + 1000 * window - 1, t, t + 1000 * window);
  }

  /** Something remains exactly when the next call at that time is admitted. */
  lemma RemainingIsExact(e: Option<Entry<nat>>, max: int, window: nat, now: nat)
    ensures Remaining(e, max, now) > 0 <==> !Exceeded(e, max, window, now, Fine)
  {
  }

  function Repeat(t: nat, n: nat): seq<nat> {
    if n == 0 then [] else [t] + Repeat(t, n - 1)
  }

  /** Calls at one time while the window is open. */
  lemma {:induction false} RepeatAdmits(
    e: Option<Entry<nat>>, max: int, window: nat, t: nat, n: nat, rest: seq<nat>, a: nat, b: nat)
    requires e.Some? && e.value.value >= 1 && Live(e.value, t) && a <= t <= b
    ensures AdmittedIn(e, max, window, Repeat(t, n) + rest, a, b) ==
            Min(n, Left(e, max)) + AdmittedIn(Some(Entry(e.value.value + n, e.value.expiresAt)), max, window, rest, a, b)
    decreases n
  {
    if n == 0 {
      assert Repeat(t, n) + rest == rest;
    } else {
      assert (Repeat(t, n) + rest)[1..] == Repeat(t, n - 1) + rest;
      var next := Next(e, window, t);
      assert next == Some(Entry(e.value.value + 1, e.value.expiresAt));
      RepeatAdmits(next, max, window, t, n - 1, rest, a, b);
    }
  }

  /** One call, then the rest of its window's limit just before the window ends, then another
      window's limit as soon as it has. */
  function TwoWindows(max: nat, window: nat): seq<nat>
    requires max >= 1 && window >= 1
  {
    [0] + (Repeat(1000 * window - 1, max - 1) + ([1000 * window] + (Repeat(1000 * window, max - 1) + [])))
  }

  /** Both bounds are reached, for every limit and every window. */
  lemma BoundsAreReached(max: nat, window: nat)
    requires max >= 1 && window >= 1
    ensures AdmittedIn(None, max, window, TwoWindows(max, window), 0, 1000 * window) == 2 * max
    ensures AdmittedIn(None, max, window, TwoWindows(max, window), 1000 * window - 1, 1000 * window) == 2 * max - 1
  {
    TwoWindowsAdmit(max, window, 0);
    TwoWindowsAdmit(max, window, 1000 * window - 1);
  }

  lemma TwoWindowsAdmit(max: nat, window: nat, a: nat)
    requires max >= 1 && window >= 1 && a < 1000 * window
    ensures AdmittedIn(None, max, window, TwoWindows(max, window), a, 1000 * window) == 2 * max - if a == 0 then 0 else 1
  {
    var w := 1000 * window;
    var last := Repeat(w, max - 1) + [];
    var second := [w] + last;
    var first := Repeat(w - 1, max - 1) + second;
    var e1, e3 := Some(For(1, window, 0)), Some(For(1, window, w));
    assert ([0] + first)[1..] == first && second[1..] == last;
    RepeatAdmits(e1, max, window, w - 1, max - 1, second, a, w);
    RepeatAdmits(e3, max, window, w, max - 1, [], a, w);
    var e2 := Some(Entry(max, e1.value.expiresAt));
    assert Next(e2, window, w) == e3;
    assert AdmittedIn(e2, max, window, second, a, w) == max;
  }

  /** The limiter lets through what it cannot count: an increment that fails, and a first call whose
      EXPIRE fails, whatever the counter. */
  lemma FaultsLetThrough(e: Option<Entry<nat>>, max: nat, window: nat, now: nat, o: Outcome)
    ensures o.IncrFails? || (o.ExpireFails? && Count(e, now) == 0) ==> !Exceeded(e, max, window, now, o)
    ensures o.ExpireFails? && Count(e, now) > 0 ==> (Exceeded(e, max, window, now, o) <==> Count(e, now) >= max)
  {
  }

  // ---------- a lost EXPIRE ----------

  datatype Attempt = Attempt(at: nat, outcome: Outcome)

  /** The counter after attempts with any faults. */
  function After(e: Option<Entry<nat>>, window: nat, attempts: seq<Attempt>): Option<Entry<nat>>
    decreases |attempts|
  {
    if attempts == [] then e
    else After(Increment(e, window, attempts[0].at, attempts[0].outcome).0, window, attempts[1..])
  }

  /** A counter that exists has counted something. */
  predicate Counting(e: Option<Entry<nat>>) {
    e.Some? ==> e.value.value >= 1
  }

  predicate Endless(e: Option<Entry<nat>>) {
    e.Some? && e.value.expiresAt.None?
  }

  /** A new counter is made, and its EXPIRE is lost or never sent because the reply of INCR is. */
  predicate LosesExpiry(e: Option<Entry<nat>>, a: Attempt) {
    (e.Some? ==> !Live(e.value, a.at)) && (a.outcome == IncrFails(true) || a.outcome == ExpireFails(false))
  }

  predicate LostOnTheWay(e: Option<Entry<nat>>, window: nat, attempts: seq<Attempt>)
    decreases |attempts|
  {
    attempts != [] &&
    (LosesExpiry(e, attempts[0])
     || LostOnTheWay(Increment(e, window, attempts[0].at, attempts[0].outcome).0, window, attempts[1..]))
  }

  lemma {:induction false} EndlessStays(e: Option<Entry<nat>>, window: nat, attempts: seq<Attempt>)
    requires Endless(e) && Counting(e)
    ensures Endless(After(e, window, attempts))
    decreases |attempts|
  {
    if attempts == [] {
    } else {
      EndlessStays(Increment(e, window, attempts[0].at, attempts[0].outcome).0, window, attempts[1..]);
    }
  }

  /** In every run, faults included, a counter without end comes from exactly such a loss. */
  lemma {:induction false} EndlessExactly(e: Option<Entry<nat>>, window: nat, attempts: seq<Attempt>)
    requires !Endless(e) && Counting(e)
    ensures Endless(After(e, window, attempts)) <==> LostOnTheWay(e, window, attempts)
    decreases |attempts|
  {
    if attempts == [] {
    } else {
      var next := Increment(e, window, attempts[0].at, attempts[0].outcome).0;
      assert Endless(next) <==> LosesExpiry(e, attempts[0]);
      if Endless(next) {
        EndlessStays(next, window, attempts[1..]);
      } else {
        EndlessExactly(next, window, attempts[1..]);
      }
    }
  }

  /** An exhausted counter is locked, no call being admitted at any later time, exactly when it has no end. */
  lemma LockedExactly(e: Option<Entry<nat>>, max: nat, window: nat, from: nat)
    requires e.Some? && e.value.value >= max >= 1
    ensures (forall t: nat | from <= t :: Exceeded(e, max, window, t, Fine)) <==> Endless(e)
  {
    if !Endless(e) {
      assert !Exceeded(e, max, window, from + e.value.expiresAt.value, Fine);
    }
  }

  function Calls(n: nat): seq<Attempt> {
    if n == 0 then [] else [Attempt(0, Fine)] + Calls(n - 1)
  }

  lemma {:induction false} CallsCount(e: Option<Entry<nat>>, window: nat, n: nat)
    requires Endless(e) && e.value.value >= 1
    ensures After(e, window, Calls(n)) == Some(Forever(e.value.value + n))
    decreases n
  {
    if n == 0 {
    } else {
      CallsCount(Increment(e, window, 0, Fine).0, window, n - 1);
    }
  }

  /** The lock is reached for every limit and window, by either loss and the calls of one limit. */
  lemma LockIsReached(max: nat, window: nat, loss: Outcome)
    requires max >= 1 && (loss == IncrFails(true) || loss == ExpireFails(false))
    ensures var e := After(None, window, [Attempt(0, loss)] + Calls(max - 1));
            e == Some(Forever(max)) && forall t: nat :: Exceeded(e, max, window, t, Fine)
  {
    assert ([Attempt(0, loss)] + Calls(max - 1))[1..] == Calls(max - 1);
    CallsCount(Some(Forever(1)), window, max - 1);
    LockedExactly(Some(Forever(max)), max, window, 0);
  }

  /** A counter without end admits what is left of its limit and then nothing at any time. */
  lemma {:induction false} LostExpiryIsForever(e: Option<Entry<nat>>, max: int, window: nat, times: seq<nat>, a: nat, b: nat)
    requires Endless(e) && e.value.value >= 1
    ensures AdmittedIn(e, max, window, times, a, b) <= Left(e, max)
    decreases |times|
  {
    if times == [] {
    } else {
      LostExpiryIsForever(Next(e, window, times[0]), max, window, times[1..], a, b);
    }
  }
}
