/** push-service: retry with exponential backoff and jitter. */
module Retry {
  import opened Common
  import opened PushRedis

  const U64 := 0x1_0000_0000_0000_0000

  datatype RetryConfig = RetryConfig(
    maxAttempts: nat, initialDelayMs: nat, maxDelayMs: nat, backoffMultiplier: nat)

  /** The delay before jitter after the k-th failure, counted from 0; the product is taken
      in 64 bits. */
  function Delay(cfg: RetryConfig, k: nat): nat {
    if k == 0 then cfg.initialDelayMs
    else NextDelay(cfg, Delay(cfg, k - 1))
  }

  function NextDelay(cfg: RetryConfig, delay: nat): nat {
    Min((delay * cfg.backoffMultiplier) % U64, cfg.maxDelayMs)
  }

  /** A jitter of at most a tenth either way, rounded down to milliseconds. */
  ghost predicate Jittered(delay: nat, slept: nat) {
    exists j: real :: -0.1 <= j <= 0.1 && slept == Jitter(delay, j)
  }

  function Jitter(delay: nat, j: real): int {
    (delay as real * (1.0 + j)).Floor
  }

  function Sum(xs: seq<nat>): nat {
    if xs == [] then 0 else Sum(xs[..|xs| - 1]) + xs[|xs| - 1]
  }

  function Delays(cfg: RetryConfig, n: nat): (d: seq<nat>)
    ensures |d| == n && forall k | 0 <= k < n :: d[k] == Delay(cfg, k)
  {
    if n == 0 then [] else Delays(cfg, n - 1) + [Delay(cfg, n - 1)]
  }

  /** What one run of the retry loop amounts to: so many attempts, so long a sleep after each
      but the last. */
  ghost predicate RetryRun(cfg: RetryConfig, ok: bool, attempts: int, sleeps: seq<nat>) {
    && 1 <= attempts <= Max(1, cfg.maxAttempts)
    && (!ok ==> attempts == Max(1, cfg.maxAttempts))
    && |sleeps| == attempts - 1
    && forall k | 0 <= k < |sleeps| :: Jittered(Delay(cfg, k), sleeps[k])
  }

  method RetryWithBackoff(cfg: RetryConfig, op: Operation, clock: Server) returns (ok: bool, sleeps: seq<nat>)
    modifies op`log, op`successes, clock`now
    ensures RetryRun(cfg, ok, |op.log| - |old(op.log)|, sleeps)
    ensures Repeated(old(op.log), op.log, op.request)
    ensures op.successes == old(op.successes) + if ok then 1 else 0
    ensures clock.now >= old(clock.now) + Sum(sleeps)
  {
    hide Jitter, NextDelay, Pow;
    var attempt := 0;
    var delayMs := cfg.initialDelayMs;
    sleeps := [];
    while true
      invariant |op.log| == |old(op.log)| + attempt && Repeated(old(op.log), op.log, op.request)
      invariant op.successes == old(op.successes)
      invariant |sleeps| == attempt <= Max(0, cfg.maxAttempts - 1)
      invariant delayMs == Delay(cfg, attempt)
      invariant forall k | 0 <= k < |sleeps| :: Jittered(Delay(cfg, k), sleeps[k])
      invariant clock.now >= old(clock.now) + Sum(sleeps)
      decreases cfg.maxAttempts - attempt
    {
      attempt := attempt + 1;
      var done := op.Attempt(clock);
      if done {
        return true, sleeps;
      }
      if attempt >= cfg.maxAttempts {
        return false, sleeps;
      }
      var jitter: real :| -0.1 <= jitter <= 0.1;
      JitterBounds(delayMs, jitter);
      var jittered: nat := Jitter(delayMs, jitter);
      clock.Wait(jittered);
      assert (sleeps + [jittered])[..|sleeps|] == sleeps;
      sleeps := sleeps + [jittered];
      delayMs := NextDelay(cfg, delayMs);
    }
  }

  /** A jittered delay is at most eleven tenths of the delay and, but for the rounding, at least nine. */
  lemma JitterBounds(delay: nat, j: real)
    requires -0.1 <= j <= 0.1
    ensures 0 <= Jitter(delay, j)
    ensures 9 * delay < 10 * (Jitter(delay, j) + 1)
    ensures 10 * Jitter(delay, j) <= 11 * delay
  {
    var p := Product(delay as real, j);
    assert Jitter(delay, j) == p.Floor;
    assert p.Floor as real <= p < p.Floor as real + 1.0;
    hide Jitter;
  }

  lemma Product(d: real, j: real) returns (p: real)
    requires d >= 0.0 && -0.1 <= j <= 0.1
    ensures p == d * (1.0 + j) && d * 0.9 <= p <= d * 1.1
  {
    p := d * (1.0 + j);
    assert d * (j + 0.1) >= 0.0 && d * (0.1 - j) >= 0.0;
  }

  /** All sleeps together take at most eleven tenths of the delays and, but for the rounding, at least nine. */
  lemma {:induction false} TotalSleep(cfg: RetryConfig, sleeps: seq<nat>)
    requires forall k | 0 <= k < |sleeps| :: Jittered(Delay(cfg, k), sleeps[k])
    ensures 10 * Sum(sleeps) <= 11 * Sum(Delays(cfg, |sleeps|))
    ensures 9 * Sum(Delays(cfg, |sleeps|)) <= 10 * (Sum(sleeps) + |sleeps|)
  {
    hide Jitter, Delay;
    if sleeps == [] {
    } else {
      var n := |sleeps| - 1;
      TotalSleep(cfg, sleeps[..n]);
      assert Delays(cfg, n + 1)[..n] == Delays(cfg, n);
      assert Jittered(Delay(cfg, n), sleeps[n]);
      var j: real :| -0.1 <= j <= 0.1 && sleeps[n] == Jitter(Delay(cfg, n), j);
      JitterBounds(Delay(cfg, n), j);
    }
  }

  // ---------- the delays in closed form ----------

  function Pow(b: nat, e: nat): nat {
    if e == 0 then 1 else b * Pow(b, e - 1)
  }

  lemma {:induction false} DelayBounded(cfg: RetryConfig, k: nat)
    ensures Delay(cfg, k) <= Max(cfg.initialDelayMs, cfg.maxDelayMs)
  {
    if k == 0 {
    } else {
      DelayBounded(cfg, k - 1);
    }
  }

  lemma MulMonotone(a: nat, b: nat, m: nat)
    requires a <= b
    ensures a * m <= b * m
  {
  }

  /** No product overflows 64 bits when the greater of the two configured delays times
      the multiplier fits. */
  lemma NoOverflow(cfg: RetryConfig, k: nat)
    requires Max(cfg.initialDelayMs, cfg.maxDelayMs) * cfg.backoffMultiplier < U64
    ensures Delay(cfg, k) * cfg.backoffMultiplier < U64
  {
    DelayBounded(cfg, k);
    MulMonotone(Delay(cfg, k), Max(cfg.initialDelayMs, cfg.maxDelayMs), cfg.backoffMultiplier);
  }

  /** The k-th delay is the exponential one cut off at the maximum. */
  lemma {:induction false} DelayClosedForm(cfg: RetryConfig, k: nat)
    requires cfg.backoffMultiplier >= 1 && cfg.initialDelayMs <= cfg.maxDelayMs
    requires cfg.maxDelayMs * cfg.backoffMultiplier < U64
    ensures Delay(cfg, k) == Min(cfg.initialDelayMs * Pow(cfg.backoffMultiplier, k), cfg.maxDelayMs)
  {
    if k == 0 {
    } else {
      DelayClosedForm(cfg, k - 1);
      NextDelayFits(cfg, Delay(cfg, k - 1));
      hide NextDelay;
      CutOff(cfg.initialDelayMs, Pow(cfg.backoffMultiplier, k - 1), cfg.backoffMultiplier, cfg.maxDelayMs);
    }
  }

  lemma NextDelayFits(cfg: RetryConfig, d: nat)
    requires d <= cfg.maxDelayMs && cfg.maxDelayMs * cfg.backoffMultiplier < U64
    ensures NextDelay(cfg, d) == Min(d * cfg.backoffMultiplier, cfg.maxDelayMs)
  {
    MulMonotone(d, cfg.maxDelayMs, cfg.backoffMultiplier);
  }

  lemma CutOff(i: nat, p: nat, m: nat, max: nat)
    requires m >= 1
    ensures Min(Min(i * p, max) * m, max) == Min(i * (m * p), max)
  {
    assert i * (m * p) == (i * p) * m;
    MulMonotone(1, m, i * p);
    if i * p > max {
      MulMonotone(1, m, max);
    }
  }
}
