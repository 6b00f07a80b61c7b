/** push-service: retry nested in the breaker, against a provider that never answers. */
module DeadProvider {
  import opened Common
  import opened Redis
  import opened PushBreaker
  import opened Retry

  /** Requests reaching the provider: each admitted call makes the full number of attempts. */
  function Requests(cfg: Config, retry: RetryConfig, b: Breaker, calls: seq<Call>): nat
    decreases |calls|
  {
    if calls == [] then 0
    else (if Admits(cfg, b, calls[0].start) then Max(1, retry.maxAttempts) else 0)
         + Requests(cfg, retry, Step(cfg, b, calls[0]), calls[1..])
  }

  /** No two consecutive ends are a timeout apart. */
  predicate CloseTogether(cfg: Config, calls: seq<Call>) {
    forall i | 0 <= i && i + 1 < |calls| :: calls[i + 1].end < calls[i].end + 1000 * cfg.timeoutSeconds
  }

  /** From the `left`-th call on every start lies within the timeout after its end. */
  predicate WithinTimeout(cfg: Config, calls: seq<Call>, left: nat) {
    left > 0 && forall i | left <= i < |calls| :: Secs(calls[i].start) < Secs(calls[left - 1].end) + cfg.timeoutSeconds
  }

  lemma {:induction false} RequestsPerCall(cfg: Config, retry: RetryConfig, b: Breaker, calls: seq<Call>)
    ensures Requests(cfg, retry, b, calls) == |Through(cfg, b, calls)| * Max(1, retry.maxAttempts)
    decreases |calls|
  {
    if calls == [] {
    } else {
      var next, rest := Step(cfg, b, calls[0]), calls[1..];
      RequestsPerCall(cfg, retry, next, rest);
      hide Step;
      var n, a := |Through(cfg, next, rest)|, Max(1, retry.maxAttempts);
      assert (1 + n) * a == a + n * a;
    }
  }

  lemma {:induction false} NoneWhileOpen(cfg: Config, b: Breaker, calls: seq<Call>)
    requires b.state.Open? && b.openedAt.Some?
    requires forall i | 0 <= i < |calls| :: Secs(calls[i].start) < b.openedAt.value + cfg.timeoutSeconds
    ensures Through(cfg, b, calls) == [] && Run(cfg, b, calls) == b
    decreases |calls|
  {
    if calls == [] {
    } else {
      NoneWhileOpen(cfg, b, calls[1..]);
    }
  }

  lemma {:induction false} UntilOpen(cfg: Config, b: Breaker, calls: seq<Call>, from: nat, left: nat)
    requires b.state.Closed? && Serial(calls, from)
    requires forall i | 0 <= i < |calls| :: !calls[i].ok
    requires left > 0 && (calls != [] ==> left == Max(1, cfg.failureThreshold) - Count(b.failures, calls[0].end))
    requires CloseTogether(cfg, calls) && WithinTimeout(cfg, calls, left)
    ensures |Through(cfg, b, calls)| == Min(|calls|, left)
    ensures Run(cfg, b, calls).state.Open? <==> |calls| >= left
    decreases |calls|
  {
    if calls == [] {
    } else {
      var next, rest := Step(cfg, b, calls[0]), calls[1..];
      assert forall i | 0 <= i < |rest| :: rest[i] == calls[i + 1];
      FailedCall(cfg, b, calls[0]);
      hide Step, Admits, Count;
      if left == 1 {
        NoneWhileOpen(cfg, next, rest);
      } else {
        UntilOpen(cfg, next, rest, calls[0].end, left - 1);
      }
    }
  }

  /** A failed call in the closed state: one more failure, or the trip. */
  lemma FailedCall(cfg: Config, b: Breaker, c: Call)
    requires b.state.Closed? && !c.ok
    ensures Admits(cfg, b, c.start)
    ensures var n := Count(b.failures, c.end) + 1;
            var next := Step(cfg, b, c);
            if n >= Max(1, cfg.failureThreshold) then next.state.Open? && next.openedAt == Some(Secs(c.end))
            else next.state.Closed? && forall t: nat | t < c.end + 1000 * cfg.timeoutSeconds :: Count(next.failures, t) == n
  {
  }

  /** Closed and with no failure recorded, a dead provider gets exactly failure_threshold times
      max(1, max_attempts) requests, then none while calls are rejected. */
  lemma DeadProviderRequests(cfg: Config, retry: RetryConfig, b: Breaker, calls: seq<Call>, from: nat)
    requires b.state.Closed? && b.failures.None? && Serial(calls, from)
    requires forall i | 0 <= i < |calls| :: !calls[i].ok
    requires CloseTogether(cfg, calls) && WithinTimeout(cfg, calls, Max(1, cfg.failureThreshold))
    ensures Requests(cfg, retry, b, calls) ==
            Min(|calls|, Max(1, cfg.failureThreshold)) * Max(1, retry.maxAttempts)
    ensures Run(cfg, b, calls).state.Open? <==> |calls| >= Max(1, cfg.failureThreshold)
  {
    UntilOpen(cfg, b, calls, from, Max(1, cfg.failureThreshold));
    RequestsPerCall(cfg, retry, b, calls);
  }
}
