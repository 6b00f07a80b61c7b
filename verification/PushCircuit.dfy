/** push-service's circuit breaker as it runs: commands on shared Redis keys, any of
    which may fail. */
module PushCircuit {
  import opened Common
  import opened Redis
  import opened PushRedis
  import opened Retry
  import PushBreaker

  function AsStr(s: PushBreaker.State): string {
    match s
    case Closed => "closed"
    case Open => "open"
    case HalfOpen => "half_open"
  }

  function FromString(s: string): PushBreaker.State {
    if s == "open" then PushBreaker.Open
    else if s == "half_open" then PushBreaker.HalfOpen
    else PushBreaker.Closed
  }

  /** The keys of a service as the breaker reads them. */
  function View(d: Data, service: string): PushBreaker.Breaker {
    PushBreaker.Breaker(
      if StateKey(service) in d.texts then FromString(d.texts[StateKey(service)].value) else PushBreaker.Closed,
      NumberEntry(d, FailuresKey(service)),
      if SuccessesKey(service) in d.numbers then d.numbers[SuccessesKey(service)].value else 0,
      if OpenedAtKey(service) in d.numbers then Some(d.numbers[OpenedAtKey(service)].value) else None)
  }

  /** Of a service's keys only the failure counter ever expires. */
  predicate Lasting(d: Data, service: string) {
    && (StateKey(service) in d.texts ==> d.texts[StateKey(service)].expiresAt.None?)
    && (SuccessesKey(service) in d.numbers ==> d.numbers[SuccessesKey(service)].expiresAt.None?)
    && (OpenedAtKey(service) in d.numbers ==> d.numbers[OpenedAtKey(service)].expiresAt.None?)
  }

  /** What a failing `increment_failure_count` may leave: nothing, the counter without its new expiry,
      or both commands carried out. */
  predicate CountedInPart(cfg: PushBreaker.Config, b: PushBreaker.Breaker, after: PushBreaker.Breaker, now: nat) {
    || after == b
    || after == b.(failures := Some(Incremented(b.failures, now)))
    || after == b.(failures := Some(For(Count(b.failures, now) + 1, cfg.timeoutSeconds, now)))
  }

  /** What a failing `record_failure` may leave: it stopped while counting, or with the count whole it
      opened the breaker or not, and with or without the opening time. */
  predicate FailureInPart(cfg: PushBreaker.Config, b: PushBreaker.Breaker, after: PushBreaker.Breaker, now: nat) {
    || (if b.state.HalfOpen? then after == b else CountedInPart(cfg, b, after, now))
    || after == PushBreaker.RecordFailure(cfg, b, now)
    || (after == PushBreaker.LostWrite(cfg, b, now) && after.state.Open?)
  }

  /** What a failing `record_success` may leave. */
  predicate SuccessInPart(cfg: PushBreaker.Config, b: PushBreaker.Breaker, after: PushBreaker.Breaker) {
    || after == b
    || (b.state.Closed? && after == b.(failures := None))
    || (b.state.HalfOpen? && after == b.(successes := b.successes + 1))
    || (b.state.HalfOpen? && b.successes + 1 >= cfg.successThreshold
        && ResetInPart(b.(state := PushBreaker.Closed, successes := b.successes + 1), after))
  }

  /** What a failing `reset_counters` may leave: the keys go one after the other. */
  predicate ResetInPart(b: PushBreaker.Breaker, after: PushBreaker.Breaker) {
    || after == b
    || after == b.(failures := None)
    || after == b.(failures := None, successes := 0)
    || after == b.(failures := None, successes := 0, openedAt := None)
  }

  /** Nothing but the keys of `service` differs. */
  ghost predicate OnlyKeysOf(service: string, d: Data, e: Data) {
    && (forall k | k != StateKey(service) :: (k in d.texts <==> k in e.texts) && (k in d.texts ==> d.texts[k] == e.texts[k]))
    && (forall k: NumberKey | k.service != service ::
          (k in d.numbers <==> k in e.numbers) && (k in d.numbers ==> d.numbers[k] == e.numbers[k]))
  }

  class CircuitBreaker {
    const service: string
    const redis: Server
    const config: PushBreaker.Config

    constructor (service: string, redis: Server, config: PushBreaker.Config)
      ensures this.service == service && this.redis == redis && this.config == config
    {
      this.service, this.redis, this.config := service, redis, config;
    }

    ghost function Now(): PushBreaker.Breaker
      reads redis
    {
      View(redis.data, service)
    }

    ghost predicate Valid()
      reads redis
    {
      Lasting(redis.data, service)
    }

    method GetState() returns (r: Result<PushBreaker.State, PushError>)
      requires Valid()
      modifies redis`faults
      ensures r.Ok? ==> r.value == Now().state && redis.faults == old(redis.faults)
      ensures r.Err? ==> redis.faults > old(redis.faults) && r.error == RedisFault
    {
      var value :- redis.GetText(StateKey(service));
      return Ok(if value.Some? then FromString(value.value) else PushBreaker.Closed);
    }

    method SetState(s: PushBreaker.State) returns (r: Result<(), PushError>)
      requires Valid()
      modifies redis`data, redis`faults
      ensures Valid() && OnlyKeysOf(service, old(redis.data), redis.data)
      ensures r.Ok? ==> redis.faults == old(redis.faults) && Now() == old(Now()).(state := s)
      ensures r.Err? ==> redis.faults > old(redis.faults) && r.error == RedisFault
      ensures r.Err? ==> Now() == old(Now()) || Now() == old(Now()).(state := s)
    {
      var _ :- redis.Execute(SetText(StateKey(service), AsStr(s)));
      return Ok(());
    }

    method IncrementFailureCount() returns (r: Result<nat, PushError>)
      requires Valid()
      modifies redis`data, redis`faults
      ensures Valid() && OnlyKeysOf(service, old(redis.data), redis.data)
      ensures r.Ok? ==> && redis.faults == old(redis.faults)
                        && r.value == Count(old(Now()).failures, redis.now) + 1
                        && Now() == old(Now()).(failures := Some(For(r.value, config.timeoutSeconds, redis.now)))
      ensures r.Err? ==> redis.faults > old(redis.faults) && r.error == RedisFault
      ensures r.Err? ==> CountedInPart(config, old(Now()), Now(), redis.now)
    {
      var key := FailuresKey(service);
      var count :- redis.Execute(Incr(key));
      var _ :- redis.Execute(Expire(key, config.timeoutSeconds));
      return Ok(count);
    }

    method ResetFailureCount() returns (r: Result<(), PushError>)
      requires Valid()
      modifies redis`data, redis`faults
      ensures Valid() && OnlyKeysOf(service, old(redis.data), redis.data)
      ensures r.Ok? ==> redis.faults == old(redis.faults) && Now() == old(Now()).(failures := None)
      ensures r.Err? ==> redis.faults > old(redis.faults) && r.error == RedisFault
      ensures r.Err? ==> Now() == old(Now()) || Now() == old(Now()).(failures := None)
    {
      var _ :- redis.Execute(Del(FailuresKey(service)));
      return Ok(());
    }

    method IncrementSuccessCount() returns (r: Result<nat, PushError>)
      requires Valid()
      modifies redis`data, redis`faults
      ensures Valid() && OnlyKeysOf(service, old(redis.data), redis.data)
      ensures r.Ok? ==> && redis.faults == old(redis.faults) && r.value == old(Now()).successes + 1
                        && Now() == old(Now()).(successes := r.value)
      ensures r.Err? ==> redis.faults > old(redis.faults) && r.error == RedisFault
      ensures r.Err? ==> Now() == old(Now()) || Now() == old(Now()).(successes := old(Now()).successes + 1)
    {
      var count :- redis.Execute(Incr(SuccessesKey(service)));
      return Ok(count);
    }

    method ResetCounters() returns (r: Result<(), PushError>)
      requires Valid()
      modifies redis`data, redis`faults
      ensures Valid() && OnlyKeysOf(service, old(redis.data), redis.data)
      ensures r.Ok? ==> && redis.faults == old(redis.faults)
                        && Now() == PushBreaker.Breaker(old(Now()).state, None, 0, None)
      ensures r.Err? ==> redis.faults > old(redis.faults) && r.error == RedisFault
      ensures r.Err? ==> ResetInPart(old(Now()), Now())
    {
      var _ :- redis.Execute(Del(FailuresKey(service)));
      var _ :- redis.Execute(Del(SuccessesKey(service)));
      var _ :- redis.Execute(Del(OpenedAtKey(service)));
      return Ok(());
    }

    method SetOpenedAt() returns (r: Result<(), PushError>)
      requires Valid()
      modifies redis`data, redis`faults
      ensures Valid() && OnlyKeysOf(service, old(redis.data), redis.data)
      ensures r.Ok? ==> && redis.faults == old(redis.faults)
                        && Now() == old(Now()).(openedAt := Some(PushBreaker.Secs(redis.now)))
      ensures r.Err? ==> redis.faults > old(redis.faults) && r.error == RedisFault
      ensures r.Err? ==> Now() == old(Now()) || Now() == old(Now()).(openedAt := Some(PushBreaker.Secs(redis.now)))
    {
      var now := redis.now / 1000;
      var _ :- redis.Execute(SetNumber(OpenedAtKey(service), now));
      return Ok(());
    }

    method ShouldAttemptReset() returns (r: Result<bool, PushError>)
      requires Valid() && Now().state.Open?
      modifies redis`faults
      ensures r.Ok? ==> redis.faults == old(redis.faults) && r.value == PushBreaker.Admits(config, Now(), redis.now)
      ensures r.Err? ==> redis.faults > old(redis.faults) && r.error == RedisFault
    {
      var openedAt :- redis.GetNumber(OpenedAtKey(service));
      if openedAt.Some? {
        var now := redis.now / 1000;
        var elapsed := now - openedAt.value;
        return Ok(elapsed >= config.timeoutSeconds);
      }
      return Ok(false);
    }

    method RecordSuccess() returns (r: Result<(), PushError>)
      requires Valid()
      modifies redis`data, redis`faults
      ensures Valid() && OnlyKeysOf(service, old(redis.data), redis.data)
      ensures r.Ok? ==> redis.faults == old(redis.faults) && Now() == PushBreaker.RecordSuccess(config, old(Now()))
      ensures r.Err? ==> redis.faults > old(redis.faults) && r.error == RedisFault
      ensures r.Err? ==> SuccessInPart(config, old(Now()), Now())
    {
      var state :- GetState();
      if state == PushBreaker.HalfOpen {
        var successes :- IncrementSuccessCount();
        if successes >= config.successThreshold {
          var _ :- SetState(PushBreaker.Closed);
          var _ :- ResetCounters();
        }
      } else if state == PushBreaker.Closed {
        var _ :- ResetFailureCount();
      }
      return Ok(());
    }

    method RecordFailure() returns (r: Result<(), PushError>)
      requires Valid()
      modifies redis`data, redis`faults
      ensures Valid() && OnlyKeysOf(service, old(redis.data), redis.data)
      ensures r.Ok? ==> && redis.faults == old(redis.faults)
                        && Now() == PushBreaker.RecordFailure(config, old(Now()), redis.now)
      ensures r.Err? ==> redis.faults > old(redis.faults) && r.error == RedisFault
      ensures r.Err? ==> FailureInPart(config, old(Now()), Now(), redis.now)
    {
      var state :- GetState();
      if state == PushBreaker.HalfOpen {
        var _ :- SetState(PushBreaker.Open);
        var _ :- SetOpenedAt();
        return Ok(());
      }
      var failures :- IncrementFailureCount();
      if failures >= config.failureThreshold {
        var _ :- SetState(PushBreaker.Open);
        var _ :- SetOpenedAt();
      }
      return Ok(());
    }

    /** `try_operation`, the operation being the retried request. */
    method TryOperation(retry: RetryConfig, op: Operation) returns (r: Result<(), PushError>)
      requires Valid()
      modifies redis, op`log, op`successes
      ensures Valid() && OnlyKeysOf(service, old(redis.data), redis.data)
      ensures redis.now >= old(redis.now) && redis.faults >= old(redis.faults)
      ensures Repeated(old(op.log), op.log, op.request)
      ensures 0 < |op.log| - |old(op.log)| <= Max(1, retry.maxAttempts)
      ensures op.successes == old(op.successes) || op.successes == old(op.successes) + 1
      ensures op.successes == old(op.successes) ==> |op.log| == |old(op.log)| + Max(1, retry.maxAttempts)
      ensures r.Ok? ==> op.successes == old(op.successes) + 1
      ensures r != Err(CircuitOpen)
      ensures r.Err? && op.successes > old(op.successes) ==> redis.faults > old(redis.faults)
      ensures redis.faults == old(redis.faults) ==>
                && (r.Ok? <==> op.successes > old(op.successes))
                && Now() == (if r.Ok? then PushBreaker.RecordSuccess(config, old(Now()))
                             else PushBreaker.RecordFailure(config, old(Now()), redis.now))
    {
      var ok, sleeps := RetryWithBackoff(retry, op, redis);
      if ok {
        var _ :- RecordSuccess();
        return Ok(());
      } else {
        var _ :- RecordFailure();
        return Err(OperationFailed);
      }
    }

    /** `call`.  Without a Redis fault it is one step of the breaker; with faults it still
        runs the operation at most once, and reports success only after a success. */
    method Call(retry: RetryConfig, op: Operation) returns (r: Result<(), PushError>)
      requires Valid()
      modifies redis, op`log, op`successes
      ensures Valid() && OnlyKeysOf(service, old(redis.data), redis.data)
      ensures redis.now >= old(redis.now) && redis.faults >= old(redis.faults)
      ensures Repeated(old(op.log), op.log, op.request)
      ensures op.successes == old(op.successes) || op.successes == old(op.successes) + 1
      ensures r.Ok? ==> op.successes == old(op.successes) + 1
      ensures r.Err? && op.successes > old(op.successes) ==> redis.faults > old(redis.faults)
      ensures |op.log| == |old(op.log)| ==> r.Err?
      ensures redis.faults == old(redis.faults) ==>
                var admitted := PushBreaker.Admits(config, old(Now()), old(redis.now));
                && Now() == PushBreaker.Step(config, old(Now()),
                              PushBreaker.Call(old(redis.now), redis.now, op.successes > old(op.successes)))
                && (r.Ok? <==> op.successes > old(op.successes))
                && (r == Err(CircuitOpen) <==> !admitted)
                && (admitted <==> |op.log| > |old(op.log)|)
                && (admitted && r.Err? ==> |op.log| == |old(op.log)| + Max(1, retry.maxAttempts))
    {
      var state :- GetState();
      match state {
        case Open =>
          var attempt :- ShouldAttemptReset();
          if attempt {
            var _ :- SetState(PushBreaker.HalfOpen);
            r := TryOperation(retry, op);
            return;
          }
          return Err(CircuitOpen);
        case HalfOpen =>
          r := TryOperation(retry, op);
        case Closed =>
          r := TryOperation(retry, op);
      }
    }
  }

  // ---------- the lost write, command by command ----------

  /** The keys after the commands of a `record_failure` that trips a closed breaker, all but the last. */
  function TrippedInPart(d: Data, service: string, cfg: PushBreaker.Config, now: nat): Data {
    Effect(Effect(Effect(d, Incr(FailuresKey(service)), now),
                  Expire(FailuresKey(service), cfg.timeoutSeconds), now),
           SetText(StateKey(service), AsStr(PushBreaker.Open)), now)
  }

  /** Every command carried out but the one that writes the opening time is the lost write: on a trip
      after counting, on a reopening at once. */
  lemma LostWriteIsReal(d: Data, service: string, cfg: PushBreaker.Config, now: nat)
    requires Lasting(d, service)
    ensures var b := View(d, service);
            && (b.state.HalfOpen? ==>
                  View(Effect(d, SetText(StateKey(service), AsStr(PushBreaker.Open)), now), service)
                  == PushBreaker.LostWrite(cfg, b, now))
            && (b.state.Closed? && Count(b.failures, now) + 1 >= cfg.failureThreshold ==>
                  View(TrippedInPart(d, service, cfg, now), service) == PushBreaker.LostWrite(cfg, b, now))
  {
  }
}
