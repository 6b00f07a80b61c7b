/** The Redis connection of push-service, with failing commands, and the clock. */
module PushRedis {
  import opened Common
  import opened Redis

  datatype TextKey = StateKey(service: string) | IdempotencyKey(key: string)

  datatype NumberKey = FailuresKey(service: string) | SuccessesKey(service: string) | OpenedAtKey(service: string)

  datatype Data = Data(texts: map<TextKey, Entry<string>>, numbers: map<NumberKey, Entry<nat>>)

  datatype Command =
    | SetText(tk: TextKey, text: string)
    | SetTextFor(tk: TextKey, text: string, ttl: nat)
    | SetNumber(nk: NumberKey, n: nat)
    | Incr(nk: NumberKey)
    | Expire(nk: NumberKey, ttl: nat)
    | Del(nk: NumberKey)

  function NumberEntry(d: Data, k: NumberKey): Option<Entry<nat>> {
    if k in d.numbers then Some(d.numbers[k]) else None
  }

  /** What a command does; SETEX with an expiry of 0 is refused. */
  function Effect(d: Data, c: Command, now: nat): Data {
    match c
    case SetText(k, v) => d.(texts := d.texts[k := Forever(v)])
    case SetTextFor(k, v, ttl) => if ttl > 0 then d.(texts := d.texts[k := For(v, ttl, now)]) else d
    case SetNumber(k, n) => d.(numbers := d.numbers[k := Forever(n)])
    case Incr(k) => d.(numbers := d.numbers[k := Incremented(NumberEntry(d, k), now)])
    case Expire(k, ttl) =>
      if k in d.numbers && Live(d.numbers[k], now)
      then d.(numbers := d.numbers[k := For(d.numbers[k].value, ttl, now)]) else d
    case Del(k) => d.(numbers := d.numbers - {k})
  }

  predicate Refused(c: Command) {
    c.SetTextFor? && c.ttl == 0
  }

  datatype PushError =
    | RedisFault
    | CircuitOpen
    | OperationFailed
    | BadPayload
    | MissingPushToken
    | InvalidToken
    | TemplateFailed
    | RenderFailed
    | RenderPanic      // not an error value: the task unwinds
    | SendFailed

  class Server {
    var data: Data
    var now: nat
    ghost var faults: nat

    constructor ()
      ensures data == Data(map[], map[]) && now == 0 && faults == 0
    {
      data, now, faults := Data(map[], map[]), 0, 0;
    }

    method GetText(k: TextKey) returns (r: Result<Option<string>, PushError>)
      modifies this`faults
      ensures r.Ok? ==> r.value == Lookup(data.texts, k, now) && faults == old(faults)
      ensures r.Err? ==> r.error == RedisFault && faults == old(faults) + 1
    {
      if * {
        faults := faults + 1;
        return Err(RedisFault);
      }
      return Ok(Lookup(data.texts, k, now));
    }

    method GetNumber(k: NumberKey) returns (r: Result<Option<nat>, PushError>)
      modifies this`faults
      ensures r.Ok? ==> r.value == Lookup(data.numbers, k, now) && faults == old(faults)
      ensures r.Err? ==> r.error == RedisFault && faults == old(faults) + 1
    {
      if * {
        faults := faults + 1;
        return Err(RedisFault);
      }
      return Ok(Lookup(data.numbers, k, now));
    }

    /** A writing command: its reply is the counter it leaves.  When it fails it may
        have been carried out all the same. */
    method Execute(c: Command) returns (r: Result<nat, PushError>)
      modifies this`data, this`faults
      ensures r.Ok? ==> faults == old(faults) && data == Effect(old(data), c, now) && !Refused(c)
      ensures r.Ok? && c.Incr? ==> r.value == Incremented(NumberEntry(old(data), c.nk), now).value
      ensures r.Err? ==> r.error == RedisFault && faults == old(faults) + 1
      ensures r.Err? ==> data == old(data) || data == Effect(old(data), c, now)
    {
      if Refused(c) {
        faults := faults + 1;
        return Err(RedisFault);
      }
      if * {
        faults := faults + 1;
        if * {
          data := Effect(data, c, now);
        }
        return Err(RedisFault);
      }
      data := Effect(data, c, now);
      return Ok(if c.Incr? then data.numbers[c.nk].value else 0);
    }

    method Wait(ms: nat)
      modifies this`now
      ensures now == old(now) + ms
    {
      now := now + ms;
    }
  }

  /** `after` is `before` and further copies of one request. */
  predicate Repeated(before: seq<seq<string>>, after: seq<seq<string>>, request: seq<string>) {
    before <= after && forall i | |before| <= i < |after| :: after[i] == request
  }

  /** A call to another service: what is sent, all that has been sent, and how often that succeeded.
      An attempt takes time and succeeds or fails. */
  class Operation {
    var request: seq<string>
    var log: seq<seq<string>>
    var successes: nat

    constructor ()
      ensures request == [] && log == [] && successes == 0
    {
      request, log, successes := [], [], 0;
    }

    method Attempt(clock: Server) returns (ok: bool)
      modifies this`log, this`successes, clock`now
      ensures log == old(log) + [request]
      ensures successes == old(successes) + if ok then 1 else 0
      ensures clock.now >= old(clock.now)
    {
      log := log + [request];
      var ms: nat :| true;
      clock.Wait(ms);
      if * {
        successes := successes + 1;
        ok := true;
      } else {
        ok := false;
      }
    }
  }
}
