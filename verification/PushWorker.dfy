/** push-service's handler of one delivery as it runs, and the proof that every run of it
    is a run of the delivery machine. */
module PushWorker {
  import opened Common
  import opened Redis
  import opened PushRedis
  import opened Retry
  import opened PushCircuit
  import opened PushDelivery
  import PushBreaker
  import PushTemplate

  /** A device token; `valid` is what `validate_fcm_token` says of it. */
  datatype PushToken = PushToken(text: string, valid: bool)

  /** A parsed envelope. */
  datatype Notification = Notification(key: string, token: Option<PushToken>, templateCode: string, variables: map<string, Json>)

  datatype Status = NotFound | InProcess | WasSent | HasFailed

  function StatusOf(value: Option<string>): Status {
    match value
    case None => NotFound
    case Some(v) =>
      if v == "processing" then InProcess
      else if v == "sent" then WasSent
      else if v == "failed" then HasFailed
      else NotFound
  }

  /** The machine sees the idempotency keys and the clock of the worker. */
  ghost predicate Matches(s: Sys, d: Data, now: nat) {
    && s.now == now
    && forall key: string ::
         (key in s.idem <==> IdempotencyKey(key) in d.texts) &&
         (key in s.idem ==> s.idem[key] == d.texts[IdempotencyKey(key)])
  }

  /** The handler `tag` of message `m` has got to `phase`. */
  ghost predicate Reached(s: Sys, tag: Tag, m: Message, phase: Phase, d: Data, now: nat) {
    At(s, tag, phase) && s.inflight[tag].msg == m && Matches(s, d, now)
  }

  /** What the key of a message is set to by a step, if it is. */
  function Writes(e: Event): Option<string> {
    match e
    case MarkProcessing(_, ok, applied) => if ok || applied then Some("processing") else None
    case RetryMarkSent(_, applied) => if applied then Some("sent") else None
    case MarkSent(_, ok, applied) => if ok || applied then Some("sent") else None
    case MarkFailed(_, ok, applied) => if ok || applied then Some("failed") else None
    case _ => None
  }

  function Written(d: Data, key: string, status: Option<string>, ttl: nat, now: nat): Data {
    if status.None? then d else Effect(d, SetTextFor(IdempotencyKey(key), status.value, ttl), now)
  }

  /** The keys of the machine after a step. */
  lemma KeysAlong(k: string, ttl: nat, s: Sys, e: Event)
    requires Inner(e) && At(s, e.tag, Source(e))
    ensures Moved(k, ttl, s, e).idem ==
            if Writes(e).Some? && ttl > 0 then s.idem[s.inflight[e.tag].msg.key := For(Writes(e).value, ttl, s.now)]
            else s.idem
  {
    hide Target, Lookup, Live;
  }

  /** A step of the machine beside a step of the code. */
  lemma StepAlong(k: string, ttl: nat, s: Sys, m: Message, e: Event, d: Data, now: nat)
    requires Inner(e) && Reached(s, e.tag, m, Source(e), d, now)
    ensures Next(k, ttl, s, e) == Moved(k, ttl, s, e)
    ensures Reached(Next(k, ttl, s, e), e.tag, m, TargetOf(ttl, s, e), Written(d, m.key, Writes(e), ttl, now), now)
  {
    MovedShape(k, ttl, s, e);
    KeysAlong(k, ttl, s, e);
    hide Moved, TargetOf;
  }

  predicate SameKeys(d: Data, e: Data) {
    && (forall k | k in d.texts && k.IdempotencyKey? :: k in e.texts && d.texts[k] == e.texts[k])
    && (forall k | k in e.texts && k.IdempotencyKey? :: k in d.texts)
  }

  /** Time passing, with other keys changing. */
  lemma TimeAlong(k: string, ttl: nat, s: Sys, tag: Tag, m: Message, phase: Phase, d: Data, d2: Data, now: nat, ms: nat)
    requires Reached(s, tag, m, phase, d, now) && SameKeys(d, d2)
    ensures Reached(Next(k, ttl, s, Tick(ms)), tag, m, phase, d2, now + ms)
    ensures Next(k, ttl, s, Tick(ms)) == Ticked(k, s, ms)
  {
  }

  lemma RunSnoc(k: string, ttl: nat, s: Sys, trace: seq<Event>, e: Event)
    ensures Run(k, ttl, s, trace + [e]) == Next(k, ttl, Run(k, ttl, s, trace), e)
  {
    RunConcat(k, ttl, s, trace, [e]);
    OneEvent(k, ttl, Run(k, ttl, s, trace), e);
  }

  /** Steps that are neither the send nor its recording leave the sends as they are. */
  lemma SendsAlong(k: string, ttl: nat, s: Sys, e: Event)
    requires Inner(e) && At(s, e.tag, Source(e))
    ensures Moved(k, ttl, s, e).sends ==
            s.sends + One(e.Send? && e.delivered && s.inflight[e.tag].msg.key == k)
    ensures Moved(k, ttl, s, e).templateLock == s.templateLock && Moved(k, ttl, s, e).fcmLock == s.fcmLock
  {
    hide Lookup, Target;
  }

  /** A step of this handler, or time passing. */
  predicate Own(e: Event, tag: Tag) {
    e.Tick? || (Inner(e) && e.tag == tag)
  }

  /** `s` was reached from `s0` by `trace`, all of it this handler's, on which the message was sent `sent` times. */
  ghost predicate Traced(k: string, ttl: nat, s0: Sys, tag: Tag, trace: seq<Event>, s: Sys, m: Message, sent: int) {
    && s == Run(k, ttl, s0, trace)
    && (forall i | 0 <= i < |trace| :: Own(trace[i], tag))
    && s.sends == s0.sends + (if m.key == k then sent else 0)
    && s.templateLock == s0.templateLock && s.fcmLock == s0.fcmLock
  }

  /** The run grows by a step of this handler. */
  lemma Extend(k: string, ttl: nat, s0: Sys, trace: seq<Event>, s: Sys, m: Message, sent: int, e: Event, d: Data, now: nat)
    requires Inner(e) && Traced(k, ttl, s0, e.tag, trace, s, m, sent)
    requires Reached(s, e.tag, m, Source(e), d, now)
    ensures Traced(k, ttl, s0, e.tag, trace + [e], Next(k, ttl, s, e), m, sent + One(e.Send? && e.delivered))
    ensures Reached(Next(k, ttl, s, e), e.tag, m, Target(ttl, m, Lookup(d.texts, IdempotencyKey(m.key), now), e),
                    Written(d, m.key, Writes(e), ttl, now), now)
  {
    StepAlong(k, ttl, s, m, e, d, now);
    SendsAlong(k, ttl, s, e);
    RunSnoc(k, ttl, s0, trace, e);
  }

  /** The run grows by the passing of time. */
  lemma ExtendTick(k: string, ttl: nat, s0: Sys, trace: seq<Event>, s: Sys, tag: Tag, m: Message, sent: int, phase: Phase,
                   d: Data, d2: Data, now: nat, later: nat)
    requires Traced(k, ttl, s0, tag, trace, s, m, sent)
    requires Reached(s, tag, m, phase, d, now) && SameKeys(d, d2) && now <= later
    ensures var e := Tick(later - now);
            && Traced(k, ttl, s0, tag, trace + [e], Next(k, ttl, s, e), m, sent)
            && Reached(Next(k, ttl, s, e), tag, m, phase, d2, later)
  {
    TimeAlong(k, ttl, s, tag, m, phase, d, d2, now, later - now);
    TickKeepsSends(k, s, later - now);
    RunSnoc(k, ttl, s0, trace, Tick(later - now));
  }

  // ---------- what is sent, and what the key says in the end ----------

  function FetchRequest(templateCode: string): seq<string> {
    [templateCode, "en"]
  }

  function PushRequest(token: string, c: PushTemplate.Content): seq<string> {
    [token, c.title, c.body]
  }

  predicate TokenIsValid(n: Notification) {
    n.token.Some? && n.token.value.valid
  }

  /** Requests to FCM are made only with a valid token and a fetched template, and all of them carry that
      token and one rendering of that template. */
  ghost predicate SentAsPrepared(n: Notification, content: PushTemplate.Content, fetched: bool,
                                 before: seq<seq<string>>, after: seq<seq<string>>) {
    && before <= after
    && (before != after ==> && TokenIsValid(n) && fetched
                            && exists c :: && PushTemplate.Renders(content, n.variables, Ok(c))
                                           && Repeated(before, after, PushRequest(n.token.value.text, c)))
  }

  /** The token is valid and the content is rendered in every iteration order. */
  ghost predicate Sendable(n: Notification, content: PushTemplate.Content) {
    TokenIsValid(n) && forall e :: !PushTemplate.Renders(content, n.variables, Err(e))
  }

  function StatusText(d: Data, key: string): Option<string> {
    if IdempotencyKey(key) in d.texts then Some(d.texts[IdempotencyKey(key)].value) else None
  }

  /** What the key is left with, when Redis does not fail. */
  function FinalStatus(r: Result<(), PushError>): string {
    if r.Ok? then "sent"
    else if r.error == MissingPushToken || r.error == RenderPanic then "processing"
    else "failed"
  }

  lemma NothingSent(n: Notification, content: PushTemplate.Content, fetched: bool, log: seq<seq<string>>)
    ensures SentAsPrepared(n, content, fetched, log, log)
  {
  }

  lemma SentOne(n: Notification, content: PushTemplate.Content, c: PushTemplate.Content,
                before: seq<seq<string>>, after: seq<seq<string>>)
    requires TokenIsValid(n) && PushTemplate.Renders(content, n.variables, Ok(c))
    requires Repeated(before, after, PushRequest(n.token.value.text, c))
    ensures SentAsPrepared(n, content, true, before, after)
  {
  }

  lemma OtherViewSame(service: string, other: string, d: Data, e: Data)
    requires OnlyKeysOf(service, d, e) && other != service
    ensures View(e, other) == View(d, other)
  {
    assert StateKey(other) != StateKey(service);
  }

  lemma WrittenStatus(d: Data, key: string, status: string, ttl: nat, now: nat)
    requires ttl > 0
    ensures StatusText(Written(d, key, Some(status), ttl, now), key) == Some(status)
  {
  }

  lemma WrittenView(d: Data, key: string, status: Option<string>, ttl: nat, now: nat, service: string)
    ensures View(Written(d, key, status, ttl, now), service) == View(d, service)
  {
  }

  lemma StatusKept(d: Data, e: Data, key: string)
    requires SameKeys(d, e)
    ensures StatusText(e, key) == StatusText(d, key)
  {
  }

  /** An open breaker that is due stays due. */
  lemma StillAdmits(cfg: PushBreaker.Config, b: PushBreaker.Breaker, now: nat, later: nat)
    requires PushBreaker.Admits(cfg, b, now) && now <= later
    ensures PushBreaker.Admits(cfg, b, later)
  {
    PushBreaker.SecsMonotone(now, later);
  }

  /** Where `process_message` leaves its delivery: to be acked, to be rejected, or unwinding. */
  function EndOf(r: Result<(), PushError>): Phase {
    if r.Ok? then Settling(Acked) else if r.error == RenderPanic then Unwinding else Settling(Dropped)
  }

  class Worker {
    const redis: Server
    const fcm: CircuitBreaker
    const templates: CircuitBreaker
    const retry: RetryConfig
    const ttl: nat

    ghost predicate Valid()
      reads redis
    {
      && fcm.redis == redis && templates.redis == redis
      && fcm.service == "fcm" && templates.service == "template_service"
      && fcm.Valid() && templates.Valid()
    }

    constructor (redis: Server, fcm: CircuitBreaker, templates: CircuitBreaker, retry: RetryConfig, ttl: nat)
      requires fcm.redis == redis && templates.redis == redis
      requires fcm.service == "fcm" && templates.service == "template_service"
      requires fcm.Valid() && templates.Valid()
      ensures Valid() && this.redis == redis && this.ttl == ttl
    {
      this.redis, this.fcm, this.templates, this.retry, this.ttl := redis, fcm, templates, retry, ttl;
    }

    // ---------- the Redis client ----------

    method CheckIdempotency(key: string) returns (r: Result<Status, PushError>)
      modifies redis`faults
      ensures r.Ok? ==> r.value == StatusOf(Lookup(redis.data.texts, IdempotencyKey(key), redis.now))
      ensures if r.Ok? then redis.faults == old(redis.faults) else redis.faults > old(redis.faults)
    {
      var value :- redis.GetText(IdempotencyKey(key));
      return Ok(StatusOf(value));
    }

    /** `set_ex` of the idempotency key; whether it was carried out although it failed. */
    method Mark(key: string, status: string) returns (r: Result<(), PushError>, ghost applied: bool)
      requires Valid()
      modifies redis`data, redis`faults
      ensures Valid()
      ensures r.Ok? ==> ttl > 0
      ensures r.Err? ==> r.error == RedisFault
      ensures if r.Ok? then redis.faults == old(redis.faults) else redis.faults > old(redis.faults)
      ensures redis.data == Written(old(redis.data), key, if r.Ok? || applied then Some(status) else None, ttl, redis.now)
    {
      var reply := redis.Execute(SetTextFor(IdempotencyKey(key), status, ttl));
      applied := redis.data == Effect(old(redis.data), SetTextFor(IdempotencyKey(key), status, ttl), redis.now);
      r := if reply.Ok? then Ok(()) else Err(RedisFault);
    }

    /** `mark_as_sent`: the command is retried with backoff. */
    method MarkAsSent(ghost k: string, ghost s0: Sys, ghost tag: Tag, ghost m: Message, key: string)
      returns (r: Result<(), PushError>, ghost s: Sys, ghost trace: seq<Event>)
      requires Valid() && key == m.key && Reached(s0, tag, m, MarkingSent, redis.data, redis.now)
      modifies redis
      ensures Valid() && Traced(k, ttl, s0, tag, trace, s, m, 0)
      ensures Reached(s, tag, m, Settling(if r.Ok? then Acked else Dropped), redis.data, redis.now)
      ensures r.Err? ==> r.error == RedisFault && redis.faults > old(redis.faults)
      ensures redis.faults >= old(redis.faults) && (r.Ok? ==> StatusText(redis.data, key) == Some("sent"))
    {
      hide Traced, Run, Next, Written, Lookup, SameKeys, StatusText;
      s, trace := s0, [];
      TracedNothing(k, ttl, s0, tag, m);
      var attempt := 0;
      var delayMs := retry.initialDelayMs;
      while true
        invariant Valid() && Traced(k, ttl, s0, tag, trace, s, m, 0)
        invariant Reached(s, tag, m, MarkingSent, redis.data, redis.now)
        invariant attempt < Max(1, retry.maxAttempts) && redis.faults >= old(redis.faults)
        decreases Max(1, retry.maxAttempts) - attempt
      {
        attempt := attempt + 1;
        ghost var d := redis.data;
        var reply, applied := Mark(key, "sent");
        var last := reply.Ok? || attempt >= retry.maxAttempts;
        ghost var e := if last then MarkSent(tag, reply.Ok?, applied) else RetryMarkSent(tag, applied);
        Extend(k, ttl, s0, trace, s, m, 0, e, d, redis.now);
        s, trace := Next(k, ttl, s, e), trace + [e];
        if last {
          if reply.Ok? { WrittenStatus(d, key, "sent", ttl, redis.now); }
          return reply, s, trace;
        }
        var jitter: real :| -0.1 <= jitter <= 0.1;
        JitterBounds(delayMs, jitter);
        var ms: nat := Jitter(delayMs, jitter);
        SameKeysHere(redis.data);
        ExtendTick(k, ttl, s0, trace, s, tag, m, 0, MarkingSent, redis.data, redis.data, redis.now, redis.now + ms);
        redis.Wait(ms);
        s, trace := Next(k, ttl, s, Tick(ms)), trace + [Tick(ms)];
        delayMs := NextDelay(retry, delayMs);
      }
    }

    // ---------- process_message ----------

    /** `fetch_template`, always in English. */
    method FetchTemplate(templateCode: string, templateOp: Operation) returns (r: Result<(), PushError>)
      requires Valid()
      modifies redis, templateOp
      ensures Valid() && OnlyKeysOf("template_service", old(redis.data), redis.data)
      ensures redis.now >= old(redis.now) && redis.faults >= old(redis.faults)
      ensures Repeated(old(templateOp.log), templateOp.log, FetchRequest(templateCode))
      ensures r.Ok? ==> templateOp.successes > old(templateOp.successes)
      ensures redis.faults == old(redis.faults) && templateOp.successes > old(templateOp.successes) ==> r.Ok?
    {
      templateOp.request := FetchRequest(templateCode);
      var fetched := templates.Call(retry, templateOp);
      r := if fetched.Err? then Err(TemplateFailed) else Ok(());
      OtherViewSame("template_service", "fcm", old(redis.data), redis.data);
    }

    /** Between the two marks: the push token, the template, the rendered text. */
    method PrepareMessage(n: Notification, templateOp: Operation, content: PushTemplate.Content)
      returns (r: Result<PushTemplate.Content, PushError>)
      requires Valid()
      modifies redis, templateOp
      ensures Valid() && SameKeys(old(redis.data), redis.data) && redis.now >= old(redis.now)
      ensures redis.faults >= old(redis.faults) && fcm.Now() == old(fcm.Now())
      ensures r == Err(MissingPushToken) <==> n.token.None?
      ensures r == Err(InvalidToken) <==> n.token.Some? && !n.token.value.valid
      ensures !TokenIsValid(n) ==> templateOp.log == old(templateOp.log)
      ensures Repeated(old(templateOp.log), templateOp.log, FetchRequest(n.templateCode))
      ensures r.Ok? || r == Err(RenderFailed) || r == Err(RenderPanic) ==>
                TokenIsValid(n) && templateOp.successes > old(templateOp.successes)
      ensures r.Ok? ==> PushTemplate.Renders(content, n.variables, Ok(r.value))
      ensures r.Err? ==> r.error in {MissingPushToken, InvalidToken, TemplateFailed, RenderPanic, RenderFailed}
      ensures r == Err(RenderPanic) ==> PushTemplate.Renders(content, n.variables, Err(PushTemplate.Panic))
      ensures r == Err(RenderFailed) ==> exists e :: e != PushTemplate.Panic && PushTemplate.Renders(content, n.variables, Err(e))
      ensures redis.faults == old(redis.faults) && Sendable(n, content) && templateOp.successes > old(templateOp.successes) ==>
                r.Ok?
    {
      hide PushTemplate.Renders, OnlyKeysOf, SameKeys;
      SameKeysHere(redis.data);
      if n.token.None? {
        return Err(MissingPushToken);
      }
      if !n.token.value.valid {
        return Err(InvalidToken);
      }
      var fetched := FetchTemplate(n.templateCode, templateOp);
      OtherKeysSame("template_service", old(redis.data), redis.data);
      OtherViewSame("template_service", "fcm", old(redis.data), redis.data);
      if fetched.Err? {
        return Err(TemplateFailed);
      }
      var rendered := PushTemplate.RenderTemplate(content, n.variables);
      if rendered.Err? {
        return Err(if rendered.error.Panic? then RenderPanic else RenderFailed);
      }
      return Ok(rendered.value);
    }

    /** `send_notification` */
    method SendNotification(token: string, c: PushTemplate.Content, fcmOp: Operation) returns (r: Result<(), PushError>)
      requires Valid()
      modifies redis, fcmOp
      ensures Valid() && SameKeys(old(redis.data), redis.data)
      ensures redis.now >= old(redis.now) && redis.faults >= old(redis.faults)
      ensures Repeated(old(fcmOp.log), fcmOp.log, PushRequest(token, c))
      ensures 0 <= fcmOp.successes - old(fcmOp.successes) <= 1
      ensures r.Ok? ==> fcmOp.successes == old(fcmOp.successes) + 1
      ensures redis.faults == old(redis.faults) ==>
                && (|fcmOp.log| > |old(fcmOp.log)| <==> PushBreaker.Admits(fcm.config, old(fcm.Now()), old(redis.now)))
                && (r.Ok? <==> fcmOp.successes > old(fcmOp.successes))
    {
      fcmOp.request := PushRequest(token, c);
      r := fcm.Call(retry, fcmOp);
      hide OnlyKeysOf;
      OtherKeysSame("fcm", old(redis.data), redis.data);
      OtherViewSame("fcm", "template_service", old(redis.data), redis.data) by {
        assert "fcm"[0] != "template_service"[0];
      }
    }

    /** The end of a failed delivery: `mark_as_failed`, then an error either way. */
    method GiveUp(ghost k: string, ghost s0: Sys, ghost trace0: seq<Event>, ghost s1: Sys, ghost tag: Tag, ghost m: Message,
                  ghost sent: int, key: string, error: PushError)
      returns (r: Result<(), PushError>, ghost s: Sys, ghost trace: seq<Event>)
      requires Valid() && key == m.key
      requires Traced(k, ttl, s0, tag, trace0, s1, m, sent) && Reached(s1, tag, m, MarkingFailed, redis.data, redis.now)
      modifies redis`data, redis`faults
      ensures Valid() && r.Err? && (r.error == error || r.error == RedisFault) && Traced(k, ttl, s0, tag, trace, s, m, sent)
      ensures Reached(s, tag, m, Settling(Dropped), redis.data, redis.now)
      ensures redis.faults >= old(redis.faults)
      ensures redis.faults == old(redis.faults) ==> r.error == error && StatusText(redis.data, key) == Some("failed")
    {
      hide Traced, Run, Next, Written, Lookup, StatusText;
      ghost var d := redis.data;
      var reply, applied := Mark(key, "failed");
      ghost var e := MarkFailed(tag, reply.Ok?, applied);
      Extend(k, ttl, s0, trace0, s1, m, sent, e, d, redis.now);
      s, trace := Next(k, ttl, s1, e), trace0 + [e];
      if reply.Ok? { WrittenStatus(d, key, "failed", ttl, redis.now); }
      r := Err(if reply.Err? then RedisFault else error);
    }

    /** The send through the breaker, and its mark. */
    method SendAndMark(ghost k: string, ghost s0: Sys, ghost trace0: seq<Event>, ghost s1: Sys, ghost tag: Tag,
                       ghost m: Message, key: string, token: string, c: PushTemplate.Content, fcmOp: Operation)
      returns (r: Result<(), PushError>, ghost s: Sys, ghost trace: seq<Event>)
      requires Valid() && key == m.key
      requires Traced(k, ttl, s0, tag, trace0, s1, m, 0) && Reached(s1, tag, m, Sending, redis.data, redis.now)
      modifies redis, fcmOp
      ensures Valid() && 0 <= fcmOp.successes - old(fcmOp.successes) <= 1
      ensures Traced(k, ttl, s0, tag, trace, s, m, fcmOp.successes - old(fcmOp.successes))
      ensures Reached(s, tag, m, Settling(if r.Ok? then Acked else Dropped), redis.data, redis.now)
      ensures r.Ok? ==> fcmOp.successes == old(fcmOp.successes) + 1
      ensures r.Err? ==> r.error == SendFailed || r.error == RedisFault
      ensures Repeated(old(fcmOp.log), fcmOp.log, PushRequest(token, c)) && redis.faults >= old(redis.faults)
      ensures redis.faults == old(redis.faults) ==>
                && (|fcmOp.log| > |old(fcmOp.log)| <==> PushBreaker.Admits(fcm.config, old(fcm.Now()), old(redis.now)))
                && (r.Ok? <==> fcmOp.successes > old(fcmOp.successes))
                && StatusText(redis.data, key) == Some(if r.Ok? then "sent" else "failed")
    {
      hide Traced, Run, Next, Written, Lookup, SameKeys, Reached, StatusText, Repeated, PushBreaker.Admits;
      ghost var d, now := redis.data, redis.now;
      var outcome := SendNotification(token, c, fcmOp);
      ExtendTick(k, ttl, s0, trace0, s1, tag, m, 0, Sending, d, redis.data, now, redis.now);
      ghost var e := Tick(redis.now - now);
      s, trace := Next(k, ttl, s1, e), trace0 + [e];
      ghost var delivered := fcmOp.successes > old(fcmOp.successes);
      e := Send(tag, delivered);
      Extend(k, ttl, s0, trace, s, m, 0, e, redis.data, redis.now);
      s, trace := Next(k, ttl, s, e), trace + [e];
      ghost var sent := if delivered then 1 else 0;
      WrittenNothing(redis.data, m.key, ttl, redis.now);
      if delivered {
        e := Record(tag, outcome.Ok?);
        Extend(k, ttl, s0, trace, s, m, 1, e, redis.data, redis.now);
        s, trace := Next(k, ttl, s, e), trace + [e];
      }
      if outcome.Ok? {
        ghost var more;
        ghost var mid := s;
        r, s, more := MarkAsSent(k, s, tag, m, key);
        TracedJoin(k, ttl, s0, tag, trace, mid, more, s, m, sent);
        trace := trace + more;
      } else {
        r, s, trace := GiveUp(k, s0, trace, s, tag, m, sent, key, SendFailed);
      }
    }

    /** `process_message` past the mark: prepare, send. */
    method PrepareAndSend(ghost k: string, ghost s0: Sys, ghost trace0: seq<Event>, ghost s1: Sys, ghost tag: Tag,
                          ghost m: Message, n: Notification, templateOp: Operation, content: PushTemplate.Content, fcmOp: Operation)
      returns (r: Result<(), PushError>, ghost s: Sys, ghost trace: seq<Event>)
      requires Valid() && templateOp != fcmOp && n.key == m.key
      requires Traced(k, ttl, s0, tag, trace0, s1, m, 0) && Reached(s1, tag, m, Preparing, redis.data, redis.now)
      requires StatusText(redis.data, n.key) == Some("processing")
      modifies redis, templateOp, fcmOp
      ensures Valid() && 0 <= fcmOp.successes - old(fcmOp.successes) <= 1
      ensures Traced(k, ttl, s0, tag, trace, s, m, fcmOp.successes - old(fcmOp.successes))
      ensures Reached(s, tag, m, EndOf(r), redis.data, redis.now)
      ensures r.Ok? ==> fcmOp.successes == old(fcmOp.successes) + 1
      ensures r == Err(MissingPushToken) ==> n.token.None?
      ensures r == Err(RenderPanic) ==> PushTemplate.Renders(content, n.variables, Err(PushTemplate.Panic))
      ensures SentAsPrepared(n, content, templateOp.successes > old(templateOp.successes), old(fcmOp.log), fcmOp.log)
      ensures redis.faults >= old(redis.faults)
      ensures redis.faults == old(redis.faults) ==>
                StatusText(redis.data, n.key) == Some(FinalStatus(r)) && (r == Err(MissingPushToken) <==> n.token.None?)
      ensures redis.faults == old(redis.faults) && Sendable(n, content) && templateOp.successes > old(templateOp.successes)
              && PushBreaker.Admits(fcm.config, old(fcm.Now()), old(redis.now)) ==>
                |fcmOp.log| > |old(fcmOp.log)| && (r.Ok? <==> fcmOp.successes > old(fcmOp.successes))
    {
      hide Traced, Run, Next, Written, SameKeys, Lookup, Reached, StatusText, SentAsPrepared, Sendable,
           PushTemplate.Renders, PushBreaker.Admits, Repeated, FetchRequest, PushRequest, View, Inner;
      s, trace := s1, trace0;
      ghost var now := redis.now;
      ghost var d := redis.data;
      var prepared := PrepareMessage(n, templateOp, content);
      StatusKept(d, redis.data, n.key);
      NothingSent(n, content, templateOp.successes > old(templateOp.successes), fcmOp.log);
      ExtendTick(k, ttl, s0, trace, s, tag, m, 0, Preparing, d, redis.data, now, redis.now);
      ghost var e := Tick(redis.now - now);
      s, trace := Next(k, ttl, s, e), trace + [e];
      e := Prepare(tag, if prepared.Ok? then Proceed else if n.token.None? then TokenMissing
                        else if prepared.error == RenderPanic then Panics else NotSendable);
      Extend(k, ttl, s0, trace, s, m, 0, e, redis.data, redis.now);
      s, trace := Next(k, ttl, s, e), trace + [e];
      WrittenNothing(redis.data, m.key, ttl, redis.now);
      if prepared.Err? {
        if n.token.None? {
          return Err(MissingPushToken), s, trace;
        }
        if prepared.error == RenderPanic {
          return Err(RenderPanic), s, trace;
        }
        r, s, trace := GiveUp(k, s0, trace, s, tag, m, 0, n.key, prepared.error);
        return;
      }
      ghost var sendAt := redis.now;
      r, s, trace := SendAndMark(k, s0, trace, s, tag, m, n.key, n.token.value.text, prepared.value, fcmOp);
      SentOne(n, content, prepared.value, old(fcmOp.log), fcmOp.log);
      if PushBreaker.Admits(fcm.config, old(fcm.Now()), now) {
        StillAdmits(fcm.config, old(fcm.Now()), now, sendAt);
      }
    }

    /** `process_message` past the duplicate check: mark, prepare, send. */
    method Attempt(ghost k: string, ghost s0: Sys, ghost trace0: seq<Event>, ghost s1: Sys, ghost tag: Tag, ghost m: Message,
                   n: Notification, templateOp: Operation, content: PushTemplate.Content, fcmOp: Operation)
      returns (r: Result<(), PushError>, ghost s: Sys, ghost trace: seq<Event>)
      requires Valid() && templateOp != fcmOp && n.key == m.key
      requires Traced(k, ttl, s0, tag, trace0, s1, m, 0) && Reached(s1, tag, m, Marking, redis.data, redis.now)
      modifies redis, templateOp, fcmOp
      ensures Valid() && 0 <= fcmOp.successes - old(fcmOp.successes) <= 1
      ensures Traced(k, ttl, s0, tag, trace, s, m, fcmOp.successes - old(fcmOp.successes))
      ensures Reached(s, tag, m, EndOf(r), redis.data, redis.now)
      ensures r.Ok? ==> fcmOp.successes == old(fcmOp.successes) + 1
      ensures r == Err(MissingPushToken) ==> n.token.None?
      ensures r == Err(RenderPanic) ==> PushTemplate.Renders(content, n.variables, Err(PushTemplate.Panic))
      ensures SentAsPrepared(n, content, templateOp.successes > old(templateOp.successes), old(fcmOp.log), fcmOp.log)
      ensures redis.faults >= old(redis.faults)
      ensures redis.faults == old(redis.faults) ==>
                StatusText(redis.data, n.key) == Some(FinalStatus(r)) && (r == Err(MissingPushToken) <==> n.token.None?)
      ensures redis.faults == old(redis.faults) && Sendable(n, content) && templateOp.successes > old(templateOp.successes)
              && PushBreaker.Admits(fcm.config, old(fcm.Now()), old(redis.now)) ==>
                |fcmOp.log| > |old(fcmOp.log)| && (r.Ok? <==> fcmOp.successes > old(fcmOp.successes))
    {
      hide Traced, Run, Next, Written, SameKeys, Lookup, Reached, StatusText, SentAsPrepared, Sendable,
           PushTemplate.Renders, PushBreaker.Admits;
      NothingSent(n, content, false, fcmOp.log);
      s, trace := s1, trace0;
      ghost var d := redis.data;
      var marked, applied := Mark(n.key, "processing");
      ghost var e := MarkProcessing(tag, marked.Ok?, applied);
      Extend(k, ttl, s0, trace, s, m, 0, e, d, redis.now);
      s, trace := Next(k, ttl, s, e), trace + [e];
      if marked.Err? {
        return Err(RedisFault), s, trace;
      }
      WrittenStatus(d, n.key, "processing", ttl, redis.now);
      WrittenView(d, n.key, Some("processing"), ttl, redis.now, "fcm");
      r, s, trace := PrepareAndSend(k, s0, trace, s, tag, m, n, templateOp, content, fcmOp);
    }

    /** `process_message`.  Its runs are runs of the delivery machine: it starts with the
        payload of delivery `tag` in hand and both locks held, and ends about to settle it. */
    method ProcessMessage(ghost k: string, ghost s0: Sys, ghost tag: Tag, ghost m: Message,
                          payload: Option<Notification>, templateOp: Operation, content: PushTemplate.Content, fcmOp: Operation)
      returns (r: Result<(), PushError>, ghost s: Sys, ghost trace: seq<Event>)
      requires Valid() && templateOp != fcmOp
      requires m.parses == payload.Some? && (payload.Some? ==> m.key == payload.value.key)
      requires Reached(s0, tag, m, Parsing, redis.data, redis.now)
      modifies redis, templateOp, fcmOp
      ensures Valid() && 0 <= fcmOp.successes - old(fcmOp.successes) <= 1
      ensures Traced(k, ttl, s0, tag, trace, s, m, fcmOp.successes - old(fcmOp.successes))
      ensures Reached(s, tag, m, EndOf(r), redis.data, redis.now)
      ensures r.Ok? && fcmOp.successes == old(fcmOp.successes) ==>
                payload.Some? && Settled(Lookup(old(redis.data).texts, IdempotencyKey(payload.value.key), old(redis.now)))
      ensures payload.None? ==> r == Err(BadPayload) && redis.data == old(redis.data) && fcmOp.log == old(fcmOp.log)
      ensures payload.Some? ==>
                SentAsPrepared(payload.value, content, templateOp.successes > old(templateOp.successes), old(fcmOp.log), fcmOp.log)
      ensures payload.Some? && r == Err(RenderPanic) ==>
                PushTemplate.Renders(content, payload.value.variables, Err(PushTemplate.Panic))
      ensures redis.faults >= old(redis.faults)
      ensures redis.faults == old(redis.faults) && payload.Some? ==>
                if Settled(Lookup(old(redis.data).texts, IdempotencyKey(payload.value.key), old(redis.now)))
                then r.Ok? && redis.data == old(redis.data) && fcmOp.log == old(fcmOp.log)
                else && StatusText(redis.data, payload.value.key) == Some(FinalStatus(r))
                     && (r == Err(MissingPushToken) <==> payload.value.token.None?)
      ensures redis.faults == old(redis.faults) && payload.Some?
              && !Settled(Lookup(old(redis.data).texts, IdempotencyKey(payload.value.key), old(redis.now)))
              && Sendable(payload.value, content) && templateOp.successes > old(templateOp.successes)
              && PushBreaker.Admits(fcm.config, old(fcm.Now()), old(redis.now)) ==>
                |fcmOp.log| > |old(fcmOp.log)| && (r.Ok? <==> fcmOp.successes > old(fcmOp.successes))
    {
      hide Traced, Run, Next, Written, SameKeys, Reached, StatusText, SentAsPrepared, Sendable, PushTemplate.Renders,
           PushBreaker.Admits;
      s, trace := s0, [];
      TracedNothing(k, ttl, s0, tag, m);
      ghost var e := Parse(tag);
      Extend(k, ttl, s0, trace, s, m, 0, e, redis.data, redis.now);
      s, trace := Next(k, ttl, s, e), trace + [e];
      WrittenNothing(redis.data, m.key, ttl, redis.now);
      if payload.None? {
        return Err(BadPayload), s, trace;
      }
      var n := payload.value;
      NothingSent(n, content, false, fcmOp.log);

      var status := CheckIdempotency(n.key);
      e := Check(tag, status.Ok?);
      Extend(k, ttl, s0, trace, s, m, 0, e, redis.data, redis.now);
      s, trace := Next(k, ttl, s, e), trace + [e];
      if status == Ok(WasSent) || status == Ok(InProcess) {
        return Ok(()), s, trace;
      }
      r, s, trace := Attempt(k, s0, trace, s, tag, m, n, templateOp, content, fcmOp);
    }

    // ---------- one delivery, as `main` spawns it ----------

    /** From the delivery to its ack or reject: a connection failure requeues it, otherwise the
        two locks are held from before `process_message` until after the settlement.  A panic while
        rendering unwinds the task: the locks go, the delivery has no fate, its key reads processing. */
    method HandleDelivery(ghost k: string, ghost s0: Sys, ghost tag: Tag, ghost m: Message,
                          payload: Option<Notification>, templateOp: Operation, content: PushTemplate.Content, fcmOp: Operation)
      returns (fate: Option<Fate>, settled: bool, ghost s: Sys, ghost trace: seq<Event>)
      requires Valid() && templateOp != fcmOp
      requires m.parses == payload.Some? && (payload.Some? ==> m.key == payload.value.key)
      requires Reached(s0, tag, m, Connecting, redis.data, redis.now)
      requires s0.templateLock.None? && s0.fcmLock.None?
      modifies redis, templateOp, fcmOp
      ensures Valid() && Matches(s, redis.data, redis.now)
      ensures s == Run(k, ttl, s0, trace) && s.templateLock.None? && s.fcmLock.None?
      ensures settled ==> fate.Some? && tag !in s.inflight && tag in s.fates && s.fates[tag] == fate.value
      ensures !settled ==> At(s, tag, Abandoned)
      ensures fate == Some(Acked) && fcmOp.successes == old(fcmOp.successes) ==>
                payload.Some? && Settled(Lookup(old(redis.data).texts, IdempotencyKey(payload.value.key), old(redis.now)))
      ensures fate == Some(Requeued) ==> redis.data == old(redis.data) && fcmOp.log == old(fcmOp.log)
      ensures payload.None? ==> fate == Some(Requeued) || fate == Some(Dropped)
      ensures fcmOp.log != old(fcmOp.log) ==> payload.Some?
      ensures payload.Some? ==>
                SentAsPrepared(payload.value, content, templateOp.successes > old(templateOp.successes), old(fcmOp.log), fcmOp.log)
      ensures fate.None? ==> payload.Some? && PushTemplate.Renders(content, payload.value.variables, Err(PushTemplate.Panic))
      ensures redis.faults == old(redis.faults) && fate != Some(Requeued) && payload.Some?
              && !Settled(Lookup(old(redis.data).texts, IdempotencyKey(payload.value.key), old(redis.now))) ==>
                StatusText(redis.data, payload.value.key) ==
                Some(if fate == Some(Acked) then "sent" else if fate == Some(Dropped) && payload.value.token.Some? then "failed"
                     else "processing")
      ensures redis.faults == old(redis.faults) && fate != Some(Requeued) && payload.Some?
              && !Settled(Lookup(old(redis.data).texts, IdempotencyKey(payload.value.key), old(redis.now)))
              && Sendable(payload.value, content) && templateOp.successes > old(templateOp.successes)
              && PushBreaker.Admits(fcm.config, old(fcm.Now()), old(redis.now)) ==>
                |fcmOp.log| > |old(fcmOp.log)| && (fate == Some(Acked) <==> fcmOp.successes > old(fcmOp.successes))
    {
      hide Traced, Run, Next, Lookup, Reached, Matches, Entering, StatusText, SentAsPrepared, Sendable, PushTemplate.Renders,
           PushBreaker.Admits;
      if payload.Some? { NothingSent(payload.value, content, false, fcmOp.log); }
      if * {
        // the Redis connection failed
        s := Entering(s0, Connect(tag, false));
        trace := [Connect(tag, false)];
        NotConnected(k, ttl, s0, tag, m, redis.data, redis.now);
        fate := Some(Requeued);
      } else {
        ghost var entry;
        s, entry := LocksTaken(k, ttl, s0, tag, m, redis.data, redis.now);
        ghost var at, more := s, [];
        var r: Result<(), PushError>;
        r, s, more := ProcessMessage(k, s, tag, m, payload, templateOp, content, fcmOp);
        trace := entry + more;
        RunsJoin(k, ttl, s0, tag, entry, at, more, s, m, fcmOp.successes - old(fcmOp.successes));
        fate := if r.Ok? then Some(Acked) else if r.error == RenderPanic then None else Some(Dropped);
      }
      settled := false;
      if fate.Some? {
        if * { settled := true; }
      }
      LastEvent(k, ttl, s0, trace, s, tag, m, fate, redis.data, redis.now, settled);
      s := Next(k, ttl, s, Settle(tag, settled));
      trace := trace + [Settle(tag, settled)];
    }
  }

  lemma RunsJoin(k: string, ttl: nat, s0: Sys, tag: Tag, a: seq<Event>, s1: Sys, b: seq<Event>, s: Sys, m: Message, sent: int)
    requires s1 == Run(k, ttl, s0, a) && Traced(k, ttl, s1, tag, b, s, m, sent)
    ensures s == Run(k, ttl, s0, a + b) && s.templateLock == s1.templateLock && s.fcmLock == s1.fcmLock
  {
    RunConcat(k, ttl, s0, a, b);
  }

  /** The settlement of a delivery, or its failure, and the locks given back. */
  lemma LastEvent(k: string, ttl: nat, s0: Sys, trace: seq<Event>, s: Sys, tag: Tag, m: Message, fate: Option<Fate>,
                  d: Data, now: nat, ok: bool)
    requires ok ==> fate.Some?
    requires s == Run(k, ttl, s0, trace)
    requires Reached(s, tag, m, if fate.Some? then Settling(fate.value) else Unwinding, d, now)
    requires s.templateLock == s.fcmLock && (s.fcmLock.Some? ==> s.fcmLock.value == tag)
    ensures var t := Next(k, ttl, s, Settle(tag, ok));
            && t == Run(k, ttl, s0, trace + [Settle(tag, ok)]) && Matches(t, d, now)
            && t.templateLock.None? && t.fcmLock.None?
            && (ok ==> tag !in t.inflight && tag in t.fates && t.fates[tag] == fate.value)
            && (!ok ==> At(t, tag, Abandoned))
  {
    RunSnoc(k, ttl, s0, trace, Settle(tag, ok));
    SettleFinishes(k, ttl, s, tag, ok);
    FinishShape(s, tag, ok);
    FinishKeepsKeys(s, tag, ok);
    hide Run, Next, Finish;
  }

  lemma SettleFinishes(k: string, ttl: nat, s: Sys, tag: Tag, ok: bool)
    requires Ending(s, tag, ok)
    ensures Next(k, ttl, s, Settle(tag, ok)) == Finish(s, tag, ok)
  {
  }

  lemma FinishKeepsKeys(s: Sys, tag: Tag, ok: bool)
    requires Ending(s, tag, ok)
    ensures var t := Finish(s, tag, ok);
            && t.idem == s.idem && t.now == s.now
            && t.templateLock == Without(s.templateLock, tag) && t.fcmLock == Without(s.fcmLock, tag)
  {
    hide MessagesBelow, Without;
  }

  /** A Redis connection that cannot be opened. */
  lemma NotConnected(k: string, ttl: nat, s: Sys, tag: Tag, m: Message, d: Data, now: nat)
    requires Reached(s, tag, m, Connecting, d, now)
    ensures var t := Entering(s, Connect(tag, false));
            && t == Run(k, ttl, s, [Connect(tag, false)]) && Reached(t, tag, m, Settling(Requeued), d, now)
            && t.templateLock == s.templateLock && t.fcmLock == s.fcmLock
  {
    OneEvent(k, ttl, s, Connect(tag, false));
  }

  /** One of the three steps before `process_message`. */
  lemma EnterAlong(s: Sys, e: Event, m: Message, from: Phase, to: Phase, d: Data, now: nat)
    requires e.Connect? || e.LockTemplate? || e.LockFcm?
    requires Reached(s, e.tag, m, from, d, now)
    requires || (e.Connect? && e.ok && from == Connecting && to == WaitTemplate)
             || (e.LockTemplate? && s.templateLock.None? && from == WaitTemplate && to == WaitFcm)
             || (e.LockFcm? && s.fcmLock.None? && from == WaitFcm && to == Parsing)
    ensures var t := Entering(s, e);
            && Reached(t, e.tag, m, to, d, now)
            && t.templateLock == (if e.LockTemplate? then Some(e.tag) else s.templateLock)
            && t.fcmLock == (if e.LockFcm? then Some(e.tag) else s.fcmLock)
  {
  }

  /** Connecting and taking the two locks. */
  lemma LocksTaken(k: string, ttl: nat, s0: Sys, tag: Tag, m: Message, d: Data, now: nat) returns (s: Sys, trace: seq<Event>)
    requires Reached(s0, tag, m, Connecting, d, now) && s0.templateLock.None? && s0.fcmLock.None?
    ensures s == Run(k, ttl, s0, trace) && Reached(s, tag, m, Parsing, d, now)
    ensures s.templateLock == s.fcmLock == Some(tag)
  {
    hide Run, Entering, Reached;
    trace := [Connect(tag, true), LockTemplate(tag), LockFcm(tag)];
    ThreeEntries(k, ttl, s0, Connect(tag, true), LockTemplate(tag), LockFcm(tag));
    EnterAlong(s0, Connect(tag, true), m, Connecting, WaitTemplate, d, now);
    var s1 := Entering(s0, Connect(tag, true));
    EnterAlong(s1, LockTemplate(tag), m, WaitTemplate, WaitFcm, d, now);
    var s2 := Entering(s1, LockTemplate(tag));
    EnterAlong(s2, LockFcm(tag), m, WaitFcm, Parsing, d, now);
    s := Entering(s2, LockFcm(tag));
  }

  lemma TracedNothing(k: string, ttl: nat, s: Sys, tag: Tag, m: Message)
    ensures Traced(k, ttl, s, tag, [], s, m, 0)
  {
  }

  lemma TracedJoin(k: string, ttl: nat, s0: Sys, tag: Tag, a: seq<Event>, s1: Sys, b: seq<Event>, s: Sys, m: Message, sent: int)
    requires Traced(k, ttl, s0, tag, a, s1, m, sent) && Traced(k, ttl, s1, tag, b, s, m, 0)
    ensures Traced(k, ttl, s0, tag, a + b, s, m, sent)
  {
    RunConcat(k, ttl, s0, a, b);
  }

  lemma SameKeysHere(d: Data)
    ensures SameKeys(d, d)
  {
  }

  lemma WrittenNothing(d: Data, key: string, ttl: nat, now: nat)
    ensures Written(d, key, None, ttl, now) == d
  {
  }

  lemma OtherKeysSame(service: string, d: Data, e: Data)
    requires OnlyKeysOf(service, d, e)
    ensures SameKeys(d, e)
  {
    forall k | k in d.texts && k.IdempotencyKey? ensures k in e.texts && d.texts[k] == e.texts[k] {
      assert k != StateKey(service);
    }
    forall k | k in e.texts && k.IdempotencyKey? ensures k in d.texts {
      assert k != StateKey(service);
    }
  }

  lemma TickKeepsSends(k: string, s: Sys, ms: nat)
    ensures Ticked(k, s, ms).sends == s.sends
    ensures Ticked(k, s, ms).templateLock == s.templateLock && Ticked(k, s, ms).fcmLock == s.fcmLock
  {
  }
}
