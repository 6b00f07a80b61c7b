/** email-service's circuit breaker: fields of the process, with a copy in Redis. */
module EmailBreaker {
  import opened Common
  import opened Redis
  import Gate

  const FAILURE_THRESHOLD := 5
  const SUCCESS_THRESHOLD := 2
  const TIMEOUT := 60000
  const REDIS_TTL := 300

  datatype State = Closed | Open | HalfOpen

  /** The record kept under `circuit_breaker:smtp`. */
  datatype Shared = Shared(state: State, lastFailureTime: Option<nat>)

  datatype Fields = Fields(state: State, failureCount: nat, successCount: nat, lastFailureTime: Option<nat>)

  datatype Breaker = Breaker(own: Fields, shared: Option<Entry<Shared>>)

  /** One call: when it starts, when its callback ends, how; whether the read of the shared record
      worked, a failed read giving null; and whether the writes of the record on going half-open and
      at the end of the call, if there is one, are carried out. */
  datatype Call = Call(start: nat, end: nat, ok: bool, readOk: bool, enterWrite: bool, endWrite: bool)

  const FRESH := Breaker(Fields(Closed, 0, 0, None), None)

  /** The fields after the look at the shared record. */
  function Synced(b: Breaker, now: nat, readOk: bool): Fields {
    if readOk && b.shared.Some? && Live(b.shared.value, now) && b.shared.value.value.state.Open?
    then b.own.(state := Open, lastFailureTime := b.shared.value.value.lastFailureTime)
    else b.own
  }

  predicate Admits(f: Fields, now: nat) {
    f.state.Open? ==> f.lastFailureTime.Some? && f.lastFailureTime.value > 0 && now - f.lastFailureTime.value >= TIMEOUT
  }

  /** A write that fails is logged and forgotten. */
  function Published(b: Breaker, f: Fields, now: nat, works: bool): Breaker {
    Breaker(f, if works then Some(For(Shared(f.state, f.lastFailureTime), REDIS_TTL, now)) else b.shared)
  }

  function Entered(b: Breaker, f: Fields, now: nat, works: bool): Breaker {
    if f.state.Open? then Published(b, f.(state := HalfOpen, successCount := 0), now, works) else b.(own := f)
  }

  function OnSuccess(b: Breaker, now: nat, works: bool): Breaker {
    var f := b.own.(failureCount := 0);
    if f.state.HalfOpen? then
      if f.successCount + 1 >= SUCCESS_THRESHOLD
      then Published(b, f.(state := Closed, successCount := 0), now, works)
      else b.(own := f.(successCount := f.successCount + 1))
    else b.(own := f)
  }

  function OnFailure(b: Breaker, now: nat, works: bool): Breaker {
    var f := b.own.(failureCount := b.own.failureCount + 1, lastFailureTime := Some(now), successCount := 0);
    if f.failureCount >= FAILURE_THRESHOLD then Published(b, f.(state := Open), now, works) else b.(own := f)
  }

  function Step(b: Breaker, c: Call): Breaker {
    var f := Synced(b, c.start, c.readOk);
    if !Admits(f, c.start) then b.(own := f)
    else if c.ok then OnSuccess(Entered(b, f, c.start, c.enterWrite), c.end, c.endWrite)
    else OnFailure(Entered(b, f, c.start, c.enterWrite), c.end, c.endWrite)
  }

  predicate Admitted(b: Breaker, c: Call) {
    Admits(Synced(b, c.start, c.readOk), c.start)
  }

  predicate Trips(b: Breaker, c: Call) {
    Admitted(b, c) && !c.ok && Step(b, c).own.state.Open?
  }

  /** The service object; the clock of the process and of Redis are one. */
  class CircuitBreakerService {
    var state: State
    var failureCount: nat
    var successCount: nat
    var lastFailureTime: Option<nat>
    var redis: Option<Entry<Shared>>

    constructor ()
      ensures Now() == FRESH
    {
      state, failureCount, successCount, lastFailureTime, redis := Closed, 0, 0, None, None;
    }

    function Now(): Breaker
      reads this
    {
      Breaker(Fields(state, failureCount, successCount, lastFailureTime), redis)
    }

    method UpdateRedisState(now: nat, works: bool)
      modifies this`redis
      ensures Now() == Published(old(Now()), old(Now()).own, now, works)
      ensures redis == if works then Some(For(Shared(state, lastFailureTime), 300, now)) else old(redis)
    {
      if !works {
        return;
      }
      redis := Some(For(Shared(state, lastFailureTime), 5 * 60, now));
    }

    method HandleSuccess(now: nat, works: bool)
      modifies this
      ensures Now() == OnSuccess(old(Now()), now, works)
    {
      failureCount := 0;
      if state == HalfOpen {
        successCount := successCount + 1;
        if successCount >= SUCCESS_THRESHOLD {
          state := Closed;
          successCount := 0;
          UpdateRedisState(now, works);
        }
      }
    }

    method HandleFailure(now: nat, works: bool)
      modifies this
      ensures Now() == OnFailure(old(Now()), now, works)
    {
      failureCount := failureCount + 1;
      lastFailureTime := Some(now);
      successCount := 0;
      if failureCount >= FAILURE_THRESHOLD {
        state := Open;
        UpdateRedisState(now, works);
      }
    }

    /** `execute`, its callback given by when it ends and whether it throws. */
    method Execute(c: Call) returns (r: Result<(), string>)
      modifies this
      ensures Now() == Step(old(Now()), c)
      ensures r.Ok? <==> Admitted(old(Now()), c) && c.ok
      ensures r == Err("Circuit breaker is OPEN") <==> !Admitted(old(Now()), c)
    {
      if c.readOk && redis.Some? && Live(redis.value, c.start) && redis.value.value.state == Open {
        state := Open;
        lastFailureTime := redis.value.value.lastFailureTime;
      }
      if state == Open {
        if lastFailureTime.Some? && lastFailureTime.value > 0 && c.start - lastFailureTime.value >= TIMEOUT {
          state := HalfOpen;
          successCount := 0;
          UpdateRedisState(c.start, c.enterWrite);
        } else {
          return Err("Circuit breaker is OPEN");
        }
      }
      if c.ok {
        HandleSuccess(c.end, c.endWrite);
        r := Ok(());
      } else {
        HandleFailure(c.end, c.endWrite);
        r := Err("callback failed");
      }
    }
  }

  // ---------- the breaker is a gate ----------

  predicate Serial(calls: seq<Call>, from: nat) {
    calls == [] || (from <= calls[0].start <= calls[0].end && Serial(calls[1..], calls[0].end))
  }

  function ActsOf(b: Breaker, c: Call): seq<Gate.Act> {
    Gate.OneCall(c.start, Admitted(b, c), if Trips(b, c) then Some(c.end) else None)
  }

  function Acts(b: Breaker, calls: seq<Call>): seq<Gate.Act>
    decreases |calls|
  {
    if calls == [] then [] else ActsOf(b, calls[0]) + Acts(Step(b, calls[0]), calls[1..])
  }

  predicate SharedOpen(b: Breaker) {
    b.shared.Some? && b.shared.value.value.state.Open?
  }

  /** An open record, or an open breaker, holds the time of the last opening; while the breaker is not
      open that is over. */
  predicate Remembers(b: Breaker, since: Option<nat>, now: nat) {
    && (SharedOpen(b) ==> since.Some? && since.value > 0 && b.shared.value.value.lastFailureTime == since)
    && (if b.own.state.Open? then since.Some? && since.value > 0 && b.own.lastFailureTime == since
        else since.Some? ==> since.value + TIMEOUT <= now)
  }

  /** An opening that is not written over an open record of an earlier one. */
  predicate LosesOpening(b: Breaker, c: Call) {
    Trips(b, c) && !c.endWrite && SharedOpen(Step(b, c))
  }

  predicate KeepsOpenings(b: Breaker, calls: seq<Call>)
    decreases |calls|
  {
    calls == [] || (!LosesOpening(b, calls[0]) && KeepsOpenings(Step(b, calls[0]), calls[1..]))
  }

  lemma RemembersStep(b: Breaker, since: Option<nat>, c: Call, from: nat)
    requires Remembers(b, since, from) && 0 < from <= c.start <= c.end
    ensures Admitted(b, c) <==> (since.None? || since.value + TIMEOUT <= c.start)
    ensures !LosesOpening(b, c) ==> Remembers(Step(b, c), if Trips(b, c) then Some(c.end) else since, c.end)
  {
  }

  /** Within 60 seconds of an opening a call is let through exactly when the opening was lost and the call
      reads the old record while it lives. */
  lemma ReadmittedExactly(b: Breaker, since: Option<nat>, c: Call, from: nat, next: Call)
    requires Remembers(b, since, from) && 0 < from <= c.start <= c.end && Trips(b, c)
    requires c.end <= next.start < c.end + TIMEOUT
    ensures Admitted(Step(b, c), next) <==>
            LosesOpening(b, c) && next.readOk && Live(Step(b, c).shared.value, next.start)
  {
    RemembersStep(b, since, c, from);
  }

  lemma {:induction false} RunIsGate(b: Breaker, since: Option<nat>, calls: seq<Call>, from: nat)
    requires 0 < from && Serial(calls, from) && Remembers(b, since, from) && KeepsOpenings(b, calls)
    ensures Gate.Legal(TIMEOUT, since, Acts(b, calls)) && Gate.Ordered(Acts(b, calls))
    ensures forall i | 0 <= i < |Acts(b, calls)| :: from <= Acts(b, calls)[i].at
    decreases |calls|
  {
    if calls == [] {
    } else {
      var c := calls[0];
      RemembersStep(b, since, c, from);
      var memory := if Trips(b, c) then Some(c.end) else since;
      hide Step, Admitted, Trips, Remembers, LosesOpening;
      RunIsGate(Step(b, c), memory, calls[1..], c.end);
      Gate.Prepend(TIMEOUT, since, c.start, Admitted(b, c), if Trips(b, c) then Some(c.end) else None,
                   Acts(Step(b, c), calls[1..]));
    }
  }

  /** In every serial run, with any reads and writes of the record failing but for openings over an open
      record, a callback is let through exactly when no opening happened in the last 60 seconds. */
  lemma AdmissionLaw(calls: seq<Call>, from: nat, j: nat)
    requires 0 < from && Serial(calls, from) && KeepsOpenings(FRESH, calls)
    requires j < |Acts(FRESH, calls)| && Acts(FRESH, calls)[j].Ask?
    ensures var acts := Acts(FRESH, calls);
            acts[j].admitted <==> forall i | 0 <= i < j && acts[i].Trip? :: acts[i].at + 60_000 <= acts[j].at
  {
    RunIsGate(FRESH, None, calls, from);
    Gate.AdmittedExactly(TIMEOUT, None, Acts(FRESH, calls), j);
  }

  // ---------- how many failures open it ----------

  function Run(b: Breaker, calls: seq<Call>): Breaker
    decreases |calls|
  {
    if calls == [] then b else Run(Step(b, calls[0]), calls[1..])
  }

  /** Failures still missing before the breaker opens, at least one. */
  function Missing(b: Breaker): nat {
    if b.own.failureCount >= FAILURE_THRESHOLD then 1 else FAILURE_THRESHOLD - b.own.failureCount
  }

  /** Closed or half-open alike, failures in a row open the breaker exactly when they make up
      what is missing to five; none of them is turned away before. */
  lemma {:induction false} OpensAfter(b: Breaker, calls: seq<Call>)
    requires !b.own.state.Open? && (b.shared.Some? ==> !b.shared.value.value.state.Open?)
    requires |calls| <= Missing(b) && forall i | 0 <= i < |calls| :: !calls[i].ok
    ensures Run(b, calls).own.state.Open? <==> |calls| == Missing(b)
    ensures Run(b, calls).own.failureCount == b.own.failureCount + |calls|
    decreases |calls|
  {
    if calls == [] {
    } else {
      var next := Step(b, calls[0]);
      if |calls| > 1 {
        OpensAfter(next, calls[1..]);
      } else {
        assert Run(next, calls[1..]) == next;
      }
    }
  }

  /** One success while half-open clears the count: from then on it takes five failures in a row,
      not one, to open the breaker again. */
  lemma HalfOpenTakesFiveFailures(b: Breaker, c: Call, calls: seq<Call>)
    requires b.own.state.HalfOpen? && (b.shared.Some? ==> !b.shared.value.value.state.Open?)
    requires c.ok && |calls| <= FAILURE_THRESHOLD && forall i | 0 <= i < |calls| :: !calls[i].ok
    ensures Run(b, [c] + calls).own.state.Open? <==> |calls| == FAILURE_THRESHOLD
  {
    assert ([c] + calls)[1..] == calls;
    OpensAfter(Step(b, c), calls);
  }

  function Failing(n: nat): seq<Call> {
    if n == 0 then [] else [Call(1, 1, false, true, true, true)] + Failing(n - 1)
  }

  lemma {:induction false} FailingOpens(b: Breaker, n: nat)
    requires n >= 1 && b.own.state.Closed? && b.own.failureCount == FAILURE_THRESHOLD - n && !SharedOpen(b)
    ensures var t := Run(b, Failing(n));
            && t.own == Fields(Open, FAILURE_THRESHOLD, 0, Some(1))
            && t.shared == Some(For(Shared(Open, Some(1)), REDIS_TTL, 1))
    decreases n
  {
    assert Failing(n)[1..] == Failing(n - 1);
    var next := Step(b, Failing(n)[0]);
    if n == 1 {
      assert Run(next, Failing(0)) == next;
    } else {
      FailingOpens(next, n - 1);
    }
  }

  /** A lost opening is reached: five failures, then a failed trial of which both writes are lost; the next
      call is let through in the very millisecond of the opening. */
  lemma LostOpeningIsReached()
    ensures var b := Run(FRESH, Failing(FAILURE_THRESHOLD));
            var c := Call(60_001, 60_001, false, true, false, false);
            && LosesOpening(b, c) && Step(b, c).own.lastFailureTime == Some(60_001)
            && Admitted(Step(b, c), Call(60_001, 60_001, true, true, true, true))
  {
    FailingOpens(FRESH, FAILURE_THRESHOLD);
  }

  // ---------- the counters are functions of the history ----------

  /** A call that was let through: how it ended, and whether it ran half-open, newly so or not. */
  datatype Note = Note(ok: bool, half: bool, entered: bool)

  function NotesOf(b: Breaker, c: Call): seq<Note> {
    var f := Synced(b, c.start, c.readOk);
    if !Admits(f, c.start) then [] else [Note(c.ok, !f.state.Closed?, f.state.Open?)]
  }

  function Log(b: Breaker, calls: seq<Call>, log: seq<Note>): seq<Note>
    decreases |calls|
  {
    if calls == [] then log else Log(Step(b, calls[0]), calls[1..], log + NotesOf(b, calls[0]))
  }

  /** Failures in a row at the end. */
  function Streak(log: seq<Note>): nat {
    if log == [] || log[|log| - 1].ok then 0 else 1 + Streak(log[..|log| - 1])
  }

  /** Half-open successes in a row at the end, since the last half-opening. */
  function Trials(log: seq<Note>): nat {
    if log == [] then 0
    else
      var last := log[|log| - 1];
      if !last.ok || !last.half then 0
      else if last.entered then 1
      else 1 + Trials(log[..|log| - 1])
  }

  predicate Agrees(b: Breaker, log: seq<Note>) {
    && b.own.failureCount == Streak(log)
    && (b.own.state.HalfOpen? ==> b.own.successCount == Trials(log) < SUCCESS_THRESHOLD)
    && (b.own.state.Closed? ==> Streak(log) < FAILURE_THRESHOLD)
  }

  lemma LogSnoc(log: seq<Note>, n: Note)
    ensures Streak(log + [n]) == if n.ok then 0 else 1 + Streak(log)
    ensures Trials(log + [n]) == if !n.ok || !n.half then 0 else if n.entered then 1 else 1 + Trials(log)
  {
    assert (log + [n])[..|log|] == log;
  }

  lemma AgreesStep(b: Breaker, log: seq<Note>, c: Call)
    requires Agrees(b, log)
    ensures Agrees(Step(b, c), log + NotesOf(b, c))
  {
    var notes := NotesOf(b, c);
    if notes == [] {
      assert log + notes == log;
    } else {
      LogSnoc(log, notes[0]);
      assert notes == [notes[0]];
    }
  }

  lemma {:induction false} AgreesRun(b: Breaker, log: seq<Note>, calls: seq<Call>)
    requires Agrees(b, log)
    ensures Agrees(Run(b, calls), Log(b, calls, log))
    decreases |calls|
  {
    if calls == [] {
    } else {
      AgreesStep(b, log, calls[0]);
      hide Agrees, Step, NotesOf;
      AgreesRun(Step(b, calls[0]), log + NotesOf(b, calls[0]), calls[1..]);
    }
  }

  /** In every run at all, faults of the record included: the failure count is the failures since the last
      success; half-open, the success count is the successes since the last failure or half-opening. */
  lemma CountersAreHistory(calls: seq<Call>)
    ensures var b, log := Run(FRESH, calls), Log(FRESH, calls, []);
            && b.own.failureCount == Streak(log)
            && (b.own.state.HalfOpen? ==> b.own.successCount == Trials(log) < 2)
            && (b.own.state.Closed? ==> Streak(log) < 5)
  {
    AgreesRun(FRESH, [], calls);
  }

  /** So a call that is let through opens the breaker exactly when it completes five failures in a row,
      and closes a half-open one exactly when it is the second success in a row. */
  lemma CallsByHistory(calls: seq<Call>, c: Call)
    requires Admitted(Run(FRESH, calls), c)
    ensures var b, log := Run(FRESH, calls), Log(FRESH, calls, []);
            var half, next := Synced(b, c.start, c.readOk).state, Step(b, c).own;
            && (next.state.Open? <==> !c.ok && Streak(log) >= 4)
            && (c.ok ==> next.failureCount == 0)
            && (!half.Closed? ==> (next.state.Closed? <==> c.ok && half.HalfOpen? && Trials(log) == 1))
            && (half.Closed? && c.ok ==> next.state.Closed?)
  {
    CountersAreHistory(calls);
    hide Run, Log, Streak, Trials;
  }
}
