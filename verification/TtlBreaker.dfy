/** template-service's circuit breaker: all of its state is in Redis keys that expire. */
module TtlBreaker {
  import opened Common
  import opened Redis
  import Gate

  const FAILURE_THRESHOLD := 5
  const SUCCESS_THRESHOLD := 2
  const TIMEOUT := 30        // seconds
  const KEY_TTL := 60        // seconds, of the keys; those of an opening live TIMEOUT longer

  datatype State = CLOSED | OPEN | HALF_OPEN

  /** The four keys of one resource. */
  datatype Keys = Keys(
    state: Option<Entry<State>>, failures: Option<Entry<nat>>, successes: Option<Entry<nat>>, openTime: Option<Entry<nat>>)

  const FRESH := Keys(None, None, None, None)

  datatype Status = Status(state: State, failures: nat, successes: nat, nextAttempt: Option<nat>)

  function StatusOf(k: Keys, now: nat): Status {
    var state := if k.state.Some? && Live(k.state.value, now) then k.state.value.value else CLOSED;
    var stamp := Count(k.openTime, now);  // an absent or zero time stamp is falsy
    Status(state, Count(k.failures, now), Count(k.successes, now),
           if state.OPEN? && stamp > 0 then Some(stamp + TIMEOUT * 1000) else None)
  }

  function Opened(k: Keys, now: nat): Keys {
    k.(state := Some(For(OPEN, TIMEOUT + KEY_TTL, now)), openTime := Some(For(now, TIMEOUT + KEY_TTL, now)), successes := None)
  }

  function HalfOpened(k: Keys, now: nat): Keys {
    k.(state := Some(For(HALF_OPEN, KEY_TTL, now)), failures := None, successes := None)
  }

  function Closed(now: nat): Keys {
    Keys(Some(For(CLOSED, KEY_TTL, now)), None, None, None)
  }

  function RecordedSuccess(k: Keys, now: nat): Keys {
    var status := StatusOf(k, now);
    match status.state
    case HALF_OPEN =>
      if status.successes + 1 >= SUCCESS_THRESHOLD then Closed(now)
      else k.(successes := Some(For(status.successes + 1, KEY_TTL, now)))
    case CLOSED => k.(failures := None)
    case OPEN => k
  }

  predicate Due(status: Status, now: nat) {
    status.nextAttempt.Some? && now >= status.nextAttempt.value
  }

  function RecordedFailure(k: Keys, now: nat): Keys {
    var status := StatusOf(k, now);
    if status.state.OPEN? then if Due(status, now) then HalfOpened(k, now) else k
    else
      var n := status.failures + 1;
      var counted := k.(failures := Some(For(n, KEY_TTL, now)));
      if n >= FAILURE_THRESHOLD then Opened(counted, now) else counted
  }

  predicate ReportsOpen(k: Keys, now: nat) {
    StatusOf(k, now).state.OPEN? && !Due(StatusOf(k, now), now)
  }

  function AskedOpen(k: Keys, now: nat): Keys {
    if StatusOf(k, now).state.OPEN? && Due(StatusOf(k, now), now) then HalfOpened(k, now) else k
  }

  /** The service object for one resource, its keys being the ones in Redis. */
  class CircuitBreakerService {
    var state: Option<Entry<State>>
    var failures: Option<Entry<nat>>
    var successes: Option<Entry<nat>>
    var openTime: Option<Entry<nat>>

    constructor ()
      ensures Now() == FRESH
    {
      state, failures, successes, openTime := None, None, None, None;
    }

    function Now(): Keys
      reads this
    {
      Keys(state, failures, successes, openTime)
    }

    method GetStatus(now: nat) returns (r: Status)
      ensures r == StatusOf(Now(), now)
    {
      var currentState := if state.Some? && Live(state.value, now) then state.value.value else CLOSED;
      var failureCount := if failures.Some? && Live(failures.value, now) then failures.value.value else 0;
      var successCount := if successes.Some? && Live(successes.value, now) then successes.value.value else 0;
      var openTimestamp := if openTime.Some? && Live(openTime.value, now) then Some(openTime.value.value) else None;
      var nextAttempt: Option<nat> := None;
      if currentState == OPEN && openTimestamp.Some? && openTimestamp.value != 0 {
        nextAttempt := Some(openTimestamp.value + TIMEOUT * 1000);
      }
      r := Status(currentState, failureCount, successCount, nextAttempt);
    }

    method RecordSuccess(now: nat)
      modifies this
      ensures Now() == RecordedSuccess(old(Now()), now)
    {
      var status := GetStatus(now);
      if status.state == HALF_OPEN {
        var newSuccesses := status.successes + 1;
        successes := Some(For(newSuccesses, KEY_TTL, now));
        if newSuccesses >= SUCCESS_THRESHOLD {
          CloseCircuit(now);
        }
      } else if status.state == CLOSED {
        failures := None;
      }
    }

    method RecordFailure(now: nat)
      modifies this
      ensures Now() == RecordedFailure(old(Now()), now)
    {
      var status := GetStatus(now);
      if status.state == OPEN {
        if status.nextAttempt.Some? && now >= status.nextAttempt.value {
          HalfOpenCircuit(now);
        }
        return;
      }
      var newFailures := status.failures + 1;
      failures := Some(For(newFailures, KEY_TTL, now));
      if newFailures >= FAILURE_THRESHOLD {
        OpenCircuit(now);
      }
    }

    method IsOpen(now: nat) returns (open: bool)
      modifies this
      ensures open == ReportsOpen(old(Now()), now) && Now() == AskedOpen(old(Now()), now)
    {
      var status := GetStatus(now);
      if status.state == OPEN {
        if status.nextAttempt.Some? && now >= status.nextAttempt.value {
          HalfOpenCircuit(now);
          return false;
        }
        return true;
      }
      return false;
    }

    method OpenCircuit(now: nat)
      modifies this
      ensures Now() == Opened(old(Now()), now)
      ensures state == Some(For(OPEN, 90, now)) && openTime == Some(For(now, 90, now))
      ensures successes == None && failures == old(failures)
    {
      state := Some(For(OPEN, TIMEOUT + KEY_TTL, now));
      openTime := Some(For(now, TIMEOUT + KEY_TTL, now));
      successes := None;
    }

    method HalfOpenCircuit(now: nat)
      modifies this
      ensures Now() == HalfOpened(old(Now()), now)
      ensures state == Some(For(HALF_OPEN, 60, now)) && failures == successes == None && openTime == old(openTime)
    {
      state := Some(For(HALF_OPEN, KEY_TTL, now));
      failures := None;
      successes := None;
    }

    method CloseCircuit(now: nat)
      modifies this
      ensures Now() == Closed(now)
      ensures state == Some(For(CLOSED, 60, now)) && failures == successes == openTime == None
    {
      state := Some(For(CLOSED, KEY_TTL, now));
      failures := None;
      successes := None;
      openTime := None;
    }
  }

  // ---------- the breaker is a gate ----------

  /** What its users do: ask whether it is open, report a success, report a failure. */
  datatype Op = Ask(at: nat) | Success(at: nat) | Failure(at: nat)

  function Step(k: Keys, op: Op): Keys {
    match op
    case Ask(t) => AskedOpen(k, t)
    case Success(t) => RecordedSuccess(k, t)
    case Failure(t) => RecordedFailure(k, t)
  }

  /** A failure opens the circuit when it is the last of the threshold. */
  predicate Trips(k: Keys, op: Op) {
    op.Failure? && !StatusOf(k, op.at).state.OPEN? && StatusOf(k, op.at).failures + 1 >= FAILURE_THRESHOLD
  }

  function ActsOf(k: Keys, op: Op): seq<Gate.Act> {
    match op
    case Ask(t) => [Gate.Ask(t, !ReportsOpen(k, t))]
    case Success(_) => []
    case Failure(t) => if Trips(k, op) then [Gate.Trip(t)] else []
  }

  function Acts(k: Keys, ops: seq<Op>): seq<Gate.Act>
    decreases |ops|
  {
    if ops == [] then [] else ActsOf(k, ops[0]) + Acts(Step(k, ops[0]), ops[1..])
  }

  predicate InOrder(ops: seq<Op>, from: nat) {
    ops == [] || (from <= ops[0].at && InOrder(ops[1..], ops[0].at))
  }

  /** An OPEN key and the opening time expire together, a minute after the timeout. */
  predicate Remembers(k: Keys, since: Option<nat>, now: nat) {
    if k.state.Some? && k.state.value.value.OPEN?
    then since.Some? && since.value > 0 && k.state.value == For(OPEN, TIMEOUT + KEY_TTL, since.value)
         && k.openTime == Some(For(since.value, TIMEOUT + KEY_TTL, since.value))
    else since.Some? ==> since.value + TIMEOUT * 1000 <= now
  }

  lemma RemembersStep(k: Keys, since: Option<nat>, op: Op, from: nat)
    requires Remembers(k, since, from) && 0 < from <= op.at
    ensures Remembers(Step(k, op), if Trips(k, op) then Some(op.at) else since, op.at)
    ensures !ReportsOpen(k, op.at) <==> (since.None? || since.value + TIMEOUT * 1000 <= op.at)
  {
  }

  lemma {:induction false} RunIsGate(k: Keys, since: Option<nat>, ops: seq<Op>, from: nat)
    requires 0 < from && InOrder(ops, from) && Remembers(k, since, from)
    ensures Gate.Legal(TIMEOUT * 1000, since, Acts(k, ops)) && Gate.Ordered(Acts(k, ops))
    ensures forall i | 0 <= i < |Acts(k, ops)| :: from <= Acts(k, ops)[i].at
    decreases |ops|
  {
    if ops == [] {
    } else {
      var op := ops[0];
      RemembersStep(k, since, op, from);
      var rest := Acts(Step(k, op), ops[1..]);
      RunIsGate(Step(k, op), if Trips(k, op) then Some(op.at) else since, ops[1..], op.at);
      hide Step, ReportsOpen, Trips, Remembers;
      if |ActsOf(k, op)| == 1 {
        Gate.OrderedCons(ActsOf(k, op)[0], rest);
        assert ActsOf(k, op) == [ActsOf(k, op)[0]];
      } else {
        assert ActsOf(k, op) + rest == rest;
      }
    }
  }

  /** In every serial run the breaker reports open at t exactly when it was opened less than
      30 seconds before, although its keys live for 60 and 90 seconds. */
  lemma ReportsOpenExactly(ops: seq<Op>, from: nat, j: nat)
    requires 0 < from && InOrder(ops, from)
    requires j < |Acts(FRESH, ops)| && Acts(FRESH, ops)[j].Ask?
    ensures var acts := Acts(FRESH, ops);
            !acts[j].admitted <==> exists i :: 0 <= i < j && acts[i].Trip? && acts[j].at < acts[i].at + 30_000
  {
    RunIsGate(FRESH, None, ops, from);
    Gate.AdmittedExactly(TIMEOUT * 1000, None, Acts(FRESH, ops), j);
  }

  // ---------- how many failures open it ----------

  function Failing(k: Keys, times: seq<nat>): Keys
    decreases |times|
  {
    if times == [] then k else Failing(RecordedFailure(k, times[0]), times[1..])
  }

  /** In order from `from` on, with no gap as long as a counter lives. */
  predicate Dense(times: seq<nat>, from: nat) {
    times == [] || (from <= times[0] < from + 1000 * KEY_TTL && Dense(times[1..], times[0]))
  }

  lemma OneFailure(k: Keys, now: nat)
    requires !StatusOf(k, now).state.OPEN?
    ensures var n := StatusOf(k, now).failures + 1;
            var next := RecordedFailure(k, now);
            if n >= FAILURE_THRESHOLD then StatusOf(next, now).state.OPEN?
            else forall t: nat | now <= t < now + 1000 * KEY_TTL ::
                   !StatusOf(next, t).state.OPEN? && StatusOf(next, t).failures == n
  {
  }

  /** Closed or half-open alike, a dense row of failures opens the circuit exactly when it
      makes up what is missing to five. */
  lemma {:induction false} OpensAfter(k: Keys, times: seq<nat>, from: nat, missing: nat)
    requires times != [] && Dense(times, from) && |times| <= missing
    requires !StatusOf(k, times[0]).state.OPEN?
    requires missing + StatusOf(k, times[0]).failures == FAILURE_THRESHOLD
    ensures StatusOf(Failing(k, times), times[|times| - 1]).state.OPEN? <==> |times| == missing
    decreases |times|
  {
    OneFailure(k, times[0]);
    var next, rest := RecordedFailure(k, times[0]), times[1..];
    hide StatusOf, RecordedFailure;
    if rest == [] {
      assert Failing(next, rest) == next;
    } else {
      OpensAfter(next, rest, times[0], missing - 1);
    }
  }

  /** Half-open, a failure does not reopen the circuit: it takes five, as when closed. */
  lemma HalfOpenTakesFiveFailures(k: Keys, now: nat, times: seq<nat>)
    requires StatusOf(k, now).state.OPEN? && Due(StatusOf(k, now), now)
    requires 1 <= |times| <= FAILURE_THRESHOLD && Dense(times, now)
    ensures var last := times[|times| - 1];
            StatusOf(Failing(AskedOpen(k, now), times), last).state.OPEN? <==> |times| == FAILURE_THRESHOLD
  {
    OpensAfter(AskedOpen(k, now), times, now, FAILURE_THRESHOLD);
  }

  // ---------- the counters are functions of the history ----------

  /** What an operation amounts to, by the state it meets: a failure that is counted, a success while
      closed, a success while half-open, the half-opening. */
  datatype Note = Failed(at: nat) | Cleared(at: nat) | Trial(at: nat) | HalfOpening(at: nat)

  function NotesOf(k: Keys, op: Op): seq<Note> {
    var status := StatusOf(k, op.at);
    match op
    case Ask(t) => if status.state.OPEN? && Due(status, t) then [HalfOpening(t)] else []
    case Success(t) =>
      (match status.state case CLOSED => [Cleared(t)] case HALF_OPEN => [Trial(t)] case OPEN => [])
    case Failure(t) =>
      if !status.state.OPEN? then [Failed(t)] else if Due(status, t) then [HalfOpening(t)] else []
  }

  function Run(k: Keys, ops: seq<Op>): Keys
    decreases |ops|
  {
    if ops == [] then k else Run(Step(k, ops[0]), ops[1..])
  }

  function Log(k: Keys, ops: seq<Op>, log: seq<Note>): seq<Note>
    decreases |ops|
  {
    if ops == [] then log else Log(Step(k, ops[0]), ops[1..], log + NotesOf(k, ops[0]))
  }

  /** Successes while half-open, since the last half-opening. */
  function Trials(log: seq<Note>): nat {
    if log == [] then 0
    else
      var rest := log[..|log| - 1];
      match log[|log| - 1]
      case HalfOpening(_) => 0
      case Trial(_) => 1 + Trials(rest)
      case _ => Trials(rest)
  }

  /** Failures up to `now`: back to the last success while closed, the last half-opening, the last
      closing trial, or a gap of 60 seconds. */
  function Streak(log: seq<Note>, now: nat): nat {
    if log == [] then 0
    else
      var rest := log[..|log| - 1];
      match log[|log| - 1]
      case Failed(t) => if now < t + 60_000 then 1 + Streak(rest, t) else 0
      case Cleared(_) => 0
      case HalfOpening(_) => 0
      case Trial(_) => if Trials(log) >= 2 then 0 else Streak(rest, now)
  }

  /** The failure key is the streak, below five unless the circuit is open. */
  ghost predicate FailuresAgree(k: Keys, log: seq<Note>, from: nat) {
    forall t: nat | from <= t ::
      Count(k.failures, t) == Streak(log, t) && (!StatusOf(k, t).state.OPEN? ==> Streak(log, t) < 5)
  }

  /** While half-open the success key is the trials, fewer than two. */
  ghost predicate TrialsAgree(k: Keys, log: seq<Note>, from: nat) {
    forall t: nat | from <= t && StatusOf(k, t).state.HALF_OPEN? :: Count(k.successes, t) == Trials(log) < 2
  }

  /** Keys as they are written: OPEN outlives the failures of its opening, successes outlive the
      half-open state they are counted in. */
  predicate Written(k: Keys, from: nat) {
    && (k.state.Some? ==> k.state.value.expiresAt.Some?)
    && (k.failures.Some? ==> k.failures.value.expiresAt.Some? && k.failures.value.expiresAt.value <= from + 60_000)
    && (k.state.Some? && k.state.value.value.OPEN? && k.failures.Some? ==>
          k.state.value.expiresAt.value <= from || k.failures.value.expiresAt.value <= k.state.value.expiresAt.value)
    && (k.state.Some? && k.state.value.value.HALF_OPEN? ==> k.state.value.expiresAt.value <= from + 60_000)
    && (k.state.Some? && k.state.value.value.HALF_OPEN? && k.successes.Some? ==>
          k.successes.value.expiresAt.Some? && k.successes.value.expiresAt.value >= k.state.value.expiresAt.value)
  }

  ghost predicate Agrees(k: Keys, log: seq<Note>, from: nat) {
    FailuresAgree(k, log, from) && TrialsAgree(k, log, from) && Written(k, from)
  }

  lemma LogSnoc(log: seq<Note>, n: Note, now: nat)
    ensures Trials(log + [n]) == match n { case HalfOpening(_) => 0 case Trial(_) => 1 + Trials(log) case _ => Trials(log) }
    ensures Streak(log + [n], now) ==
            match n {
              case Failed(t) => if now < t + 60_000 then 1 + Streak(log, t) else 0
              case Cleared(_) => 0
              case HalfOpening(_) => 0
              case Trial(_) => if Trials(log) + 1 >= 2 then 0 else Streak(log, now)
            }
  {
    assert (log + [n])[..|log|] == log;
  }

  lemma LogSame(log: seq<Note>)
    ensures log + [] == log
  {
  }

  lemma AgreesStep(k: Keys, log: seq<Note>, op: Op, from: nat)
    requires Agrees(k, log, from) && from <= op.at
    ensures Agrees(Step(k, op), log + NotesOf(k, op), op.at)
  {
    var next, notes := Step(k, op), NotesOf(k, op);
    if notes == [] {
      LogSame(log);
      assert next == k;
    } else {
      var n := notes[0];
      assert notes == [n];
      LogSnoc(log, n, op.at);
      match n {
        case Failed(_) => FailedAgrees(k, log, op.at);
        case Cleared(_) => ClearedAgrees(k, log, op.at);
        case Trial(_) => TrialAgrees(k, log, op.at);
        case HalfOpening(_) => HalfOpeningAgrees(k, log, op.at);
      }
    }
  }

  lemma FailedAgrees(k: Keys, log: seq<Note>, t: nat)
    requires Agrees(k, log, t) && !StatusOf(k, t).state.OPEN?
    ensures Agrees(RecordedFailure(k, t), log + [Failed(t)], t)
  {
    forall u: nat ensures Streak(log + [Failed(t)], u) == if u < t + 60_000 then 1 + Streak(log, t) else 0 {
      LogSnoc(log, Failed(t), u);
    }
    assert Count(k.failures, t) == Streak(log, t) < 5;
  }

  lemma ClearedAgrees(k: Keys, log: seq<Note>, t: nat)
    requires Agrees(k, log, t) && StatusOf(k, t).state.CLOSED?
    ensures Agrees(RecordedSuccess(k, t), log + [Cleared(t)], t)
  {
    forall u: nat ensures Streak(log + [Cleared(t)], u) == 0 {
      LogSnoc(log, Cleared(t), u);
    }
  }

  lemma TrialAgrees(k: Keys, log: seq<Note>, t: nat)
    requires Agrees(k, log, t) && StatusOf(k, t).state.HALF_OPEN?
    ensures Agrees(RecordedSuccess(k, t), log + [Trial(t)], t)
  {
    forall u: nat
      ensures Streak(log + [Trial(t)], u) == if Trials(log) + 1 >= 2 then 0 else Streak(log, u)
      ensures Trials(log + [Trial(t)]) == 1 + Trials(log)
    {
      LogSnoc(log, Trial(t), u);
    }
    assert Count(k.successes, t) == Trials(log) < 2;
  }

  lemma HalfOpeningAgrees(k: Keys, log: seq<Note>, t: nat)
    requires Agrees(k, log, t)
    ensures Agrees(HalfOpened(k, t), log + [HalfOpening(t)], t)
  {
    forall u: nat ensures Streak(log + [HalfOpening(t)], u) == 0 && Trials(log + [HalfOpening(t)]) == 0 {
      LogSnoc(log, HalfOpening(t), u);
    }
  }

  lemma {:induction false} AgreesRun(k: Keys, log: seq<Note>, ops: seq<Op>, from: nat)
    requires Agrees(k, log, from) && InOrder(ops, from)
    ensures Agrees(Run(k, ops), Log(k, ops, log), if ops == [] then from else ops[|ops| - 1].at)
    decreases |ops|
  {
    if ops == [] {
    } else {
      AgreesStep(k, log, ops[0], from);
      hide Agrees, Step, NotesOf;
      AgreesRun(Step(k, ops[0]), log + NotesOf(k, ops[0]), ops[1..], ops[0].at);
    }
  }

  lemma FreshAgrees()
    ensures Agrees(FRESH, [], 0)
  {
  }

  /** In every ordered run, at every later time: the failures read are the streak, below five unless the
      circuit is open; the successes read while half-open are the trials, fewer than two. */
  lemma CountersAreHistory(ops: seq<Op>, t: nat)
    requires InOrder(ops, 0) && (ops != [] ==> ops[|ops| - 1].at <= t)
    ensures var status, log := StatusOf(Run(FRESH, ops), t), Log(FRESH, ops, []);
            && status.failures == Streak(log, t)
            && (!status.state.OPEN? ==> status.failures < 5)
            && (status.state.HALF_OPEN? ==> status.successes == Trials(log) < 2)
  {
    FreshAgrees();
    AgreesRun(FRESH, [], ops, 0);
    hide Run, Log, Streak, Trials, Written;
  }

  /** So a failure opens the circuit exactly when it completes five; a success while closed leaves none;
      a success while half-open closes the circuit exactly when it is the second. */
  lemma OperationsByHistory(ops: seq<Op>, t: nat)
    requires InOrder(ops, 0) && (ops != [] ==> ops[|ops| - 1].at <= t)
    ensures var k, log := Run(FRESH, ops), Log(FRESH, ops, []);
            var state := StatusOf(k, t).state;
            && (!state.OPEN? ==> (StatusOf(Step(k, Failure(t)), t).state.OPEN? <==> Streak(log, t) == 4))
            && (state.CLOSED? ==> StatusOf(Step(k, Success(t)), t) == Status(CLOSED, 0, StatusOf(k, t).successes, None))
            && (state.HALF_OPEN? ==> (StatusOf(Step(k, Success(t)), t).state.CLOSED? <==> Trials(log) == 1))
            && (state.HALF_OPEN? ==> (StatusOf(Step(k, Success(t)), t).state.HALF_OPEN? <==> Trials(log) == 0))
  {
    CountersAreHistory(ops, t);
    hide Run, Log, Streak, Trials;
  }
}
