/** push-service's circuit breaker in runs without Redis faults, as a function of its
    four keys, and what its counters and its gate amount to over whole runs. */
module PushBreaker {
  import opened Common
  import opened Redis
  import Gate

  datatype Config = Config(failureThreshold: nat, timeoutSeconds: nat, successThreshold: nat)

  datatype State = Closed | Open | HalfOpen

  /** The state, failures, successes and opened_at keys of one service. */
  datatype Breaker = Breaker(
    state: State, failures: Option<Entry<nat>>, successes: nat, openedAt: Option<nat>)

  const FRESH := Breaker(Closed, None, 0, None)

  /** One call: when it starts, when its operation ends (milliseconds), and how. */
  datatype Call = Call(start: nat, end: nat, ok: bool)

  function Secs(ms: nat): nat { ms / 1000 }

  predicate Admits(cfg: Config, b: Breaker, now: nat) {
    b.state.Open? ==> b.openedAt.Some? && Secs(now) - b.openedAt.value >= cfg.timeoutSeconds
  }

  /** The state in which an admitted call runs its operation. */
  function Admitted(b: Breaker): Breaker {
    if b.state.Open? then b.(state := HalfOpen) else b
  }

  function RecordSuccess(cfg: Config, b: Breaker): Breaker {
    match b.state
    case HalfOpen =>
      if b.successes + 1 >= cfg.successThreshold then FRESH else b.(successes := b.successes + 1)
    case Closed => b.(failures := None)
    case Open => b
  }

  function RecordFailure(cfg: Config, b: Breaker, now: nat): Breaker {
    if b.state.HalfOpen? then b.(state := Open, openedAt := Some(Secs(now)))
    else
      var n := Count(b.failures, now) + 1;
      var c := b.(failures := Some(For(n, cfg.timeoutSeconds, now)));
      if n >= cfg.failureThreshold then c.(state := Open, openedAt := Some(Secs(now))) else c
  }

  function Step(cfg: Config, b: Breaker, c: Call): Breaker {
    if !Admits(cfg, b, c.start) then b
    else if c.ok then RecordSuccess(cfg, Admitted(b))
    else RecordFailure(cfg, Admitted(b), c.end)
  }

  function Run(cfg: Config, b: Breaker, calls: seq<Call>): Breaker
    decreases |calls|
  {
    if calls == [] then b else Run(cfg, Step(cfg, b, calls[0]), calls[1..])
  }

  /** Serial calls: each starts after the one before has ended. */
  predicate Serial(calls: seq<Call>, from: nat) {
    calls == [] || (from <= calls[0].start <= calls[0].end && Serial(calls[1..], calls[0].end))
  }

  lemma {:induction false} RunSnoc(cfg: Config, b: Breaker, calls: seq<Call>, c: Call)
    ensures Run(cfg, b, calls + [c]) == Step(cfg, Run(cfg, b, calls), c)
    decreases |calls|
  {
    if calls == [] {
      assert [] + [c] == [c] && [c][1..] == [];
    } else {
      assert (calls + [c])[1..] == calls[1..] + [c];
      RunSnoc(cfg, Step(cfg, b, calls[0]), calls[1..], c);
    }
  }

  // ---------- the breaker is a gate ----------

  /** The second at which a call trips the breaker, if it does. */
  function TripOf(cfg: Config, b: Breaker, c: Call): Option<nat> {
    if Admits(cfg, b, c.start) && Step(cfg, b, c).state.Open? then Some(Secs(c.end)) else None
  }

  function ActsOf(cfg: Config, b: Breaker, c: Call): seq<Gate.Act> {
    Gate.OneCall(Secs(c.start), Admits(cfg, b, c.start), TripOf(cfg, b, c))
  }

  function Acts(cfg: Config, b: Breaker, calls: seq<Call>): seq<Gate.Act>
    decreases |calls|
  {
    if calls == [] then [] else ActsOf(cfg, b, calls[0]) + Acts(cfg, Step(cfg, b, calls[0]), calls[1..])
  }

  /** The gate's memory as the breaker holds it: while it is open, the opening time;
      otherwise any earlier trip is over. */
  predicate Remembers(cfg: Config, b: Breaker, since: Option<nat>, now: nat) {
    if b.state.Open? then since.Some? && b.openedAt == since
    else since.Some? ==> since.value + cfg.timeoutSeconds <= Secs(now)
  }

  lemma SecsMonotone(a: nat, b: nat)
    requires a <= b
    ensures Secs(a) <= Secs(b)
  {
  }

  lemma RemembersStep(cfg: Config, b: Breaker, since: Option<nat>, c: Call, from: nat)
    requires Remembers(cfg, b, since, from) && from <= c.start <= c.end
    ensures var trip := TripOf(cfg, b, c);
            Remembers(cfg, Step(cfg, b, c), if trip.Some? then trip else since, c.end)
    ensures Admits(cfg, b, c.start) <==> (since.None? || since.value + cfg.timeoutSeconds <= Secs(c.start))
  {
    SecsMonotone(from, c.start);
    SecsMonotone(c.start, c.end);
  }

  lemma {:induction false} RunIsGate(cfg: Config, b: Breaker, since: Option<nat>, calls: seq<Call>, from: nat)
    requires Serial(calls, from) && Remembers(cfg, b, since, from)
    ensures Gate.Legal(cfg.timeoutSeconds, since, Acts(cfg, b, calls)) && Gate.Ordered(Acts(cfg, b, calls))
    ensures forall i | 0 <= i < |Acts(cfg, b, calls)| :: Secs(from) <= Acts(cfg, b, calls)[i].at
    decreases |calls|
  {
    if calls == [] {
    } else {
      var c := calls[0];
      var trip := TripOf(cfg, b, c);
      RemembersStep(cfg, b, since, c, from);
      RunIsGate(cfg, Step(cfg, b, c), if trip.Some? then trip else since, calls[1..], c.end);
      SecsMonotone(from, c.start);
      SecsMonotone(c.start, c.end);
      hide Step, Admits, Secs;
      Gate.Prepend(cfg.timeoutSeconds, since, Secs(c.start), Admits(cfg, b, c.start), trip,
                   Acts(cfg, Step(cfg, b, c), calls[1..]));
    }
  }

  /** In every serial run a call is admitted exactly when no trip happened in the
      last `timeout_seconds` (counted in whole seconds), so the breaker never sticks. */
  lemma AdmissionLaw(cfg: Config, calls: seq<Call>, j: nat)
    requires Serial(calls, 0)
    requires j < |Acts(cfg, FRESH, calls)| && Acts(cfg, FRESH, calls)[j].Ask?
    ensures var acts := Acts(cfg, FRESH, calls);
            acts[j].admitted <==>
            forall i | 0 <= i < j && acts[i].Trip? :: acts[i].at + cfg.timeoutSeconds <= acts[j].at
  {
    RunIsGate(cfg, FRESH, None, calls, 0);
    Gate.AdmittedExactly(cfg.timeoutSeconds, None, Acts(cfg, FRESH, calls), j);
  }

  // ---------- the counters are functions of the history ----------

  /** What is remembered of an admitted call: when it ended, how, and in which phase it ran. */
  datatype Record = Record(at: nat, ok: bool, phase: State)

  /** The history after one more call. */
  function Logged(cfg: Config, b: Breaker, log: seq<Record>, c: Call): seq<Record> {
    if Admits(cfg, b, c.start) then log + [Record(c.end, c.ok, Admitted(b).state)] else log
  }

  function Log(cfg: Config, b: Breaker, calls: seq<Call>, log: seq<Record>): seq<Record>
    decreases |calls|
  {
    if calls == [] then log
    else Log(cfg, Step(cfg, b, calls[0]), calls[1..], Logged(cfg, b, log, calls[0]))
  }

  /** Failures in a row up to `now`: back to the last success, the last close, or a
      gap of `timeout_seconds`. */
  function Streak(cfg: Config, log: seq<Record>, now: nat): nat {
    if log == [] then 0
    else
      var last := log[|log| - 1];
      if last.phase.Closed? && !last.ok && now < last.at + 1000 * cfg.timeoutSeconds
      then 1 + Streak(cfg, log[..|log| - 1], last.at)
      else 0
  }

  function Trials(log: seq<Record>): nat {
    if log == [] then 0
    else (if log[|log| - 1].phase.HalfOpen? && log[|log| - 1].ok then 1 else 0) + Trials(log[..|log| - 1])
  }

  function CloseOf(cfg: Config, b: Breaker, c: Call): nat {
    if Admits(cfg, b, c.start) && Admitted(b).state.HalfOpen? && Step(cfg, b, c).state.Closed? then 1 else 0
  }

  function Closes(cfg: Config, b: Breaker, calls: seq<Call>): nat
    decreases |calls|
  {
    if calls == [] then 0 else CloseOf(cfg, b, calls[0]) + Closes(cfg, Step(cfg, b, calls[0]), calls[1..])
  }

  /** Counters against history, with the number of closes so far. */
  ghost predicate Agrees(cfg: Config, b: Breaker, log: seq<Record>, closes: nat, from: nat) {
    && (b.state.Closed? ==> forall t: nat | from <= t :: Count(b.failures, t) == Streak(cfg, log, t))
    && (b.state.Closed? ==> forall t: nat :: Count(b.failures, t) < Max(1, cfg.failureThreshold))
    && b.successes < Max(1, cfg.successThreshold)
    && Trials(log) == Max(1, cfg.successThreshold) * closes + b.successes
  }

  lemma LogSnoc(cfg: Config, log: seq<Record>, r: Record, now: nat)
    ensures Trials(log + [r]) == Trials(log) + if r.phase.HalfOpen? && r.ok then 1 else 0
    ensures Streak(cfg, log + [r], now) ==
            if r.phase.Closed? && !r.ok && now < r.at + 1000 * cfg.timeoutSeconds
            then 1 + Streak(cfg, log, r.at) else 0
  {
    assert (log + [r])[..|log|] == log;
  }

  lemma AgreesStep(cfg: Config, b: Breaker, log: seq<Record>, closes: nat, c: Call, from: nat)
    requires Agrees(cfg, b, log, closes, from) && from <= c.start <= c.end
    ensures Agrees(cfg, Step(cfg, b, c), Logged(cfg, b, log, c), closes + CloseOf(cfg, b, c), c.end)
  {
    var next := Step(cfg, b, c);
    if Admits(cfg, b, c.start) {
      var r := Record(c.end, c.ok, Admitted(b).state);
      LogSnoc(cfg, log, r, 0);
      if next.state.Closed? {
        forall t: nat | c.end <= t
          ensures Count(next.failures, t) == Streak(cfg, log + [r], t)
        {
          LogSnoc(cfg, log, r, t);
        }
      }
    }
  }

  lemma {:induction false} AgreesRun(
    cfg: Config, b: Breaker, log: seq<Record>, closes: nat, calls: seq<Call>, from: nat) returns (to: nat)
    requires Agrees(cfg, b, log, closes, from) && Serial(calls, from)
    ensures to == if calls == [] then from else calls[|calls| - 1].end
    ensures Agrees(cfg, Run(cfg, b, calls), Log(cfg, b, calls, log), closes + Closes(cfg, b, calls), to)
    decreases |calls|
  {
    if calls == [] {
      to := from;
    } else {
      var c := calls[0];
      AgreesStep(cfg, b, log, closes, c, from);
      to := AgreesRun(cfg, Step(cfg, b, c), Logged(cfg, b, log, c), closes + CloseOf(cfg, b, c), calls[1..], c.end);
    }
  }

  lemma FreshAgrees(cfg: Config)
    ensures Agrees(cfg, FRESH, [], 0, 0)
  {
  }

  /** In every serial run: while the breaker is closed, the failure key read at any later
      time holds the current streak, below the threshold; and half-open successes are
      never lost: they add up to the closes and the stored count, across reopenings. */
  lemma CountersAreHistory(cfg: Config, calls: seq<Call>)
    requires Serial(calls, 0)
    ensures var b := Run(cfg, FRESH, calls);
            var log := Log(cfg, FRESH, calls, []);
            && (b.state.Closed? ==> forall t: nat | calls != [] ==> calls[|calls| - 1].end <= t ::
                  Count(b.failures, t) == Streak(cfg, log, t) < Max(1, cfg.failureThreshold))
            && b.successes < Max(1, cfg.successThreshold)
            && Trials(log) == Max(1, cfg.successThreshold) * Closes(cfg, FRESH, calls) + b.successes
  {
    hide Run, Log, Closes, Streak, Trials, Count;
    FreshAgrees(cfg);
    var to := AgreesRun(cfg, FRESH, [], 0, calls, 0);
  }

  // ---------- a backend that stays down, and one that recovers ----------

  /** The seconds at which calls are let through. */
  function Through(cfg: Config, b: Breaker, calls: seq<Call>): seq<nat>
    decreases |calls|
  {
    if calls == [] then []
    else (if Admits(cfg, b, calls[0].start) then [Secs(calls[0].start)] else [])
         + Through(cfg, Step(cfg, b, calls[0]), calls[1..])
  }

  /** After a trip at second `tripped`, a backend that keeps failing gets its k-th further
      call no earlier than k timeouts later. */
  lemma {:induction false} ProbesAreSpaced(cfg: Config, b: Breaker, tripped: nat, calls: seq<Call>, from: nat, k: nat)
    requires b.state.Open? && b.openedAt == Some(tripped)
    requires Serial(calls, from) && forall i | 0 <= i < |calls| :: !calls[i].ok
    requires 1 <= k <= |Through(cfg, b, calls)|
    ensures Through(cfg, b, calls)[k - 1] >= tripped + k * cfg.timeoutSeconds
    decreases |calls|
  {
    var c, rest := calls[0], calls[1..];
    var next := Step(cfg, b, c);
    if Admits(cfg, b, c.start) {
      SecsMonotone(c.start, c.end);
      if k > 1 {
        ProbesAreSpaced(cfg, next, Secs(c.end), rest, c.end, k - 1);
        assert Through(cfg, b, calls)[k - 1] == Through(cfg, next, rest)[k - 2];
        assert k * cfg.timeoutSeconds == (k - 1) * cfg.timeoutSeconds + cfg.timeoutSeconds;
      }
    } else {
      ProbesAreSpaced(cfg, b, tripped, rest, c.end, k);
    }
  }

  /** Successful calls after the timeout: half-open until `success_threshold` minus the
      stored successes have been recorded, closed from then on. */
  lemma {:induction false} RecoveryIsExact(cfg: Config, b: Breaker, calls: seq<Call>)
    requires b.successes < Max(1, cfg.successThreshold)
    requires forall i | 0 <= i < |calls| :: calls[i].ok
    requires b.state.Open? ==>
               b.openedAt.Some? && forall i | 0 <= i < |calls| ::
                 Secs(calls[i].start) >= b.openedAt.value + cfg.timeoutSeconds
    ensures b.state.Closed? ==> Run(cfg, b, calls).state.Closed?
    ensures !b.state.Closed? && calls != [] ==>
              Run(cfg, b, calls).state ==
              if |calls| < Max(1, cfg.successThreshold) - b.successes then HalfOpen else Closed
    decreases |calls|
  {
    if calls == [] {
    } else {
      RecoveryIsExact(cfg, Step(cfg, b, calls[0]), calls[1..]);
    }
  }

  // ---------- an opening time that was never written ----------

  lemma {:induction false} StuckRun(cfg: Config, b: Breaker, calls: seq<Call>)
    requires b.state.Open? && b.openedAt.None?
    ensures Run(cfg, b, calls) == b && Through(cfg, b, calls) == []
    decreases |calls|
  {
    if calls == [] {
    } else {
      StuckRun(cfg, b, calls[1..]);
    }
  }

  /** From `from` on no call is ever let through again. */
  ghost predicate Stuck(cfg: Config, b: Breaker, from: nat) {
    forall calls :: Serial(calls, from) ==> Through(cfg, b, calls) == []
  }

  /** A breaker is stuck exactly when it is open without an opening time. */
  lemma StuckExactly(cfg: Config, b: Breaker, from: nat)
    ensures Stuck(cfg, b, from) <==> b.state.Open? && b.openedAt.None?
  {
    if b.state.Open? && b.openedAt.None? {
      forall calls | Serial(calls, from) ensures Through(cfg, b, calls) == [] {
        StuckRun(cfg, b, calls);
      }
    } else {
      var late := from + 1000 * (cfg.timeoutSeconds + if b.openedAt.Some? then b.openedAt.value else 0);
      var c := Call(late, late, true);
      assert Admits(cfg, b, late);
      assert [c][1..] == [];
      assert Serial([c], from);
      assert Through(cfg, b, [c]) == [Secs(late)] + Through(cfg, Step(cfg, b, c), []);
    }
  }

  /** What `record_failure` leaves when the write of the opening time is lost. */
  function LostWrite(cfg: Config, b: Breaker, now: nat): Breaker {
    RecordFailure(cfg, b, now).(openedAt := b.openedAt)
  }

  /** The opening time is stored exactly while the breaker is not closed, and a half-open one is due. */
  predicate OpeningKept(cfg: Config, b: Breaker, now: nat) {
    && (b.state.Closed? <==> b.openedAt.None?)
    && (b.state.HalfOpen? ==> b.openedAt.value + cfg.timeoutSeconds <= Secs(now))
  }

  lemma OpeningKeptStep(cfg: Config, b: Breaker, c: Call, from: nat)
    requires OpeningKept(cfg, b, from) && from <= c.start <= c.end
    ensures OpeningKept(cfg, Step(cfg, b, c), c.end)
  {
    SecsMonotone(from, c.start);
    SecsMonotone(c.start, c.end);
  }

  lemma {:induction false} OpeningKeptRun(cfg: Config, b: Breaker, calls: seq<Call>, from: nat)
    requires OpeningKept(cfg, b, from) && Serial(calls, from)
    ensures OpeningKept(cfg, Run(cfg, b, calls), if calls == [] then from else calls[|calls| - 1].end)
    decreases |calls|
  {
    if calls == [] {
    } else {
      OpeningKeptStep(cfg, b, calls[0], from);
      OpeningKeptRun(cfg, Step(cfg, b, calls[0]), calls[1..], calls[0].end);
    }
  }

  /** After every serial run without faults, a failing call that opens the breaker and loses the write
      of the opening time: the breaker is stuck exactly when it was closed; reopened from half-open it
      keeps the old opening time, which is due, and lets the very next call through. */
  lemma LostOpeningTime(cfg: Config, calls: seq<Call>, c: Call)
    requires Serial(calls + [c], 0) && !c.ok && Admits(cfg, Run(cfg, FRESH, calls), c.start)
    requires LostWrite(cfg, Admitted(Run(cfg, FRESH, calls)), c.end).state.Open?
    ensures var b := Admitted(Run(cfg, FRESH, calls));
            var lost := LostWrite(cfg, b, c.end);
            && (Stuck(cfg, lost, c.end) <==> b.state.Closed?)
            && (b.state.HalfOpen? ==> forall t: nat | c.end <= t :: Admits(cfg, lost, t))
  {
    SerialParts(calls, c, 0);
    OpeningKeptRun(cfg, FRESH, calls, 0);
    hide Run;
    var b := Admitted(Run(cfg, FRESH, calls));
    var lost := LostWrite(cfg, b, c.end);
    StuckExactly(cfg, lost, c.end);
    var last := if calls == [] then 0 else calls[|calls| - 1].end;
    SecsMonotone(last, c.start);
    forall t: nat | c.end <= t && b.state.HalfOpen? ensures Admits(cfg, lost, t) {
      SecsMonotone(c.start, t);
    }
  }

  lemma {:induction false} SerialParts(calls: seq<Call>, c: Call, from: nat)
    requires Serial(calls + [c], from)
    ensures Serial(calls, from) && c.start <= c.end
    ensures (if calls == [] then from else calls[|calls| - 1].end) <= c.start
    decreases |calls|
  {
    if calls == [] {
      assert calls + [c] == [c];
    } else {
      assert (calls + [c])[1..] == calls[1..] + [c];
      SerialParts(calls[1..], c, calls[0].end);
    }
  }

  /** `n` failures at the start of time. */
  function Failures(n: nat): seq<Call> {
    if n == 0 then [] else Failures(n - 1) + [Call(0, 0, false)]
  }

  lemma {:induction false} FailuresCount(cfg: Config, n: nat)
    requires n < Max(1, cfg.failureThreshold) && (cfg.timeoutSeconds > 0 || n == 0)
    ensures var b := Run(cfg, FRESH, Failures(n)); b.state.Closed? && Count(b.failures, 0) == n
  {
    if n == 0 {
    } else {
      FailuresCount(cfg, n - 1);
      RunSnoc(cfg, FRESH, Failures(n - 1), Call(0, 0, false));
    }
  }

  /** The stuck breaker is real: with every configuration that can trip at all, the failure that
      would trip a fresh breaker leaves it stuck when that one write is lost. */
  lemma StuckIsReached(cfg: Config)
    requires cfg.timeoutSeconds > 0 || cfg.failureThreshold <= 1
    ensures var b := Run(cfg, FRESH, Failures(Max(1, cfg.failureThreshold) - 1));
            && Admits(cfg, b, 0) && Stuck(cfg, LostWrite(cfg, Admitted(b), 0), 0)
  {
    var n := Max(1, cfg.failureThreshold) - 1;
    FailuresCount(cfg, n);
    var b := Run(cfg, FRESH, Failures(n));
    OpeningKeptRun(cfg, FRESH, Failures(n), 0) by { FailuresSerial(n); }
    hide Run;
    StuckExactly(cfg, LostWrite(cfg, Admitted(b), 0), 0);
  }

  lemma {:induction false} FailuresSerial(n: nat)
    ensures Serial(Failures(n), 0) && forall i | 0 <= i < n :: |Failures(n)| == n && Failures(n)[i] == Call(0, 0, false)
  {
    if n == 0 {
    } else {
      FailuresSerial(n - 1);
      SerialSnoc(Failures(n - 1), Call(0, 0, false), 0);
    }
  }

  lemma {:induction false} SerialSnoc(calls: seq<Call>, c: Call, from: nat)
    requires Serial(calls, from) && c.start <= c.end
    requires (if calls == [] then from else calls[|calls| - 1].end) <= c.start
    ensures Serial(calls + [c], from)
    decreases |calls|
  {
    if calls == [] {
      assert calls + [c] == [c] && [c][1..] == [];
    } else {
      assert (calls + [c])[1..] == calls[1..] + [c];
      SerialSnoc(calls[1..], c, calls[0].end);
    }
  }
}
