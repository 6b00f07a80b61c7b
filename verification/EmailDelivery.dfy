/** email-service: the consumer of the e-mail queue, one message at a time. */
module EmailDelivery {
  import opened Common
  import opened Redis

  const IDEMPOTENCY_TTL := 86400

  /** A queued message; `id` tells apart messages with equal contents. */
  datatype Message = Message(id: nat, requestId: string, retryCount: nat)

  /** Where a handler that gets past the idempotency check ends. */
  datatype End =
    | DiesBefore             // the process dies before the send
    | RenderFails            // template not fetched or not rendered
    | DiesAfter              // the process dies after the send, before the settlement
    | SendFails
    | SendWorks

  /** One delivery: the faults of the two Redis commands of the check, and the end.  A failing SET may
      have been carried out. */
  datatype Handling = Handling(existsFails: bool, setFails: bool, setDone: bool, end: End) {
    predicate Marks() { !setFails || setDone }
  }

  /** `sends`, `faults` and `expiries` are of the request under observation. */
  datatype State = State(
    now: nat, marks: map<string, Entry<()>>, ready: set<Message>, settled: set<Message>,
    deliveries: map<nat, nat>, sends: nat, faults: nat, expiries: nat)

  const START := State(0, map[], {}, {}, map[], 0, 0, 0)

  predicate Marked(s: State, r: string) {
    Lookup(s.marks, r, s.now).Some?
  }

  function One(b: bool): nat { if b then 1 else 0 }

  /** `checkAndMarkProcessed`: a failing EXISTS counts as absent, a failing SET is ignored. */
  function Check(s: State, r: string, h: Handling): (State, bool) {
    if !h.existsFails && Marked(s, r) then (s, true)
    else (if h.Marks() then s.(marks := s.marks[r := For((), IDEMPOTENCY_TTL, s.now)]) else s, false)
  }

  predicate Sends(e: End) {
    e.DiesAfter? || e.SendFails? || e.SendWorks?
  }

  /** The message stays in the queue: the process died, or it is requeued after a failure. */
  predicate Returns(m: Message, e: End) {
    e.DiesBefore? || e.DiesAfter? || ((e.RenderFails? || e.SendFails?) && m.retryCount < 3)
  }

  function Deliveries(s: State, id: nat): nat {
    if id in s.deliveries then s.deliveries[id] else 0
  }

  /** `handleEmailMessage` for a delivered message. */
  function Handle(k: string, s: State, m: Message, h: Handling): State {
    var (t, duplicate) := Check(s, m.requestId, h);
    var faults := One(m.requestId == k && h.existsFails) + One(m.requestId == k && h.setFails && !duplicate);
    var counted := t.(deliveries := s.deliveries[m.id := Deliveries(s, m.id) + 1], faults := s.faults + faults);
    if duplicate || !Returns(m, h.end) then
      counted.(ready := s.ready - {m}, settled := s.settled + {m},
               sends := s.sends + One(m.requestId == k && !duplicate && Sends(h.end)))
    else counted.(sends := s.sends + One(m.requestId == k && Sends(h.end)))
  }

  /** The handler object: its Redis marks, the queue it consumes, and what it has sent. */
  class EmailProcessor {
    var now: nat
    var marks: map<string, Entry<()>>
    var ready: set<Message>
    var settled: set<Message>
    var sent: seq<Message>

    constructor ()
      ensures marks == map[] && ready == {} && settled == {} && sent == []
    {
      now, marks, ready, settled, sent := 0, map[], {}, {}, [];
    }

    method CheckAndMarkProcessed(requestId: string, h: Handling) returns (processed: bool)
      modifies this`marks
      ensures processed <==> !h.existsFails && Lookup(old(marks), requestId, now).Some?
      ensures marks == if processed || !h.Marks() then old(marks) else old(marks)[requestId := For((), IDEMPOTENCY_TTL, now)]
    {
      if !h.existsFails && Lookup(marks, requestId, now).Some? {
        return true;
      }
      if h.Marks() {
        marks := marks[requestId := For((), 86400, now)];
      }
      return false;
    }

    /** One delivery of a message from the queue, up to its settlement or the end of the process. */
    method HandleEmailMessage(ghost k: string, ghost s: State, m: Message, h: Handling)
      requires m in ready && s.now == now && s.marks == marks && s.ready == ready && s.settled == settled
      modifies this
      ensures var t := Handle(k, s, m, h);
              && now == t.now && marks == t.marks && ready == t.ready && settled == t.settled
              && |sent| - |old(sent)| <= 1 && old(sent) <= sent
              && (m.requestId == k ==> |sent| - |old(sent)| == t.sends - s.sends)
    {
      hide Lookup, Deliveries, For;
      var alreadyProcessed := CheckAndMarkProcessed(m.requestId, h);
      if alreadyProcessed {
        ready, settled := ready - {m}, settled + {m};
        return;
      }
      var failed;
      match h.end {
        case DiesBefore => return;
        case RenderFails => failed := true;
        case DiesAfter =>
          sent := sent + [m];
          return;
        case SendFails =>
          sent := sent + [m];
          failed := true;
        case SendWorks =>
          sent := sent + [m];
          failed := false;
      }
      if failed && m.retryCount < 3 {
        // nack with requeue: the message goes back as it is
      } else {
        ready, settled := ready - {m}, settled + {m};
      }
    }
  }

  // ---------- runs ----------

  datatype Event = Publish(msg: Message) | Deliver(msg: Message, handling: Handling) | Tick(ms: nat)

  /** Everything published so far. */
  function Ids(s: State): set<nat> {
    set m | m in s.ready + s.settled :: m.id
  }

  function Next(k: string, s: State, e: Event): State {
    match e
    case Publish(m) => if m.id in Ids(s) then s else s.(ready := s.ready + {m})
    case Deliver(m, h) => if m in s.ready then Handle(k, s, m, h) else s
    case Tick(ms) =>
      s.(now := s.now + ms,
         expiries := s.expiries + One(Lookup(s.marks, k, s.now).Some? && Lookup(s.marks, k, s.now + ms).None?))
  }

  function Run(k: string, s: State, events: seq<Event>): State
    decreases |events|
  {
    if events == [] then s else Run(k, Next(k, s, events[0]), events[1..])
  }

  predicate WithinBudget(s: State, k: string) {
    s.sends + One(!Marked(s, k)) <= 1 + s.faults + s.expiries
  }

  lemma BudgetStep(k: string, s: State, e: Event)
    requires WithinBudget(s, k)
    ensures WithinBudget(Next(k, s, e), k)
  {
  }

  lemma {:induction false} BudgetRun(k: string, s: State, events: seq<Event>)
    requires WithinBudget(s, k)
    ensures WithinBudget(Run(k, s, events), k)
    decreases |events|
  {
    if events == [] {
    } else {
      BudgetStep(k, s, events[0]);
      hide Next, WithinBudget;
      BudgetRun(k, Next(k, s, events[0]), events[1..]);
    }
  }

  /** In every run, crashes and redeliveries included, a request is sent at most once more than the
      faults of its idempotency check and the expiries of its mark. */
  lemma SendBudget(k: string, events: seq<Event>)
    ensures var s := Run(k, START, events); s.sends <= 1 + s.faults + s.expiries
  {
    BudgetRun(k, START, events);
  }

  // ---------- runs without faults, expiries and crashes ----------

  predicate Reliable(h: Handling) {
    !h.existsFails && !h.setFails && (h.end.RenderFails? || h.end.SendFails? || h.end.SendWorks?)
  }

  predicate Calm(s: State, e: Event) {
    match e
    case Publish(_) => true
    case Deliver(_, h) => Reliable(h)
    case Tick(ms) => forall r | r in s.marks && Live(s.marks[r], s.now) :: Live(s.marks[r], s.now + ms)
  }

  predicate CalmRun(k: string, s: State, events: seq<Event>)
    decreases |events|
  {
    events == [] || (Calm(s, events[0]) && CalmRun(k, Next(k, s, events[0]), events[1..]))
  }

  /** A queued message has been delivered at most once, and then its request is marked. */
  predicate Settling(s: State) {
    && (forall m, n | m in s.ready && n in s.ready + s.settled :: m.id == n.id ==> m == n)
    && s.ready !! s.settled
    && s.deliveries.Keys <= Ids(s)
    && (forall m | m in s.ready :: Deliveries(s, m.id) == 0 || (Deliveries(s, m.id) == 1 && Marked(s, m.requestId)))
    && (forall m | m in s.settled :: 1 <= Deliveries(s, m.id) <= 2)
  }

  lemma MarksLast(k: string, s: State, e: Event, r: string)
    requires Calm(s, e) && Marked(s, r)
    ensures Marked(Next(k, s, e), r)
  {
  }

  lemma PublishSettles(k: string, s: State, m: Message)
    requires Settling(s)
    ensures Settling(Next(k, s, Publish(m)))
  {
    var t := Next(k, s, Publish(m));
    if m.id !in Ids(s) {
      assert forall n | n in s.ready :: Marked(t, n.requestId) == Marked(s, n.requestId);
      hide Marked;
      forall n | n in s.ready + s.settled ensures n != m && n.id != m.id && n.id in Ids(t) {
        assert n.id in Ids(s);
      }
      assert m.id !in s.deliveries;
      assert Ids(t) >= Ids(s);
    }
  }

  /** A reliable delivery marks its request and settles the message, unless it was unmarked. */
  lemma HandleShape(k: string, s: State, m: Message, h: Handling)
    requires m in s.ready && Reliable(h)
    ensures var t := Handle(k, s, m, h);
            && t.deliveries == s.deliveries[m.id := Deliveries(s, m.id) + 1] && Marked(t, m.requestId)
            && ((t.ready == s.ready && t.settled == s.settled && !Marked(s, m.requestId))
                || (t.ready == s.ready - {m} && t.settled == s.settled + {m}))
  {
  }

  lemma DeliverSettles(k: string, s: State, m: Message, h: Handling)
    requires Settling(s) && Reliable(h)
    ensures Settling(Next(k, s, Deliver(m, h)))
  {
    var t := Next(k, s, Deliver(m, h));
    forall n | n in s.ready && Marked(s, n.requestId)
      ensures Marked(t, n.requestId)
    {
      MarksLast(k, s, Deliver(m, h), n.requestId);
    }
    if m in s.ready {
      HandleShape(k, s, m, h);
      hide Handle, Marked;
      assert t.ready + t.settled == s.ready + s.settled;
      assert m.id in Ids(s);
    }
  }

  lemma TickSettles(k: string, s: State, ms: nat)
    requires Settling(s) && Calm(s, Tick(ms))
    ensures Settling(Next(k, s, Tick(ms)))
  {
    forall m | m in s.ready && Marked(s, m.requestId)
      ensures Marked(Next(k, s, Tick(ms)), m.requestId)
    {
      MarksLast(k, s, Tick(ms), m.requestId);
    }
  }

  lemma {:induction false} SettlingRun(k: string, s: State, events: seq<Event>)
    requires Settling(s) && CalmRun(k, s, events)
    ensures Settling(Run(k, s, events))
    decreases |events|
  {
    if events == [] {
    } else {
      match events[0] {
        case Publish(m) => PublishSettles(k, s, m);
        case Deliver(m, h) => DeliverSettles(k, s, m, h);
        case Tick(ms) => TickSettles(k, s, ms);
      }
      hide Next, Settling, Calm;
      SettlingRun(k, Next(k, s, events[0]), events[1..]);
    }
  }

  /** Without faults, expiries and crashes every message is delivered at most twice, and one
      delivered twice is settled: the requeue loop ends although `retryCount` never changes. */
  lemma DeliveredAtMostTwice(k: string, events: seq<Event>, m: Message)
    requires CalmRun(k, START, events) && m in Run(k, START, events).ready + Run(k, START, events).settled
    ensures var s := Run(k, START, events);
            Deliveries(s, m.id) <= 2 && (Deliveries(s, m.id) == 2 ==> m in s.settled && m !in s.ready)
  {
    SettlingRun(k, START, events);
  }

  /** Once a request is marked nothing more is sent for it while marks last. */
  lemma {:induction false} MarkedIsQuiet(k: string, s: State, events: seq<Event>)
    requires Marked(s, k) && CalmRun(k, s, events)
    ensures Run(k, s, events).sends == s.sends && Marked(Run(k, s, events), k)
    decreases |events|
  {
    if events == [] {
    } else {
      MarksLast(k, s, events[0], k);
      MarkedIsQuiet(k, Next(k, s, events[0]), events[1..]);
    }
  }

  lemma {:induction false} CalmBudget(k: string, s: State, events: seq<Event>)
    requires CalmRun(k, s, events) && s.sends + One(!Marked(s, k)) <= 1
    ensures Run(k, s, events).sends <= 1
    decreases |events|
  {
    if events == [] {
    } else {
      if Marked(s, k) { MarksLast(k, s, events[0], k); }
      CalmBudget(k, Next(k, s, events[0]), events[1..]);
    }
  }

  /** In those runs `sendEmail` is called at most once for a request. */
  lemma SentAtMostOnce(k: string, events: seq<Event>)
    requires CalmRun(k, START, events)
    ensures Run(k, START, events).sends <= 1
  {
    CalmBudget(k, START, events);
  }

  /** A message whose send or rendering fails before its third retry goes back to the queue, but
      no redelivery of it is ever sent: each one is settled as a duplicate. */
  lemma FailedIsNeverRetried(s: State, m: Message, h: Handling, events: seq<Event>, again: Handling)
    requires m in s.ready && m.retryCount < 3 && !Marked(s, m.requestId)
    requires Reliable(h) && !h.end.SendWorks?
    requires CalmRun(m.requestId, Handle(m.requestId, s, m, h), events) && Reliable(again)
    ensures m in Handle(m.requestId, s, m, h).ready
    ensures var t := Run(m.requestId, Handle(m.requestId, s, m, h), events);
            && t.sends == Handle(m.requestId, s, m, h).sends
            && (m in t.ready ==> var u := Next(m.requestId, t, Deliver(m, again));
                                 m in u.settled && m !in u.ready && u.sends == t.sends)
  {
    var k := m.requestId;
    var first := Handle(k, s, m, h);
    MarkedIsQuiet(k, first, events);
  }

  /** What becomes of a delivered message: it stays queued exactly when its check let it through and the
      process died or, before the third retry, rendering or sending failed; otherwise it is settled.  Its
      own delivery is counted and other messages are left alone. */
  lemma SettledExactly(k: string, s: State, m: Message, h: Handling)
    requires m in s.ready
    ensures var t := Next(k, s, Deliver(m, h));
            var through := h.existsFails || !Marked(s, m.requestId);
            && (m in t.ready <==>
                  through && match h.end
                             case DiesBefore => true
                             case DiesAfter => true
                             case RenderFails => m.retryCount < 3
                             case SendFails => m.retryCount < 3
                             case SendWorks => false)
            && (m in t.settled <==> m !in t.ready || m in s.settled)
            && t.ready - {m} == s.ready - {m} && t.settled - {m} == s.settled - {m}
            && (m.requestId == k ==>
                  (t.sends == s.sends + 1 <==> through && (h.end.SendWorks? || h.end.SendFails? || h.end.DiesAfter?)))
  {
  }

  // ---------- when a redelivery is sent ----------

  /** In any state at all, a redelivery that gets as far as the send is sent exactly when its check does
      not see the mark. */
  lemma RedeliveryIsSentExactly(s: State, m: Message, again: Handling)
    requires m in s.ready && Sends(again.end)
    ensures Next(m.requestId, s, Deliver(m, again)).sends == s.sends + 1 <==> again.existsFails || !Marked(s, m.requestId)
    ensures Next(m.requestId, s, Deliver(m, again)).sends == s.sends <==> !again.existsFails && Marked(s, m.requestId)
  {
  }

  lemma MarkGoesByExpiry(k: string, s: State, e: Event)
    requires Marked(s, k)
    ensures Next(k, s, e).expiries == s.expiries + One(!Marked(Next(k, s, e), k))
  {
  }

  lemma ExpiriesGrow(k: string, s: State, e: Event)
    ensures s.expiries <= Next(k, s, e).expiries
  {
  }

  lemma {:induction false} LostMarkExpired(k: string, s: State, events: seq<Event>)
    requires Marked(s, k) && !Marked(Run(k, s, events), k)
    ensures Run(k, s, events).expiries > s.expiries
    decreases |events|
  {
    if events == [] {
    } else {
      var next := Next(k, s, events[0]);
      MarkGoesByExpiry(k, s, events[0]);
      if Marked(next, k) {
        LostMarkExpired(k, next, events[1..]);
      } else {
        ExpiriesOnlyGrow(k, next, events[1..]);
      }
    }
  }

  lemma {:induction false} ExpiriesOnlyGrow(k: string, s: State, events: seq<Event>)
    ensures s.expiries <= Run(k, s, events).expiries
    decreases |events|
  {
    if events == [] {
    } else {
      ExpiriesGrow(k, s, events[0]);
      hide Next;
      ExpiriesOnlyGrow(k, Next(k, s, events[0]), events[1..]);
    }
  }

  /** After a failed handling, through every run with any faults, crashes and duplicates: a redelivery of
      the message is sent only if the mark was never written, expired in between, or is not read. */
  lemma RetriedOnlyAfterALoss(s: State, m: Message, h: Handling, events: seq<Event>, again: Handling)
    requires m in s.ready && !Marked(s, m.requestId) && Sends(again.end)
    requires m in Run(m.requestId, Handle(m.requestId, s, m, h), events).ready
    ensures var first := Handle(m.requestId, s, m, h);
            var t := Run(m.requestId, first, events);
            Next(m.requestId, t, Deliver(m, again)).sends > t.sends ==>
              !h.Marks() || t.expiries > first.expiries || again.existsFails
  {
    var first := Handle(m.requestId, s, m, h);
    var t := Run(m.requestId, first, events);
    RedeliveryIsSentExactly(t, m, again);
    if h.Marks() && !Marked(t, m.requestId) {
      assert Marked(first, m.requestId);
      LostMarkExpired(m.requestId, first, events);
    }
  }

  /** No other delivery of the request. */
  predicate Undisturbed(k: string, events: seq<Event>) {
    forall i | 0 <= i < |events| && events[i].Deliver? :: events[i].msg.requestId != k
  }

  /** What a run leaves of the entry of a request that it does not deliver. */
  lemma {:induction false} UndisturbedMark(k: string, s: State, events: seq<Event>)
    requires Undisturbed(k, events)
    ensures var t := Run(k, s, events);
            && (k in t.marks <==> k in s.marks) && (k in s.marks ==> t.marks[k] == s.marks[k])
            && s.now <= t.now
    decreases |events|
  {
    if events == [] {
    } else {
      UndisturbedMark(k, Next(k, s, events[0]), events[1..]);
    }
  }

  /** Exactly, when nothing else of the request is delivered in between: the redelivery is sent if and only
      if the mark was not written, a day has passed, or its read fails. */
  lemma RetriedExactly(s: State, m: Message, h: Handling, events: seq<Event>, again: Handling)
    requires m in s.ready && !Marked(s, m.requestId) && Sends(again.end) && Undisturbed(m.requestId, events)
    requires m in Run(m.requestId, Handle(m.requestId, s, m, h), events).ready
    ensures var t := Run(m.requestId, Handle(m.requestId, s, m, h), events);
            Next(m.requestId, t, Deliver(m, again)).sends == t.sends + 1 <==>
              !h.Marks() || t.now >= s.now + 86_400_000 || again.existsFails
  {
    var k := m.requestId;
    var first := Handle(k, s, m, h);
    UndisturbedMark(k, first, events);
    RedeliveryIsSentExactly(Run(k, first, events), m, again);
    hide Run, Next;
  }
}
