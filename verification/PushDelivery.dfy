/** One push-service process as a machine: deliveries from the queue, the two client
    locks, the idempotency keys in Redis, faults, crashes and the passing of time.
    An event that is not possible in a state leaves it as it is, so every sequence
    of events is a run. */
module PushDelivery {
  import opened Common
  import opened Redis

  type Tag = nat

  /** A queued notification; `parses` is whether its payload is an envelope. */
  datatype Message = Message(id: nat, key: string, parses: bool)

  /** Where the handler of a delivery stands. */
  datatype Phase =
    | Connecting            // opening its Redis connection
    | WaitTemplate          // waiting for the template client lock
    | WaitFcm               // holding it, waiting for the FCM client lock
    | Parsing | Checking | Marking | Preparing | Sending | Recording | MarkingSent | MarkingFailed
    | Unwinding             // rendering panicked: the task is about to die
    | Settling(fate: Fate)  // about to ack or reject
    | Abandoned             // neither acked nor rejected: the broker still counts it as unacked

  datatype Fate = Acked | Dropped | Requeued

  datatype Task = Task(msg: Message, phase: Phase)

  datatype Sys = Sys(
    now: nat,
    idem: map<string, Entry<string>>,
    published: multiset<Message>, ready: multiset<Message>,
    inflight: map<Tag, Task>, nextTag: Tag, fates: map<Tag, Fate>,
    acked: multiset<Message>, dropped: multiset<Message>,
    templateLock: Option<Tag>, fcmLock: Option<Tag>,
    // history of the deliveries
    sentTags: set<Tag>, skippedTags: set<Tag>,
    // tallies for the key under observation
    sends: nat, readFaults: nat, recordFaults: nat, expiries: nat)

  const INIT := Sys(0, map[], multiset{}, multiset{}, map[], 0, map[], multiset{}, multiset{}, None, None,
                    {}, {}, 0, 0, 0, 0)

  datatype Prepared = Proceed | TokenMissing | NotSendable | Panics

  datatype Event =
    | Publish(msg: Message)
    | Deliver(msg: Message)
    | Connect(tag: Tag, ok: bool)
    | LockTemplate(tag: Tag)
    | LockFcm(tag: Tag)
    | Parse(tag: Tag)
    | Check(tag: Tag, ok: bool)
    | MarkProcessing(tag: Tag, ok: bool, applied: bool)
    | Prepare(tag: Tag, outcome: Prepared)
    | Send(tag: Tag, delivered: bool)
    | Record(tag: Tag, ok: bool)
    | RetryMarkSent(tag: Tag, applied: bool)   // a failed attempt that will be repeated
    | MarkSent(tag: Tag, ok: bool, applied: bool)
    | MarkFailed(tag: Tag, ok: bool, applied: bool)
    | Settle(tag: Tag, ok: bool)
    | Tick(ms: nat)
    | Crash

  // ---------- one step ----------

  predicate At(s: Sys, tag: Tag, phase: Phase) {
    tag in s.inflight && s.inflight[tag].phase == phase
  }

  function Goto(s: Sys, tag: Tag, phase: Phase): Sys
    requires tag in s.inflight
  {
    s.(inflight := s.inflight[tag := s.inflight[tag].(phase := phase)])
  }

  /** `set_ex` of an idempotency key.  A failed command may still have been applied;
      Redis refuses an expiry of 0 outright. */
  function Marked(ttl: nat, s: Sys, key: string, status: string, applied: bool): Sys {
    if applied && ttl > 0 then s.(idem := s.idem[key := For(status, ttl, s.now)]) else s
  }

  predicate Settled(status: Option<string>) {
    status == Some("sent") || status == Some("processing")
  }

  /** The messages of the deliveries with a tag below `n`. */
  function MessagesBelow(m: map<Tag, Task>, n: nat): multiset<Message> {
    if n == 0 then multiset{}
    else MessagesBelow(m, n - 1) + if n - 1 in m then multiset{m[n - 1].msg} else multiset{}
  }

  function One(b: bool): nat { if b then 1 else 0 }

  /** The handler is inside `process_message`. */
  predicate Critical(p: Phase) {
    p.Parsing? || p.Checking? || p.Marking? || p.Preparing? || p.Sending? || p.Recording?
    || p.MarkingSent? || p.MarkingFailed?
  }

  /** The steps of `process_message`. */
  predicate Inner(e: Event) {
    e.Parse? || e.Check? || e.MarkProcessing? || e.Prepare? || e.Send? || e.Record?
    || e.RetryMarkSent? || e.MarkSent? || e.MarkFailed?
  }

  /** The phase in which a step is possible. */
  function Source(e: Event): (p: Phase)
    requires Inner(e)
    ensures Critical(p)
  {
    match e
    case Parse(_) => Parsing
    case Check(_, _) => Checking
    case MarkProcessing(_, _, _) => Marking
    case Prepare(_, _) => Preparing
    case Send(_, _) => Sending
    case Record(_, _) => Recording
    case RetryMarkSent(_, _) => MarkingSent
    case MarkSent(_, _, _) => MarkingSent
    case MarkFailed(_, _, _) => MarkingFailed
  }

  /** Where a step takes its handler; `status` is what its key reads. */
  function Target(ttl: nat, m: Message, status: Option<string>, e: Event): (p: Phase)
    requires Inner(e)
    ensures Critical(p) || p == Settling(Acked) || p == Settling(Dropped) || p == Unwinding
  {
    match e
    case Parse(_) => if m.parses then Checking else Settling(Dropped)
    case Check(_, ok) => if ok && Settled(status) then Settling(Acked) else Marking
    case MarkProcessing(_, ok, _) => if ok && ttl > 0 then Preparing else Settling(Dropped)
    case Prepare(_, outcome) =>
      (match outcome
       case Proceed => Sending
       case TokenMissing => Settling(Dropped)
       case NotSendable => MarkingFailed
       case Panics => Unwinding)
    case Send(_, delivered) => if delivered then Recording else MarkingFailed
    case Record(_, ok) => if ok then MarkingSent else MarkingFailed
    case RetryMarkSent(_, _) => MarkingSent
    case MarkSent(_, ok, _) => Settling(if ok && ttl > 0 then Acked else Dropped)
    case MarkFailed(_, _, _) => Settling(Dropped)
  }

  function TargetOf(ttl: nat, s: Sys, e: Event): Phase
    requires Inner(e) && e.tag in s.inflight
  {
    Target(ttl, s.inflight[e.tag].msg, Lookup(s.idem, s.inflight[e.tag].msg.key, s.now), e)
  }

  /** What a step does besides moving its handler on. */
  function SideEffect(k: string, ttl: nat, s: Sys, e: Event, m: Message): Sys
    requires Inner(e)
  {
    match e
    case Check(tag, ok) =>
      if !ok then s.(readFaults := s.readFaults + One(m.key == k))
      else if Settled(Lookup(s.idem, m.key, s.now)) then s.(skippedTags := s.skippedTags + {tag})
      else s
    case MarkProcessing(_, ok, applied) => Marked(ttl, s, m.key, "processing", ok || applied)
    case Send(tag, delivered) =>
      if delivered then s.(sends := s.sends + One(m.key == k), sentTags := s.sentTags + {tag}) else s
    case Record(_, ok) => if ok then s else s.(recordFaults := s.recordFaults + One(m.key == k))
    case RetryMarkSent(_, applied) => Marked(ttl, s, m.key, "sent", applied)
    case MarkSent(_, ok, applied) => Marked(ttl, s, m.key, "sent", ok || applied)
    case MarkFailed(_, ok, applied) => Marked(ttl, s, m.key, "failed", ok || applied)
    case _ => s
  }

  function Moved(k: string, ttl: nat, s: Sys, e: Event): Sys
    requires Inner(e) && At(s, e.tag, Source(e))
  {
    SideEffect(k, ttl, Goto(s, e.tag, TargetOf(ttl, s, e)), e, s.inflight[e.tag].msg)
  }

  function Delivered(s: Sys, m: Message): Sys {
    if m in s.ready then
      s.(ready := s.ready - multiset{m}, inflight := s.inflight[s.nextTag := Task(m, Connecting)],
         nextTag := s.nextTag + 1)
    else s
  }

  /** The events before the locks are held. */
  function Entering(s: Sys, e: Event): Sys
    requires e.Connect? || e.LockTemplate? || e.LockFcm?
  {
    match e
    case Connect(tag, ok) =>
      if At(s, tag, Connecting) then Goto(s, tag, if ok then WaitTemplate else Settling(Requeued)) else s
    case LockTemplate(tag) =>
      if At(s, tag, WaitTemplate) && s.templateLock.None?
      then Goto(s, tag, WaitFcm).(templateLock := Some(tag)) else s
    case LockFcm(tag) =>
      if At(s, tag, WaitFcm) && s.fcmLock.None?
      then Goto(s, tag, Parsing).(fcmLock := Some(tag)) else s
  }

  function Ticked(k: string, s: Sys, ms: nat): Sys {
    s.(now := s.now + ms,
       expiries := s.expiries + One(Lookup(s.idem, k, s.now).Some? && Lookup(s.idem, k, s.now + ms).None?))
  }

  /** The process dies: the broker takes back what it had delivered. */
  function Crashed(s: Sys): Sys {
    s.(ready := s.ready + MessagesBelow(s.inflight, s.nextTag), inflight := map[],
       fates := s.fates + map t | t in s.inflight :: Requeued,
       templateLock := None, fcmLock := None)
  }

  /** `k` is the key under observation, `ttl` the configured idempotency TTL in seconds. */
  function Next(k: string, ttl: nat, s: Sys, e: Event): Sys {
    match e
    case Publish(m) => s.(published := s.published + multiset{m}, ready := s.ready + multiset{m})
    case Deliver(m) => Delivered(s, m)
    case Connect(_, _) => Entering(s, e)
    case LockTemplate(_) => Entering(s, e)
    case LockFcm(_) => Entering(s, e)
    case Settle(tag, ok) =>
      if Ending(s, tag, ok) then Finish(s, tag, ok) else s
    case Tick(ms) => Ticked(k, s, ms)
    case Crash => Crashed(s)
    case _ => if At(s, e.tag, Source(e)) then Moved(k, ttl, s, e) else s
  }

  /** A handler can end so: by the ack or reject that is due, which may fail, or unwinding without one. */
  predicate Ending(s: Sys, tag: Tag, ok: bool) {
    tag in s.inflight && (s.inflight[tag].phase.Settling? || (s.inflight[tag].phase.Unwinding? && !ok))
  }

  /** The end of a handler: it settles its delivery, if it can, and drops its locks. */
  function Finish(s: Sys, tag: Tag, ok: bool): Sys
    requires Ending(s, tag, ok)
  {
    var t := s.(templateLock := Without(s.templateLock, tag), fcmLock := Without(s.fcmLock, tag));
    if !ok then Goto(t, tag, Abandoned)
    else
      var m, fate := s.inflight[tag].msg, s.inflight[tag].phase.fate;
      var u := t.(inflight := t.inflight - {tag}, fates := t.fates[tag := fate]);
      match fate
      case Acked => u.(acked := u.acked + multiset{m})
      case Dropped => u.(dropped := u.dropped + multiset{m})
      case Requeued => u.(ready := u.ready + multiset{m})
  }

  function Without(lock: Option<Tag>, tag: Tag): Option<Tag> {
    if lock == Some(tag) then None else lock
  }

  function Run(k: string, ttl: nat, s: Sys, events: seq<Event>): Sys
    decreases |events|
  {
    if events == [] then s else Run(k, ttl, Next(k, ttl, s, events[0]), events[1..])
  }

  lemma {:induction false} RunConcat(k: string, ttl: nat, s: Sys, a: seq<Event>, b: seq<Event>)
    ensures Run(k, ttl, s, a + b) == Run(k, ttl, Run(k, ttl, s, a), b)
    decreases |a|
  {
    if a == [] {
      assert a + b == b;
    } else {
      assert (a + b)[1..] == a[1..] + b;
      RunConcat(k, ttl, Next(k, ttl, s, a[0]), a[1..], b);
    }
  }

  // ---------- one process_message at a time ----------

  /** Tags are given out once; the lock holders are where the locks were taken. */
  predicate LocksHeld(inflight: map<Tag, Task>, nextTag: Tag, templateLock: Option<Tag>, fcmLock: Option<Tag>) {
    && (forall t | t in inflight :: t < nextTag)
    && (forall t | t in inflight && Critical(inflight[t].phase) :: fcmLock == Some(t))
    && (forall t | t in inflight && inflight[t].phase.WaitFcm? :: templateLock == Some(t))
    && (fcmLock.Some? ==> templateLock == fcmLock && fcmLock.value in inflight
                          && !inflight[fcmLock.value].phase.WaitFcm?)
  }

  predicate Disciplined(s: Sys) {
    LocksHeld(s.inflight, s.nextTag, s.templateLock, s.fcmLock)
  }

  /** A step of `process_message` touches its own delivery only, and no lock. */
  lemma MovedShape(k: string, ttl: nat, s: Sys, e: Event)
    requires Inner(e) && At(s, e.tag, Source(e))
    ensures var t := Moved(k, ttl, s, e);
            && t.inflight == Goto(s, e.tag, TargetOf(ttl, s, e)).inflight
            && t.nextTag == s.nextTag && t.templateLock == s.templateLock && t.fcmLock == s.fcmLock
            && t.now == s.now && t.expiries == s.expiries
            && t.published == s.published && t.ready == s.ready && t.acked == s.acked && t.dropped == s.dropped
            && t.fates == s.fates && s.sentTags <= t.sentTags && s.skippedTags <= t.skippedTags
  {
    hide Target, Lookup;
  }

  lemma MovedKeepsLocks(k: string, ttl: nat, s: Sys, e: Event)
    requires Disciplined(s) && Inner(e) && At(s, e.tag, Source(e))
    ensures Disciplined(Moved(k, ttl, s, e))
  {
    MovedShape(k, ttl, s, e);
    hide Moved;
  }

  lemma FinishShape(s: Sys, tag: Tag, ok: bool)
    requires Ending(s, tag, ok)
    ensures var t := Finish(s, tag, ok);
            var m, phase := s.inflight[tag].msg, s.inflight[tag].phase;
            && t.inflight == (if ok then s.inflight - {tag} else Goto(s, tag, Abandoned).inflight)
            && t.fates == (if ok then s.fates[tag := phase.fate] else s.fates)
            && t.published == s.published && t.nextTag == s.nextTag
            && t.sentTags == s.sentTags && t.skippedTags == s.skippedTags
            && t.ready == s.ready + (if ok && phase == Settling(Requeued) then multiset{m} else multiset{})
            && t.acked == s.acked + (if ok && phase == Settling(Acked) then multiset{m} else multiset{})
            && t.dropped == s.dropped + (if ok && phase == Settling(Dropped) then multiset{m} else multiset{})
  {
    hide MessagesBelow, Without;
    NothingAdded(s.ready);
    NothingAdded(s.acked);
    NothingAdded(s.dropped);
    if ok {
      match s.inflight[tag].phase.fate
      case Acked =>
      case Dropped =>
      case Requeued =>
    } else {
    }
  }

  lemma NothingAdded(a: multiset<Message>)
    ensures a + multiset{} == a
  {
  }

  /** A delivery past `process_message` ends and gives its locks back. */
  lemma LocksGivenBack(inflight: map<Tag, Task>, after: map<Tag, Task>, nextTag: Tag,
                       templateLock: Option<Tag>, fcmLock: Option<Tag>, tag: Tag)
    requires LocksHeld(inflight, nextTag, templateLock, fcmLock)
    requires tag in inflight && (inflight[tag].phase.Settling? || inflight[tag].phase.Unwinding?)
    requires after.Keys == inflight.Keys - {tag} || (after.Keys == inflight.Keys && after[tag].phase.Abandoned?)
    requires forall t | t in after && t != tag :: after[t] == inflight[t]
    ensures LocksHeld(after, nextTag, Without(templateLock, tag), Without(fcmLock, tag))
  {
  }

  lemma FinishKeepsLocks(s: Sys, tag: Tag, ok: bool)
    requires Disciplined(s) && Ending(s, tag, ok)
    ensures Disciplined(Finish(s, tag, ok))
  {
    hide LocksHeld, MessagesBelow;
    var t := Finish(s, tag, ok);
    assert t.inflight.Keys == if ok then s.inflight.Keys - {tag} else s.inflight.Keys;
    LocksGivenBack(s.inflight, t.inflight, s.nextTag, s.templateLock, s.fcmLock, tag);
  }

  lemma EnteringKeepsLocks(s: Sys, e: Event)
    requires Disciplined(s) && (e.Connect? || e.LockTemplate? || e.LockFcm?)
    ensures Disciplined(Entering(s, e))
  {
  }

  lemma DeliveredKeepsLocks(s: Sys, m: Message)
    requires Disciplined(s)
    ensures Disciplined(Delivered(s, m))
  {
  }

  lemma LocksStep(k: string, ttl: nat, s: Sys, e: Event)
    requires Disciplined(s)
    ensures Disciplined(Next(k, ttl, s, e))
  {
    hide Moved, Delivered, Entering, Finish, MessagesBelow;
    match e
    case Publish(_) =>
    case Tick(_) =>
    case Crash =>
    case Deliver(m) => DeliveredKeepsLocks(s, m);
    case Connect(_, _) => EnteringKeepsLocks(s, e);
    case LockTemplate(_) => EnteringKeepsLocks(s, e);
    case LockFcm(_) => EnteringKeepsLocks(s, e);
    case Settle(tag, ok) =>
      if Ending(s, tag, ok) { FinishKeepsLocks(s, tag, ok); }
    case _ =>
      if At(s, e.tag, Source(e)) { MovedKeepsLocks(k, ttl, s, e); }
  }

  // ---------- the send budget ----------

  predicate Exposed(s: Sys, k: string) {
    !Settled(Lookup(s.idem, k, s.now))
  }

  /** Further sends a handler in this phase may still lead to without any new fault. */
  function Due(phase: Phase, exposed: nat): nat {
    match phase
    case Marking => 1
    case MarkingFailed => 1
    case Preparing => 1 + exposed
    case Sending => 1 + exposed
    case _ => exposed
  }

  function Pending(s: Sys, k: string): nat {
    var exposed := One(Exposed(s, k));
    if s.fcmLock.Some? && s.fcmLock.value in s.inflight && s.inflight[s.fcmLock.value].msg.key == k
    then Due(s.inflight[s.fcmLock.value].phase, exposed)
    else exposed
  }

  function Budget(s: Sys): nat {
    1 + s.readFaults + s.recordFaults + s.expiries
  }

  predicate WithinBudget(s: Sys, k: string) {
    s.sends + Pending(s, k) <= Budget(s)
  }

  lemma MovedBudget(k: string, ttl: nat, s: Sys, e: Event)
    requires Disciplined(s) && WithinBudget(s, k) && Inner(e) && At(s, e.tag, Source(e))
    ensures WithinBudget(Moved(k, ttl, s, e), k)
  {
    MovedShape(k, ttl, s, e);
    assert s.fcmLock == Some(e.tag);
    hide LocksHeld;
  }

  lemma EnteringBudget(k: string, s: Sys, e: Event)
    requires Disciplined(s) && WithinBudget(s, k) && (e.Connect? || e.LockTemplate? || e.LockFcm?)
    ensures WithinBudget(Entering(s, e), k)
  {
  }

  lemma DeliveredBudget(k: string, s: Sys, m: Message)
    requires Disciplined(s) && WithinBudget(s, k)
    ensures WithinBudget(Delivered(s, m), k)
  {
  }

  lemma FinishBudget(k: string, s: Sys, tag: Tag, ok: bool)
    requires Disciplined(s) && WithinBudget(s, k) && Ending(s, tag, ok)
    ensures WithinBudget(Finish(s, tag, ok), k)
  {
    hide Lookup;
  }

  lemma TickedBudget(k: string, s: Sys, ms: nat)
    requires WithinBudget(s, k)
    ensures WithinBudget(Ticked(k, s, ms), k)
  {
  }

  lemma BudgetStep(k: string, ttl: nat, s: Sys, e: Event)
    requires Disciplined(s) && WithinBudget(s, k)
    ensures WithinBudget(Next(k, ttl, s, e), k)
  {
    hide Moved, Delivered, Entering, Finish, Ticked, MessagesBelow, LocksHeld, Lookup;
    match e
    case Publish(_) =>
    case Tick(ms) => TickedBudget(k, s, ms);
    case Crash =>
    case Deliver(m) => DeliveredBudget(k, s, m);
    case Connect(_, _) => EnteringBudget(k, s, e);
    case LockTemplate(_) => EnteringBudget(k, s, e);
    case LockFcm(_) => EnteringBudget(k, s, e);
    case Settle(tag, ok) =>
      if Ending(s, tag, ok) { FinishBudget(k, s, tag, ok); }
    case _ =>
      if At(s, e.tag, Source(e)) { MovedBudget(k, ttl, s, e); }
  }

  // ---------- conservation of messages ----------

  lemma {:induction false} BelowAgree(a: map<Tag, Task>, b: map<Tag, Task>, n: nat)
    requires forall t | 0 <= t < n :: (t in a <==> t in b) && (t in a ==> a[t].msg == b[t].msg)
    ensures MessagesBelow(a, n) == MessagesBelow(b, n)
  {
    if n == 0 {
    } else {
      BelowAgree(a, b, n - 1);
    }
  }

  lemma {:induction false} BelowWithout(a: map<Tag, Task>, tag: Tag, n: nat)
    requires tag in a && tag < n
    ensures MessagesBelow(a, n) == MessagesBelow(a - {tag}, n) + multiset{a[tag].msg}
  {
    if tag == n - 1 {
      BelowAgree(a, a - {tag}, n - 1);
    } else {
      BelowWithout(a, tag, n - 1);
    }
  }

  predicate Conserved(s: Sys) {
    s.published == s.ready + MessagesBelow(s.inflight, s.nextTag) + s.acked + s.dropped
  }

  lemma MoveConserves(s: Sys, tag: Tag, phase: Phase)
    requires tag in s.inflight
    ensures MessagesBelow(Goto(s, tag, phase).inflight, s.nextTag) == MessagesBelow(s.inflight, s.nextTag)
  {
    BelowAgree(Goto(s, tag, phase).inflight, s.inflight, s.nextTag);
  }

  lemma Regroup(r: multiset<Message>, b: multiset<Message>, x: multiset<Message>, a: multiset<Message>, d: multiset<Message>)
    ensures r + (b + x) + a + d == (r + x) + b + a + d
    ensures r + (b + x) + a + d == r + b + (a + x) + d
    ensures r + (b + x) + a + d == r + b + a + (d + x)
  {
  }

  lemma FinishConserves(s: Sys, tag: Tag, ok: bool)
    requires Conserved(s) && Disciplined(s) && Ending(s, tag, ok)
    ensures Conserved(Finish(s, tag, ok))
  {
    assert tag < s.nextTag;
    FinishShape(s, tag, ok);
    hide MessagesBelow, LocksHeld, Finish;
    if ok {
      BelowWithout(s.inflight, tag, s.nextTag);
      Regroup(s.ready, MessagesBelow(s.inflight - {tag}, s.nextTag), multiset{s.inflight[tag].msg}, s.acked, s.dropped);
    } else {
      MoveConserves(s, tag, Abandoned);
    }
  }

  lemma {:induction false} NothingBelow(n: nat)
    ensures MessagesBelow(map[], n) == multiset{}
  {
    if n == 0 {
    } else {
      NothingBelow(n - 1);
    }
  }

  lemma EnteringConserves(s: Sys, e: Event)
    requires Conserved(s) && (e.Connect? || e.LockTemplate? || e.LockFcm?)
    ensures Conserved(Entering(s, e))
  {
    hide MessagesBelow;
    if Entering(s, e) != s {
      var phase := if e.Connect? then (if e.ok then WaitTemplate else Settling(Requeued))
                   else if e.LockTemplate? then WaitFcm else Parsing;
      MoveConserves(s, e.tag, phase);
    }
  }

  lemma MovedConserves(k: string, ttl: nat, s: Sys, e: Event)
    requires Conserved(s) && Inner(e) && At(s, e.tag, Source(e))
    ensures Conserved(Moved(k, ttl, s, e))
  {
    MovedShape(k, ttl, s, e);
    hide Moved, MessagesBelow;
    MoveConserves(s, e.tag, TargetOf(ttl, s, e));
  }

  lemma DeliveredConserves(s: Sys, m: Message)
    requires Conserved(s) && Disciplined(s)
    ensures Conserved(Delivered(s, m))
  {
    if m in s.ready {
      var t := Delivered(s, m);
      DeliveredBelow(s, m);
      hide MessagesBelow, LocksHeld;
      Regroup(s.ready - multiset{m}, MessagesBelow(s.inflight, s.nextTag), multiset{m}, s.acked, s.dropped);
      assert s.ready - multiset{m} + multiset{m} == s.ready;
    }
  }

  lemma DeliveredBelow(s: Sys, m: Message)
    requires Disciplined(s) && m in s.ready
    ensures var t := Delivered(s, m);
            MessagesBelow(t.inflight, t.nextTag) == MessagesBelow(s.inflight, s.nextTag) + multiset{m}
  {
    var t := Delivered(s, m);
    BelowAgree(s.inflight, t.inflight, s.nextTag);
    assert MessagesBelow(t.inflight, s.nextTag + 1) == MessagesBelow(t.inflight, s.nextTag) + multiset{m};
  }

  lemma ConservedStep(k: string, ttl: nat, s: Sys, e: Event)
    requires Conserved(s) && Disciplined(s)
    ensures Conserved(Next(k, ttl, s, e))
  {
    hide Moved, Delivered, Entering, Finish, LocksHeld, MessagesBelow;
    match e
    case Publish(_) =>
    case Tick(_) =>
    case Crash => NothingBelow(s.nextTag);
    case Deliver(m) => DeliveredConserves(s, m);
    case Connect(_, _) => EnteringConserves(s, e);
    case LockTemplate(_) => EnteringConserves(s, e);
    case LockFcm(_) => EnteringConserves(s, e);
    case Settle(tag, ok) =>
      if Ending(s, tag, ok) { FinishConserves(s, tag, ok); }
    case _ =>
      if At(s, e.tag, Source(e)) { MovedConserves(k, ttl, s, e); }
  }

  // ---------- settlement ----------

  /** Every delivery is in flight or has one fate; acknowledged means sent or skipped. */
  ghost predicate Accounted(s: Sys) {
    && (forall t: Tag :: t < s.nextTag <==> t in s.inflight || t in s.fates)
    && (forall t | t in s.inflight :: t !in s.fates)
    && (forall t | t in s.inflight && s.inflight[t].phase == Settling(Acked) :: t in s.sentTags + s.skippedTags)
    && (forall t | t in s.inflight && s.inflight[t].phase.MarkingSent? :: t in s.sentTags)
    && (forall t | t in s.inflight && s.inflight[t].phase.Recording? :: t in s.sentTags)
    && (forall t | t in s.fates && s.fates[t] == Acked :: t in s.sentTags + s.skippedTags)
  }

  /** A fate once decided stays. */
  predicate FatesKept(s: Sys, t: Sys) {
    forall tag | tag in s.fates :: tag in t.fates && t.fates[tag] == s.fates[tag]
  }

  lemma EnteringAccounted(s: Sys, e: Event)
    requires Accounted(s) && (e.Connect? || e.LockTemplate? || e.LockFcm?)
    ensures Accounted(Entering(s, e)) && FatesKept(s, Entering(s, e))
  {
  }

  lemma DeliveredAccounted(s: Sys, m: Message)
    requires Accounted(s)
    ensures Accounted(Delivered(s, m)) && FatesKept(s, Delivered(s, m))
  {
  }

  lemma CrashedAccounted(s: Sys)
    requires Accounted(s)
    ensures Accounted(Crashed(s)) && FatesKept(s, Crashed(s))
  {
  }

  lemma FinishAccounted(s: Sys, tag: Tag, ok: bool)
    requires Accounted(s) && Ending(s, tag, ok)
    ensures Accounted(Finish(s, tag, ok)) && FatesKept(s, Finish(s, tag, ok))
  {
    FinishShape(s, tag, ok);
    hide Finish;
  }

  lemma MovedAccounted(k: string, ttl: nat, s: Sys, e: Event)
    requires Accounted(s) && Inner(e) && At(s, e.tag, Source(e))
    ensures Accounted(Moved(k, ttl, s, e)) && FatesKept(s, Moved(k, ttl, s, e))
  {
    MovedShape(k, ttl, s, e);
    var t := Moved(k, ttl, s, e);
    assert t.inflight[e.tag].phase == Settling(Acked) ==> e.tag in t.sentTags + t.skippedTags;
    assert t.inflight[e.tag].phase.MarkingSent? || t.inflight[e.tag].phase.Recording? ==> e.tag in t.sentTags;
    hide Moved, TargetOf;
  }

  lemma AccountedStep(k: string, ttl: nat, s: Sys, e: Event)
    requires Accounted(s)
    ensures Accounted(Next(k, ttl, s, e)) && FatesKept(s, Next(k, ttl, s, e))
  {
    hide Moved, Delivered, Entering, Finish, Crashed;
    match e
    case Publish(_) =>
    case Tick(_) =>
    case Crash => CrashedAccounted(s);
    case Deliver(m) => DeliveredAccounted(s, m);
    case Connect(_, _) => EnteringAccounted(s, e);
    case LockTemplate(_) => EnteringAccounted(s, e);
    case LockFcm(_) => EnteringAccounted(s, e);
    case Settle(tag, ok) =>
      if Ending(s, tag, ok) { FinishAccounted(s, tag, ok); }
    case _ =>
      if At(s, e.tag, Source(e)) { MovedAccounted(k, ttl, s, e); }
  }

  // ---------- whole runs ----------

  ghost predicate Invariant(s: Sys, k: string) {
    Disciplined(s) && WithinBudget(s, k) && Conserved(s) && Accounted(s)
  }

  lemma InvariantStep(k: string, ttl: nat, s: Sys, e: Event)
    requires Invariant(s, k)
    ensures Invariant(Next(k, ttl, s, e), k) && FatesKept(s, Next(k, ttl, s, e))
  {
    hide Next, Disciplined, WithinBudget, Conserved, Accounted, FatesKept;
    LocksStep(k, ttl, s, e);
    BudgetStep(k, ttl, s, e);
    ConservedStep(k, ttl, s, e);
    AccountedStep(k, ttl, s, e);
  }

  lemma {:induction false} InvariantRun(k: string, ttl: nat, s: Sys, events: seq<Event>)
    requires Invariant(s, k)
    ensures Invariant(Run(k, ttl, s, events), k) && FatesKept(s, Run(k, ttl, s, events))
    decreases |events|
  {
    if events == [] {
    } else {
      InvariantStep(k, ttl, s, events[0]);
      InvariantRun(k, ttl, Next(k, ttl, s, events[0]), events[1..]);
    }
  }

  /** In every run, with duplicates, redeliveries, Redis faults and crashes: the sends for
      one key are at most one more than the failed reads of the key, the failed recordings of
      a success in the breaker, and the expiries of the key. */
  lemma SendBudget(k: string, ttl: nat, events: seq<Event>)
    ensures var s := Run(k, ttl, INIT, events);
            s.sends <= 1 + s.readFaults + s.recordFaults + s.expiries
  {
    InvariantRun(k, ttl, INIT, events);
  }

  /** The lock discipline makes `process_message` serial, in every run. */
  lemma OneAtATime(k: string, ttl: nat, events: seq<Event>, t1: Tag, t2: Tag)
    requires var s := Run(k, ttl, INIT, events);
             && t1 in s.inflight && Critical(s.inflight[t1].phase)
             && t2 in s.inflight && Critical(s.inflight[t2].phase)
    ensures t1 == t2
  {
    InvariantRun(k, ttl, INIT, events);
  }

  /** No message is lost or duplicated by the queue, in every run. */
  lemma QueueConservation(k: string, ttl: nat, events: seq<Event>)
    ensures var s := Run(k, ttl, INIT, events);
            s.published == s.ready + MessagesBelow(s.inflight, s.nextTag) + s.acked + s.dropped
  {
    InvariantRun(k, ttl, INIT, events);
  }

  /** Every delivery is in flight or settled, never both, and what settled it is final;
      it was acknowledged only if it was sent in this delivery or its key read sent or processing. */
  lemma Settlement(k: string, ttl: nat, events: seq<Event>, more: seq<Event>)
    ensures var s := Run(k, ttl, INIT, events);
            && (forall t: Tag | t < s.nextTag :: t in s.inflight <==> t !in s.fates)
            && (forall t | t in s.fates && s.fates[t] == Acked :: t in s.sentTags + s.skippedTags)
            && FatesKept(s, Run(k, ttl, INIT, events + more))
  {
    InvariantRun(k, ttl, INIT, events);
    RunConcat(k, ttl, INIT, events, more);
    InvariantRun(k, ttl, Run(k, ttl, INIT, events), more);
  }

  // ---------- the bound is reached, and one send within the TTL ----------

  predicate Quiet(s: Sys) {
    s.inflight == map[] && s.templateLock.None? && s.fcmLock.None?
  }

  /** The key was set to this just now. */
  predicate JustSet(s: Sys, k: string, status: string, ttl: nat) {
    k in s.idem && s.idem[k] == For(status, ttl, s.now)
  }

  /** The only delivery in flight, its handler inside `process_message`. */
  predicate Alone(s: Sys, tag: Tag, m: Message, phase: Phase) {
    s.inflight == map[tag := Task(m, phase)] && s.templateLock == s.fcmLock == Some(tag)
  }

  predicate SameTallies(s: Sys, t: Sys) {
    && t.idem == s.idem && t.now == s.now && t.sends == s.sends && t.readFaults == s.readFaults
    && t.recordFaults == s.recordFaults && t.expiries == s.expiries
  }

  /** The handler of a new message gets to the point of reading the key. */
  lemma Arrive(k: string, ttl: nat, s: Sys, m: Message) returns (events: seq<Event>)
    requires Quiet(s) && m.parses
    ensures Alone(Run(k, ttl, s, events), s.nextTag, m, Checking) && SameTallies(s, Run(k, ttl, s, events))
  {
    var tag := s.nextTag;
    var s2 := Queued(k, ttl, s, m);
    var s5 := Locked(k, ttl, s2, tag, m);
    events := [Publish(m), Deliver(m)] + [Connect(tag, true), LockTemplate(tag), LockFcm(tag)] + [Parse(tag)];
    RunConcat(k, ttl, s, [Publish(m), Deliver(m)] + [Connect(tag, true), LockTemplate(tag), LockFcm(tag)], [Parse(tag)]);
    RunConcat(k, ttl, s, [Publish(m), Deliver(m)], [Connect(tag, true), LockTemplate(tag), LockFcm(tag)]);
    OneEvent(k, ttl, s5, Parse(tag));
    AloneMove(k, ttl, s5, m, Parse(tag));
  }

  lemma OneEvent(k: string, ttl: nat, s: Sys, e: Event)
    ensures Run(k, ttl, s, [e]) == Next(k, ttl, s, e)
  {
    assert [e][1..] == [];
  }

  lemma TwoEvents(k: string, ttl: nat, s: Sys, e: Event, f: Event)
    ensures Run(k, ttl, s, [e, f]) == Next(k, ttl, Next(k, ttl, s, e), f)
  {
    hide Next;
    assert [e, f] == [e] + [f];
    RunConcat(k, ttl, s, [e], [f]);
    OneEvent(k, ttl, s, e);
    OneEvent(k, ttl, Next(k, ttl, s, e), f);
  }

  lemma Queued(k: string, ttl: nat, s: Sys, m: Message) returns (t: Sys)
    requires Quiet(s)
    ensures t == Run(k, ttl, s, [Publish(m), Deliver(m)])
    ensures t.inflight == map[s.nextTag := Task(m, Connecting)] && t.templateLock.None? && t.fcmLock.None?
    ensures SameTallies(s, t)
  {
    TwoEvents(k, ttl, s, Publish(m), Deliver(m));
    hide Run, Moved, Entering;
    var s1 := Next(k, ttl, s, Publish(m));
    assert m in s1.ready;
    t := Delivered(s1, m);
  }

  lemma Locked(k: string, ttl: nat, s: Sys, tag: Tag, m: Message) returns (t: Sys)
    requires s.inflight == map[tag := Task(m, Connecting)] && s.templateLock.None? && s.fcmLock.None?
    ensures t == Run(k, ttl, s, [Connect(tag, true), LockTemplate(tag), LockFcm(tag)])
    ensures Alone(t, tag, m, Parsing) && SameTallies(s, t)
  {
    hide Run;
    var s1 := EntryStep(s, tag, m, Connect(tag, true), Connecting, WaitTemplate);
    var s2 := EntryStep(s1, tag, m, LockTemplate(tag), WaitTemplate, WaitFcm);
    t := EntryStep(s2, tag, m, LockFcm(tag), WaitFcm, Parsing);
    ThreeEntries(k, ttl, s, Connect(tag, true), LockTemplate(tag), LockFcm(tag));
  }

  /** One step on the way in, for the only delivery in flight. */
  lemma EntryStep(s: Sys, tag: Tag, m: Message, e: Event, from: Phase, to: Phase) returns (t: Sys)
    requires s.inflight == map[tag := Task(m, from)] && s.fcmLock.None?
    requires s.templateLock == if from.WaitFcm? then Some(tag) else None
    requires || (e == Connect(tag, true) && from == Connecting && to == WaitTemplate)
             || (e == LockTemplate(tag) && from == WaitTemplate && to == WaitFcm)
             || (e == LockFcm(tag) && from == WaitFcm && to == Parsing)
    ensures t == Entering(s, e) && SameTallies(s, t)
    ensures t.inflight == map[tag := Task(m, to)]
    ensures t.templateLock == if e.Connect? then None else Some(tag)
    ensures t.fcmLock == if e.LockFcm? then Some(tag) else None
  {
    t := Entering(s, e);
  }

  lemma ThreeEntries(k: string, ttl: nat, s: Sys, e: Event, f: Event, g: Event)
    requires e.Connect? && f.LockTemplate? && g.LockFcm?
    ensures Run(k, ttl, s, [e, f, g]) == Entering(Entering(Entering(s, e), f), g)
  {
    hide Entering;
    assert [e, f, g] == [e, f] + [g];
    RunConcat(k, ttl, s, [e, f], [g]);
    TwoEvents(k, ttl, s, e, f);
    OneEvent(k, ttl, Entering(Entering(s, e), f), g);
  }

  lemma AloneMove(k: string, ttl: nat, s: Sys, m: Message, e: Event)
    requires Inner(e) && Alone(s, e.tag, m, Source(e))
    ensures Next(k, ttl, s, e) == Moved(k, ttl, s, e)
    ensures Alone(Next(k, ttl, s, e), e.tag, m, TargetOf(ttl, s, e))
    ensures e.Parse? ==> SameTallies(s, Next(k, ttl, s, e))
  {
    MovedShape(k, ttl, s, e);
  }

  /** From the read of the key to the acknowledgement, with the message sent. */
  lemma SendOnce(k: string, ttl: nat, s: Sys, m: Message, tag: Tag, readOk: bool) returns (events: seq<Event>)
    requires Alone(s, tag, m, Checking) && m.key == k && ttl > 0
    requires readOk ==> Exposed(s, k)
    ensures var t := Run(k, ttl, s, events);
            && Quiet(t) && t.sends == s.sends + 1 && t.readFaults == s.readFaults + One(!readOk)
            && t.recordFaults == s.recordFaults && t.expiries == s.expiries && JustSet(t, k, "sent", ttl)
  {
    hide Next, Run;
    var a := [Check(tag, readOk), MarkProcessing(tag, true, true)];
    var b := [Prepare(tag, Proceed), Send(tag, true)];
    var c := [Record(tag, true), MarkSent(tag, true, true)];
    var d := [Settle(tag, true)];
    events := a + (b + (c + d));
    var s2 := SendA(k, ttl, s, m, tag, readOk);
    var s4 := SendB(k, ttl, s2, m, tag);
    var s6 := SendC(k, ttl, s4, m, tag);
    var s7 := SendD(k, ttl, s6, m, tag, Acked);
    RunConcat(k, ttl, s, a, b + (c + d));
    RunConcat(k, ttl, s2, b, c + d);
    RunConcat(k, ttl, s4, c, d);
  }

  lemma SendD(k: string, ttl: nat, s: Sys, m: Message, tag: Tag, fate: Fate) returns (t: Sys)
    requires Alone(s, tag, m, Settling(fate))
    ensures t == Run(k, ttl, s, [Settle(tag, true)])
    ensures Quiet(t) && SameTallies(s, t)
  {
    OneEvent(k, ttl, s, Settle(tag, true));
    hide Run;
    t := Next(k, ttl, s, Settle(tag, true));
    assert s.inflight - {tag} == map[];
  }

  lemma SendA(k: string, ttl: nat, s: Sys, m: Message, tag: Tag, readOk: bool) returns (t: Sys)
    requires Alone(s, tag, m, Checking) && m.key == k && ttl > 0 && (readOk ==> Exposed(s, k))
    ensures t == Run(k, ttl, s, [Check(tag, readOk), MarkProcessing(tag, true, true)])
    ensures Alone(t, tag, m, Preparing) && t.sends == s.sends && t.readFaults == s.readFaults + One(!readOk)
    ensures t.recordFaults == s.recordFaults && t.expiries == s.expiries
  {
    TwoEvents(k, ttl, s, Check(tag, readOk), MarkProcessing(tag, true, true));
    hide Run;
    var s1 := Next(k, ttl, s, Check(tag, readOk));
    AloneMove(k, ttl, s, m, Check(tag, readOk));
    AloneMove(k, ttl, s1, m, MarkProcessing(tag, true, true));
    t := Next(k, ttl, s1, MarkProcessing(tag, true, true));
  }

  lemma SendB(k: string, ttl: nat, s: Sys, m: Message, tag: Tag) returns (t: Sys)
    requires Alone(s, tag, m, Preparing) && m.key == k
    ensures t == Run(k, ttl, s, [Prepare(tag, Proceed), Send(tag, true)])
    ensures Alone(t, tag, m, Recording) && t.sends == s.sends + 1 && t.readFaults == s.readFaults
    ensures t.recordFaults == s.recordFaults && t.expiries == s.expiries
  {
    TwoEvents(k, ttl, s, Prepare(tag, Proceed), Send(tag, true));
    hide Run;
    var s1 := Next(k, ttl, s, Prepare(tag, Proceed));
    AloneMove(k, ttl, s, m, Prepare(tag, Proceed));
    AloneMove(k, ttl, s1, m, Send(tag, true));
    t := Next(k, ttl, s1, Send(tag, true));
  }

  lemma SendC(k: string, ttl: nat, s: Sys, m: Message, tag: Tag) returns (t: Sys)
    requires Alone(s, tag, m, Recording) && m.key == k && ttl > 0
    ensures t == Run(k, ttl, s, [Record(tag, true), MarkSent(tag, true, true)])
    ensures Alone(t, tag, m, Settling(Acked)) && t.sends == s.sends && t.readFaults == s.readFaults
    ensures t.recordFaults == s.recordFaults && t.expiries == s.expiries && JustSet(t, k, "sent", ttl)
  {
    TwoEvents(k, ttl, s, Record(tag, true), MarkSent(tag, true, true));
    hide Run;
    var s1 := Next(k, ttl, s, Record(tag, true));
    AloneMove(k, ttl, s, m, Record(tag, true));
    AloneMove(k, ttl, s1, m, MarkSent(tag, true, true));
    t := Next(k, ttl, s1, MarkSent(tag, true, true));
  }

  /** The send succeeds but the breaker does not record it: the key ends as failed. */
  lemma SendUnrecorded(k: string, ttl: nat, s: Sys, m: Message, tag: Tag) returns (events: seq<Event>)
    requires Alone(s, tag, m, Checking) && m.key == k && ttl > 0 && Exposed(s, k)
    ensures var t := Run(k, ttl, s, events);
            && Quiet(t) && t.sends == s.sends + 1 && t.readFaults == s.readFaults
            && t.recordFaults == s.recordFaults + 1 && t.expiries == s.expiries && JustSet(t, k, "failed", ttl)
  {
    hide Next, Run;
    var a := [Check(tag, true), MarkProcessing(tag, true, true)];
    var b := [Prepare(tag, Proceed), Send(tag, true)];
    var c := [Record(tag, false), MarkFailed(tag, true, true)];
    var d := [Settle(tag, true)];
    events := a + (b + (c + d));
    var s2 := SendA(k, ttl, s, m, tag, true);
    var s4 := SendB(k, ttl, s2, m, tag);
    var s6 := RecordLost(k, ttl, s4, m, tag);
    var s7 := SendD(k, ttl, s6, m, tag, Dropped);
    RunConcat(k, ttl, s, a, b + (c + d));
    RunConcat(k, ttl, s2, b, c + d);
    RunConcat(k, ttl, s4, c, d);
  }

  lemma RecordLost(k: string, ttl: nat, s: Sys, m: Message, tag: Tag) returns (t: Sys)
    requires Alone(s, tag, m, Recording) && m.key == k && ttl > 0
    ensures t == Run(k, ttl, s, [Record(tag, false), MarkFailed(tag, true, true)])
    ensures Alone(t, tag, m, Settling(Dropped)) && t.sends == s.sends && t.readFaults == s.readFaults
    ensures t.recordFaults == s.recordFaults + 1 && t.expiries == s.expiries && JustSet(t, k, "failed", ttl)
  {
    TwoEvents(k, ttl, s, Record(tag, false), MarkFailed(tag, true, true));
    hide Run;
    var s1 := Next(k, ttl, s, Record(tag, false));
    AloneMove(k, ttl, s, m, Record(tag, false));
    AloneMove(k, ttl, s1, m, MarkFailed(tag, true, true));
    t := Next(k, ttl, s1, MarkFailed(tag, true, true));
  }

  /** Waiting until the key has expired. */
  lemma Expired(k: string, ttl: nat, s: Sys, status: string) returns (t: Sys)
    requires Quiet(s) && JustSet(s, k, status, ttl) && ttl > 0
    ensures t == Run(k, ttl, s, [Tick(1000 * ttl)]) && Quiet(t) && Exposed(t, k)
    ensures t.expiries == s.expiries + 1 && t.sends == s.sends
    ensures t.readFaults == s.readFaults && t.recordFaults == s.recordFaults
  {
    OneEvent(k, ttl, s, Tick(1000 * ttl));
    t := Ticked(k, s, 1000 * ttl);
  }

  /** `n` sends whose recording fails. */
  lemma {:induction false} Unrecorded(k: string, ttl: nat, n: nat) returns (events: seq<Event>)
    requires ttl > 0
    ensures var s := Run(k, ttl, INIT, events);
            && Quiet(s) && s.sends == s.recordFaults == n && s.readFaults == s.expiries == 0 && Exposed(s, k)
  {
    if n == 0 {
      events := [];
    } else {
      var m := Message(0, k, true);
      var before := Unrecorded(k, ttl, n - 1);
      var s := Run(k, ttl, INIT, before);
      var arrive := Arrive(k, ttl, s, m);
      var t := Run(k, ttl, s, arrive);
      var send := SendUnrecorded(k, ttl, t, m, s.nextTag);
      events := before + (arrive + send);
      RunConcat(k, ttl, INIT, before, arrive + send);
      RunConcat(k, ttl, s, arrive, send);
    }
  }

  /** A recorded send on top of a quiet run. */
  lemma OneMore(k: string, ttl: nat, before: seq<Event>, readOk: bool) returns (events: seq<Event>)
    requires ttl > 0 && Quiet(Run(k, ttl, INIT, before)) && (readOk ==> Exposed(Run(k, ttl, INIT, before), k))
    ensures var s, t := Run(k, ttl, INIT, before), Run(k, ttl, INIT, events);
            && Quiet(t) && t.sends == s.sends + 1 && t.readFaults == s.readFaults + One(!readOk)
            && t.recordFaults == s.recordFaults && t.expiries == s.expiries && JustSet(t, k, "sent", ttl)
  {
    var m := Message(0, k, true);
    var s := Run(k, ttl, INIT, before);
    var arrive := Arrive(k, ttl, s, m);
    var t := Run(k, ttl, s, arrive);
    var send := SendOnce(k, ttl, t, m, s.nextTag, readOk);
    events := before + (arrive + send);
    RunConcat(k, ttl, INIT, before, arrive + send);
    RunConcat(k, ttl, s, arrive, send);
  }

  /** The budget cannot be lowered: for all numbers of failed reads, failed recordings and expiries
      there is a run with just these that sends once more than their sum. */
  lemma {:induction false} BudgetIsTight(k: string, ttl: nat, unread: nat, unrecorded: nat, expired: nat)
    returns (events: seq<Event>)
    requires ttl > 0
    ensures var s := Run(k, ttl, INIT, events);
            && Quiet(s) && JustSet(s, k, "sent", ttl) && s.sends == 1 + unread + unrecorded + expired
            && s.readFaults == unread && s.recordFaults == unrecorded && s.expiries == expired
    decreases unread + expired
  {
    hide Run, Quiet, Exposed, JustSet;
    if expired > 0 {
      var before := BudgetIsTight(k, ttl, unread, unrecorded, expired - 1);
      var t := Expired(k, ttl, Run(k, ttl, INIT, before), "sent");
      RunConcat(k, ttl, INIT, before, [Tick(1000 * ttl)]);
      events := OneMore(k, ttl, before + [Tick(1000 * ttl)], true);
    } else if unread > 0 {
      var before := BudgetIsTight(k, ttl, unread - 1, unrecorded, 0);
      events := OneMore(k, ttl, before, false);
    } else {
      var before := Unrecorded(k, ttl, unrecorded);
      events := OneMore(k, ttl, before, true);
    }
  }

  /** Keys set since time 0 live for the whole TTL. */
  predicate LongLived(s: Sys, ttl: nat) {
    forall key | key in s.idem :: s.idem[key].expiresAt.Some? && s.idem[key].expiresAt.value >= 1000 * ttl
  }

  lemma {:induction false} NoExpiryYet(k: string, ttl: nat, s: Sys, events: seq<Event>)
    requires LongLived(s, ttl) && s.expiries == 0
    requires Run(k, ttl, s, events).now < 1000 * ttl
    ensures Run(k, ttl, s, events).expiries == 0 && s.now < 1000 * ttl
    decreases |events|
  {
    if events == [] {
    } else {
      var t := Next(k, ttl, s, events[0]);
      TimeOnlyGrows(k, ttl, t, events[1..]);
      LongLivedStep(k, ttl, s, events[0]);
      NoExpiryYet(k, ttl, t, events[1..]);
    }
  }

  lemma LongLivedMoved(k: string, ttl: nat, s: Sys, e: Event)
    requires LongLived(s, ttl) && Inner(e) && At(s, e.tag, Source(e))
    ensures LongLived(Moved(k, ttl, s, e), ttl)
  {
    hide Lookup, TargetOf;
  }

  lemma LongLivedStep(k: string, ttl: nat, s: Sys, e: Event)
    requires LongLived(s, ttl) && s.expiries == 0 && Next(k, ttl, s, e).now < 1000 * ttl
    ensures LongLived(Next(k, ttl, s, e), ttl) && Next(k, ttl, s, e).expiries == 0
    ensures s.now <= Next(k, ttl, s, e).now
  {
    if Inner(e) {
      if At(s, e.tag, Source(e)) {
        LongLivedMoved(k, ttl, s, e);
        MovedShape(k, ttl, s, e);
      }
      hide Moved;
    } else {
      hide Moved, MessagesBelow;
    }
  }

  lemma NowGrows(k: string, ttl: nat, s: Sys, e: Event)
    ensures s.now <= Next(k, ttl, s, e).now
  {
    if Inner(e) && At(s, e.tag, Source(e)) {
      MovedShape(k, ttl, s, e);
    }
    hide Moved, MessagesBelow;
  }

  lemma {:induction false} TimeOnlyGrows(k: string, ttl: nat, s: Sys, events: seq<Event>)
    ensures s.now <= Run(k, ttl, s, events).now
    decreases |events|
  {
    if events == [] {
    } else {
      NowGrows(k, ttl, s, events[0]);
      hide Next;
      TimeOnlyGrows(k, ttl, Next(k, ttl, s, events[0]), events[1..]);
    }
  }

  /** Within one TTL and without failed reads or recordings, a key is sent at most once,
      whatever is redelivered and wherever the process crashes. */
  lemma SentOnceWithinTtl(k: string, ttl: nat, events: seq<Event>)
    requires var s := Run(k, ttl, INIT, events);
             s.readFaults == 0 && s.recordFaults == 0 && s.now < 1000 * ttl
    ensures Run(k, ttl, INIT, events).sends <= 1
  {
    NoExpiryYet(k, ttl, INIT, events);
    SendBudget(k, ttl, events);
  }
}
