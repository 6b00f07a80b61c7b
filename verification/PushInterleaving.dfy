/** push-service's handler among the handlers of other deliveries: what they do between its steps
    makes no difference to it while it holds the locks. */
module PushInterleaving {
  import opened Common
  import opened Redis
  import opened PushRedis
  import opened PushDelivery
  import opened PushWorker

  /** What goes on outside `process_message`: the queue, and the ends of other handlers. */
  predicate Foreign(e: Event, tag: Tag) {
    || e.Publish? || e.Deliver?
    || ((e.Connect? || e.LockTemplate? || e.LockFcm? || e.Settle?) && e.tag != tag)
  }

  /** Steps of the handler with foreign events anywhere between them. */
  predicate Mixed(events: seq<Event>, tag: Tag) {
    forall i | 0 <= i < |events| :: Own(events[i], tag) || Foreign(events[i], tag)
  }

  /** The handler's own steps, in their order. */
  function OwnSteps(events: seq<Event>, tag: Tag): seq<Event> {
    if events == [] then []
    else (if Own(events[0], tag) then [events[0]] else []) + OwnSteps(events[1..], tag)
  }

  /** Both locks are the handler's, and all it can see is the same. */
  predicate Alike(s: Sys, t: Sys, tag: Tag) {
    && tag in s.inflight && tag in t.inflight && s.inflight[tag] == t.inflight[tag] && tag < t.nextTag
    && s.templateLock == s.fcmLock == t.templateLock == t.fcmLock == Some(tag)
    && SameTallies(s, t)
  }

  lemma ForeignKeeps(k: string, ttl: nat, s: Sys, t: Sys, tag: Tag, e: Event)
    requires Alike(s, t, tag) && Foreign(e, tag)
    ensures Alike(s, Next(k, ttl, t, e), tag)
  {
    hide MessagesBelow, Moved;
  }

  lemma FaultsAlong(k: string, ttl: nat, s: Sys, e: Event)
    requires Inner(e) && At(s, e.tag, Source(e))
    ensures var t, mine := Moved(k, ttl, s, e), s.inflight[e.tag].msg.key == k;
            && t.readFaults == s.readFaults + One(e.Check? && !e.ok && mine)
            && t.recordFaults == s.recordFaults + One(e.Record? && !e.ok && mine)
  {
    hide Target, Lookup, Live;
  }

  /** A step of `process_message` depends on what the handler sees, and changes only that. */
  lemma InnerAlike(k: string, ttl: nat, s: Sys, t: Sys, e: Event)
    requires Inner(e) && Alike(s, t, e.tag) && At(s, e.tag, Source(e))
    ensures Alike(Moved(k, ttl, s, e), Moved(k, ttl, t, e), e.tag)
  {
    MovedShape(k, ttl, s, e);
    MovedShape(k, ttl, t, e);
    KeysAlong(k, ttl, s, e);
    KeysAlong(k, ttl, t, e);
    SendsAlong(k, ttl, s, e);
    SendsAlong(k, ttl, t, e);
    FaultsAlong(k, ttl, s, e);
    FaultsAlong(k, ttl, t, e);
    hide Moved, Target, Lookup, Writes, Source;
  }

  lemma OwnAlike(k: string, ttl: nat, s: Sys, t: Sys, tag: Tag, e: Event)
    requires Alike(s, t, tag) && Own(e, tag)
    ensures Alike(Next(k, ttl, s, e), Next(k, ttl, t, e), tag)
  {
    if e.Tick? {
    } else if At(s, tag, Source(e)) {
      InnerAlike(k, ttl, s, t, e);
    }
    hide Moved, MessagesBelow;
  }

  /** However foreign events are put between the handler's steps, it ends alike. */
  lemma {:induction false} InterleavedAlike(k: string, ttl: nat, s: Sys, t: Sys, tag: Tag, mixed: seq<Event>)
    requires Alike(s, t, tag) && Mixed(mixed, tag)
    ensures Alike(Run(k, ttl, s, OwnSteps(mixed, tag)), Run(k, ttl, t, mixed), tag)
    decreases |mixed|
  {
    if mixed == [] {
    } else {
      var e, rest := mixed[0], mixed[1..];
      assert Own(e, tag) || Foreign(e, tag);
      var next := Next(k, ttl, t, e);
      if Own(e, tag) {
        OwnAlike(k, ttl, s, t, tag, e);
        assert ([e] + OwnSteps(rest, tag))[1..] == OwnSteps(rest, tag);
        hide Next, Alike, Own, Foreign;
        InterleavedAlike(k, ttl, Next(k, ttl, s, e), next, tag, rest);
      } else {
        ForeignKeeps(k, ttl, s, t, tag, e);
        assert [] + OwnSteps(rest, tag) == OwnSteps(rest, tag);
        hide Next, Alike, Own, Foreign;
        InterleavedAlike(k, ttl, s, next, tag, rest);
      }
    }
  }

  /** An execution of `process_message` that starts with both locks held, seen with the steps of all
      other handlers between its own: it is a run of the machine too, with the same keys, the same sends,
      the same end and the locks still held. */
  lemma ProcessAmongOthers(k: string, ttl: nat, s0: Sys, trace: seq<Event>, s: Sys, tag: Tag, m: Message, sent: int,
                           phase: Phase, d: Data, now: nat, mixed: seq<Event>)
    requires Traced(k, ttl, s0, tag, trace, s, m, sent) && Reached(s, tag, m, phase, d, now)
    requires tag in s0.inflight && tag < s0.nextTag && s0.templateLock == s0.fcmLock == Some(tag)
    requires Mixed(mixed, tag) && OwnSteps(mixed, tag) == trace
    ensures var t := Run(k, ttl, s0, mixed);
            && Reached(t, tag, m, phase, d, now) && t.sends == s0.sends + (if m.key == k then sent else 0)
            && t.templateLock == t.fcmLock == Some(tag)
  {
    InterleavedAlike(k, ttl, s0, s0, tag, mixed);
    hide Run;
  }
}
