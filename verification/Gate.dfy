/** What all circuit breakers of the system have in common: a trip closes the gate
    for `timeout` units of time. */
module Gate {
  import opened Common

  /** A protected call asks for admission; a failure trips the breaker. */
  datatype Act = Ask(at: nat, admitted: bool) | Trip(at: nat)

  predicate Ordered(acts: seq<Act>) {
    forall i, j | 0 <= i < j < |acts| :: acts[i].at <= acts[j].at
  }

  /** The gate as a machine that remembers the latest trip. */
  predicate Legal(timeout: nat, since: Option<nat>, acts: seq<Act>)
    decreases |acts|
  {
    acts == [] ||
    match acts[0]
    case Ask(t, admitted) =>
      admitted == (since.None? || since.value + timeout <= t) && Legal(timeout, since, acts[1..])
    case Trip(t) => Legal(timeout, Some(t), acts[1..])
  }

  /** The gate without its memory: a call is admitted exactly when every earlier
      trip is at least `timeout` old. */
  lemma {:induction false} AdmittedExactly(timeout: nat, since: Option<nat>, acts: seq<Act>, j: nat)
    requires Legal(timeout, since, acts) && Ordered(acts)
    requires since.Some? ==> forall i | 0 <= i < |acts| :: since.value <= acts[i].at
    requires j < |acts| && acts[j].Ask?
    ensures acts[j].admitted <==>
            && (since.Some? ==> since.value + timeout <= acts[j].at)
            && forall i | 0 <= i < j && acts[i].Trip? :: acts[i].at + timeout <= acts[j].at
    decreases j
  {
    if j == 0 {
    } else {
      var rest := acts[1..];
      forall i, k | 0 <= i < k < |rest| ensures rest[i].at <= rest[k].at {
        assert acts[i + 1].at <= acts[k + 1].at;
      }
      var next := if acts[0].Trip? then Some(acts[0].at) else since;
      forall i | 0 <= i < |rest| ensures next.Some? ==> next.value <= rest[i].at {
        assert acts[0].at <= acts[i + 1].at;
      }
      AdmittedExactly(timeout, next, rest, j - 1);
      assert forall i | 0 <= i < j - 1 :: rest[i] == acts[i + 1];
    }
  }

  lemma OrderedCons(a: Act, rest: seq<Act>)
    requires Ordered(rest) && forall i | 0 <= i < |rest| :: a.at <= rest[i].at
    ensures Ordered([a] + rest) && ([a] + rest)[1..] == rest
  {
  }

  /** The acts of one call: it asks at `start` and may trip later. */
  function OneCall(start: nat, admitted: bool, trip: Option<nat>): seq<Act> {
    [Ask(start, admitted)] + if trip.Some? then [Trip(trip.value)] else []
  }

  /** The acts of one call put before later ones. */
  lemma Prepend(timeout: nat, since: Option<nat>, start: nat, admitted: bool, trip: Option<nat>, rest: seq<Act>)
    requires admitted <==> (since.None? || since.value + timeout <= start)
    requires Legal(timeout, if trip.Some? then trip else since, rest) && Ordered(rest)
    requires trip.Some? ==> start <= trip.value
    requires forall i | 0 <= i < |rest| :: start <= rest[i].at && (trip.Some? ==> trip.value <= rest[i].at)
    ensures var acts := OneCall(start, admitted, trip) + rest;
            Legal(timeout, since, acts) && Ordered(acts) && forall i | 0 <= i < |acts| :: start <= acts[i].at
  {
    var later := if trip.Some? then [Trip(trip.value)] + rest else rest;
    if trip.Some? {
      OrderedCons(Trip(trip.value), rest);
    }
    OrderedCons(Ask(start, admitted), later);
    assert OneCall(start, admitted, trip) + rest == [Ask(start, admitted)] + later;
  }
}
