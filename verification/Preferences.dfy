/** user-service: user preferences behind a cache whose writes may be lost. */
module Preferences {
  import opened Common
  import opened Redis

  const CACHE_TTL := 3600

  type Id = string

  datatype Prefs = Prefs(email: bool, push: bool)

  datatype Error = NotFound | Conflict | InternalError

  datatype Store = Store(users: map<Id, Prefs>, cache: map<Id, Entry<Prefs>>, now: nat)

  function Put(s: Store, id: Id, p: Prefs, ok: bool): Store {
    if ok then s.(cache := s.cache[id := For(p, CACHE_TTL, s.now)]) else s
  }

  function Drop(s: Store, id: Id, ok: bool): Store {
    if ok then s.(cache := s.cache - {id}) else s
  }

  /** Requests, with which of their database and cache commands work; `taken` is whether the address
      of a new user already belongs to one. */
  datatype Op =
    | Create(id: Id, prefs: Prefs, taken: bool, saved: bool, cached: bool)
    | Update(id: Id, change: Option<Prefs>, dropped: bool, saved: bool, cached: bool)
    | Get(id: Id, readOk: bool, cached: bool)
    | Remove(id: Id, dropped: bool)
    | Tick(ms: nat)

  /** An identifier the database hands out has not been in use. */
  predicate Possible(s: Store, op: Op) {
    op.Create? && !op.taken && op.saved ==> op.id !in s.users && op.id !in s.cache
  }

  function Apply(s: Store, op: Op): Store {
    match op
    case Create(id, p, taken, saved, cached) =>
      if taken || !saved then s else Put(s.(users := s.users[id := p]), id, p, cached)
    case Update(id, change, dropped, saved, cached) =>
      if id !in s.users then s
      else
        var p := if change.Some? then change.value else s.users[id];
        var t := if change.Some? then Drop(s, id, dropped) else s;
        if saved then Put(t.(users := t.users[id := p]), id, p, cached) else t
    case Get(id, readOk, cached) =>
      if (readOk && Lookup(s.cache, id, s.now).Some?) || id !in s.users then s
      else Put(s, id, s.users[id], cached)
    case Remove(id, dropped) =>
      if id !in s.users then s else Drop(s.(users := s.users - {id}), id, dropped)
    case Tick(ms) => s.(now := s.now + ms)
  }

  function Answer(s: Store, id: Id, readOk: bool): Result<Prefs, Error> {
    var hit := Lookup(s.cache, id, s.now);
    if readOk && hit.Some? then Ok(hit.value) else DirectRead(s, id)
  }

  function DirectRead(s: Store, id: Id): Result<Prefs, Error> {
    if id in s.users then Ok(s.users[id]) else Err(NotFound)
  }

  class UsersService {
    var users: map<Id, Prefs>
    var cache: map<Id, Entry<Prefs>>
    var now: nat

    constructor ()
      ensures State() == Store(map[], map[], 0)
    {
      users, cache, now := map[], map[], 0;
    }

    function State(): Store
      reads this
    {
      Store(users, cache, now)
    }

    /** A cache write that fails is logged and forgotten. */
    method CacheUserPreferences(id: Id, p: Prefs, works: bool)
      modifies this`cache
      ensures State() == Put(old(State()), id, p, works)
      ensures cache == if works then old(cache)[id := For(p, 3600, now)] else old(cache)
    {
      if works {
        cache := cache[id := For(p, CACHE_TTL, now)];
      }
    }

    method InvalidatePreferencesCache(id: Id, works: bool)
      modifies this`cache
      ensures State() == Drop(old(State()), id, works)
      ensures cache == if works then old(cache) - {id} else old(cache)
    {
      if works {
        cache := cache - {id};
      }
    }

    method CreateUser(id: Id, p: Prefs, taken: bool, saved: bool, cached: bool) returns (r: Result<Prefs, Error>)
      modifies this
      ensures State() == Apply(old(State()), Create(id, p, taken, saved, cached))
      ensures r == if taken then Err(Conflict) else if !saved then Err(InternalError) else Ok(p)
      ensures r.Ok? ==> users == old(users)[id := p] && (cached ==> id in cache && cache[id].value == p)
      ensures r.Err? ==> State() == old(State())
    {
      if taken {
        return Err(Conflict);
      }
      if !saved {
        return Err(InternalError);
      }
      users := users[id := p];
      CacheUserPreferences(id, p, cached);
      return Ok(p);
    }

    method UpdateUser(id: Id, change: Option<Prefs>, dropped: bool, saved: bool, cached: bool) returns (r: Result<Prefs, Error>)
      modifies this
      ensures State() == Apply(old(State()), Update(id, change, dropped, saved, cached))
      ensures r == Err(NotFound) <==> id !in old(users)
      ensures id in old(users) ==> (r.Ok? <==> saved)
      ensures r.Ok? ==> r.value == (if change.Some? then change.value else old(users)[id]) && users == old(users)[id := r.value]
      ensures r.Err? ==> users == old(users)
    {
      if id !in users {
        return Err(NotFound);
      }
      var preferences := users[id];
      if change.Some? {
        preferences := change.value;
        InvalidatePreferencesCache(id, dropped);
      }
      if !saved {
        return Err(InternalError);
      }
      users := users[id := preferences];
      CacheUserPreferences(id, preferences, cached);
      return Ok(preferences);
    }

    method GetPreferences(id: Id, readOk: bool, cached: bool) returns (r: Result<Prefs, Error>)
      modifies this`cache
      ensures r == Answer(old(State()), id, readOk)
      ensures users == old(users)
      ensures r.Ok? && (cached || (readOk && Lookup(old(cache), id, now).Some?)) ==> Lookup(cache, id, now) == Some(r.value)
      ensures State() == Apply(old(State()), Get(id, readOk, cached))
    {
      if readOk {
        var cachedPreferences := Lookup(cache, id, now);
        if cachedPreferences.Some? {
          return Ok(cachedPreferences.value);
        }
      }
      if id !in users {
        return Err(NotFound);
      }
      CacheUserPreferences(id, users[id], cached);
      return Ok(users[id]);
    }

    method RemoveUser(id: Id, dropped: bool) returns (r: Result<(), Error>)
      modifies this
      ensures State() == Apply(old(State()), Remove(id, dropped))
      ensures r.Ok? <==> id in old(users)
      ensures users == old(users) - {id}
    {
      if id !in users {
        return Err(NotFound);
      }
      users := users - {id};
      InvalidatePreferencesCache(id, dropped);
      return Ok(());
    }
  }

  // ---------- when the cache agrees with the database ----------

  predicate CoherentAt(s: Store, id: Id) {
    var hit := Lookup(s.cache, id, s.now);
    hit.Some? ==> Ok(hit.value) == DirectRead(s, id)
  }

  /** The answer is the direct read exactly when the entry, if it can be read, agrees. */
  lemma AnswerIsDirect(s: Store, id: Id, readOk: bool)
    ensures Answer(s, id, readOk) == DirectRead(s, id) <==> !readOk || CoherentAt(s, id)
  {
  }

  /** The losses that leave a wrong entry behind: both cache writes of a saved update that changed
      the preferences, or the delete of a removal, while an entry is live. */
  predicate Harmful(s: Store, op: Op, id: Id) {
    var hit := Lookup(s.cache, id, s.now);
    match op
    case Update(i, change, dropped, saved, cached) =>
      i == id && id in s.users && hit.Some? && !dropped && saved && !cached && change.Some? && change != hit
    case Remove(i, dropped) => i == id && id in s.users && hit.Some? && !dropped
    case _ => false
  }

  /** A request keeps an agreeing entry agreeing exactly when it is not harmful to it. */
  lemma CoherentStep(s: Store, op: Op, id: Id)
    requires Possible(s, op) && CoherentAt(s, id)
    ensures CoherentAt(Apply(s, op), id) <==> !Harmful(s, op, id)
  {
  }

  /** An update loses at most one of its two cache writes, a removal does not lose its one. */
  predicate FewLosses(op: Op) {
    match op
    case Update(_, _, dropped, _, cached) => dropped || cached
    case Remove(_, dropped) => dropped
    case _ => true
  }

  function Run(s: Store, ops: seq<Op>): Store
    decreases |ops|
  {
    if ops == [] then s else Run(Apply(s, ops[0]), ops[1..])
  }

  predicate FewLossesRun(s: Store, ops: seq<Op>)
    decreases |ops|
  {
    ops == [] || (Possible(s, ops[0]) && FewLosses(ops[0]) && FewLossesRun(Apply(s, ops[0]), ops[1..]))
  }

  lemma {:induction false} CoherentRun(s: Store, ops: seq<Op>, id: Id)
    requires FewLossesRun(s, ops) && CoherentAt(s, id)
    ensures CoherentAt(Run(s, ops), id)
    decreases |ops|
  {
    if ops == [] {
    } else {
      CoherentStep(s, ops[0], id);
      CoherentRun(Apply(s, ops[0]), ops[1..], id);
    }
  }

  /** In every serial run with so few losses, failed saves included, the answer is the direct read. */
  lemma PreferencesAreDirect(ops: seq<Op>, id: Id, readOk: bool)
    requires FewLossesRun(Store(map[], map[], 0), ops)
    ensures var s := Run(Store(map[], map[], 0), ops);
            Answer(s, id, readOk) == DirectRead(s, id)
  {
    CoherentRun(Store(map[], map[], 0), ops, id);
    AnswerIsDirect(Run(Store(map[], map[], 0), ops), id, readOk);
  }
}
