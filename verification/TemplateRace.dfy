/** template-service with requests interleaved at every `await`. */
module TemplateRace {
  import opened Common
  import opened Extraction
  import opened TemplateKeys
  import opened TemplateStore

  /** Where a request stands: the query or command it sends next. */
  datatype Task =
    | CreateCheck(cdto: CreateDto)
    | CreateInsert(cdto: CreateDto)
    | UpdateRead(code: string, udto: UpdateDto)
    | UpdateInsert(seen: Row, udto: UpdateDto)
    | UpdateKeys(row: Row)
    | UpdateDel(row: Row, keys: set<string>)
    | FindGet(code: string, language: string, version: Option<int>)
    | FindRead(code: string, language: string, version: Option<int>)
    | Caching(row: Row, keys: set<string>)
    | DeleteRead(code: string, language: string)
    | DeleteKeys(code: string, language: string)
    | DeleteDel(keys: set<string>)
    | Done

  datatype World = World(rows: seq<Row>, cache: map<string, Row>, tasks: map<nat, Task>)

  /** What a step takes from outside: the row a query picks among equals, the key a batch of commands
      takes next, the keys a KEYS command answers. */
  datatype Reply = Reply(row: Row, key: string, keys: set<string>)

  /** A new request, the next step of one, an expiry, or a rejected `await`. */
  datatype Event = Start(id: nat, task: Task) | Step(id: nat, reply: Reply) | Expire(key: string) | Fail(id: nat)

  const START := World([], map[], map[])

  /** A request as it comes in, its names without a colon; `create` validates before its first `await`. */
  predicate Incoming(t: Task) {
    match t
    case CreateCheck(dto) => ColonFree(dto.code) && ColonFree(dto.language) && Declared(dto.content, dto.variables)
    case UpdateRead(code, dto) => ColonFree(code) && ColonFree(OrElse(dto.language, "en"))
    case FindGet(code, language, _) => ColonFree(code) && ColonFree(language)
    case DeleteRead(code, language) => ColonFree(code) && ColonFree(language)
    case _ => false
  }

  /** A row `findByCodeAndLanguage` may answer with. */
  predicate MayFind(rows: seq<Row>, code: string, language: string, version: Option<int>, r: Row) {
    && r in rows && Of(r, code, language)
    && if version.Some? && version.value != 0 then r.version == version.value
       else forall i | 0 <= i < |rows| && Of(rows[i], code, language) :: rows[i].version <= r.version
  }

  function Keys(r: Row): set<string> {
    {LatestKey(r), VersionKey(r)}
  }

  function InsertOf(t: Task): Row
    requires t.CreateInsert? || t.UpdateInsert?
  {
    if t.CreateInsert? then Row(t.cdto.code, t.cdto.kind, t.cdto.language, 1, t.cdto.content, t.cdto.variables)
    else NextRow(t.seen, OrElse(t.udto.language, "en"), t.udto)
  }

  /** The world after a request's next step, and where the request stands then. */
  function Advance(w: World, t: Task, a: Reply): (World, Task) {
    var Reply(row, key, answer) := a;
    match t
    case CreateCheck(dto) => (w, if Exists(w.rows, dto.code, dto.language) then Done else CreateInsert(dto))
    case CreateInsert(_) => (w.(rows := w.rows + [InsertOf(t)]), Caching(InsertOf(t), Keys(InsertOf(t))))
    case UpdateRead(code, dto) =>
      var language := OrElse(dto.language, "en");
      if !Exists(w.rows, code, language) then (w, Done)
      else if !MayFind(w.rows, code, language, None, row) then (w, t)
      else
        var next := NextRow(row, language, dto);
        (w, if Declared(next.content, next.variables) then UpdateInsert(row, dto) else Done)
    case UpdateInsert(_, _) => (w.(rows := w.rows + [InsertOf(t)]), UpdateKeys(InsertOf(t)))
    case UpdateKeys(r) => (w, UpdateDel(r, answer))
    case UpdateDel(r, keys) =>
      if keys == {} then (w, Caching(r, Keys(r)))
      else if key in keys then (w.(cache := w.cache - {key}), UpdateDel(r, keys - {key}))
      else (w, t)
    case FindGet(code, language, version) =>
      (w, if CacheKey(code, language, Part(version)) in w.cache then Done else FindRead(code, language, version))
    case FindRead(code, language, version) =>
      if MayFind(w.rows, code, language, version, row) then (w, Caching(row, Keys(row)))
      else if FindRow(w.rows, code, language, version).None? then (w, Done)
      else (w, t)
    case Caching(r, keys) =>
      if keys == {} then (w, Done)
      else if key in keys then (w.(cache := w.cache[key := r]), Caching(r, keys - {key}))
      else (w, t)
    case DeleteRead(code, language) => (w, if Exists(w.rows, code, language) then DeleteKeys(code, language) else Done)
    case DeleteKeys(_, _) => (w, DeleteDel(answer))
    case DeleteDel(keys) =>
      if key in keys then (w.(cache := w.cache - {key}), DeleteDel(keys - {key})) else (w, if keys == {} then Done else t)
    case Done => (w, Done)
  }

  function Next(w: World, e: Event): World {
    match e
    case Start(id, t) => if id !in w.tasks && Incoming(t) then w.(tasks := w.tasks[id := t]) else w
    case Step(id, a) =>
      if id in w.tasks then
        var (v, t) := Advance(w, w.tasks[id], a);
        v.(tasks := w.tasks[id := t])
      else w
    case Expire(key) => w.(cache := w.cache - {key})
    case Fail(id) => if id in w.tasks then w.(tasks := w.tasks[id := Done]) else w
  }

  function Run(w: World, events: seq<Event>): World
    decreases |events|
  {
    if events == [] then w else Run(Next(w, events[0]), events[1..])
  }

  // ---------- the invariant ----------

  predicate GoodRow(r: Row) {
    r.version >= 1 && ColonFree(r.code) && ColonFree(r.language) && Declared(r.content, r.variables)
  }

  predicate HasPredecessor(rows: seq<Row>, r: Row) {
    exists i :: 0 <= i < |rows| && Of(rows[i], r.code, r.language) && rows[i].version + 1 == r.version
  }

  /** No gap below any version. */
  predicate GapFree(rows: seq<Row>) {
    forall i | 0 <= i < |rows| :: GoodRow(rows[i]) && (rows[i].version > 1 ==> HasPredecessor(rows, rows[i]))
  }

  predicate TrueCache(rows: seq<Row>, cache: map<string, Row>) {
    forall k | k in cache :: cache[k] in rows && KeyFits(k, cache[k])
  }

  /** What a request has in hand is true of the table. */
  predicate Informed(rows: seq<Row>, t: Task) {
    match t
    case CreateInsert(_) => GoodRow(InsertOf(t))
    case UpdateInsert(seen, dto) =>
      seen in rows && Of(seen, seen.code, OrElse(dto.language, "en")) && GoodRow(InsertOf(t))
    case UpdateKeys(r) => r in rows
    case UpdateDel(r, _) => r in rows
    case Caching(r, keys) => r in rows && keys <= Keys(r)
    case Done => true
    case FindRead(_, _, _) => true
    case DeleteKeys(_, _) => true
    case DeleteDel(_) => true
    case _ => Incoming(t)
  }

  predicate AllInformed(rows: seq<Row>, tasks: map<nat, Task>) {
    forall id | id in tasks :: Informed(rows, tasks[id])
  }

  predicate Invariant(w: World) {
    GapFree(w.rows) && TrueCache(w.rows, w.cache) && AllInformed(w.rows, w.tasks)
  }

  lemma InformedGrows(rows: seq<Row>, r: Row, t: Task)
    requires Informed(rows, t)
    ensures Informed(rows + [r], t)
  {
  }

  lemma GapFreeGrows(rows: seq<Row>, r: Row)
    requires GapFree(rows) && GoodRow(r) && (r.version > 1 ==> HasPredecessor(rows, r))
    ensures GapFree(rows + [r])
  {
    var more := rows + [r];
    forall i | 0 <= i < |more| ensures GoodRow(more[i]) && (more[i].version > 1 ==> HasPredecessor(more, more[i])) {
      if more[i].version > 1 {
        var q := more[i];
        assert HasPredecessor(rows, q);
        var j :| 0 <= j < |rows| && Of(rows[j], q.code, q.language) && rows[j].version + 1 == q.version;
        assert more[j] == rows[j];
      }
    }
  }

  lemma TrueCacheGrows(rows: seq<Row>, r: Row, cache: map<string, Row>)
    requires TrueCache(rows, cache)
    ensures TrueCache(rows + [r], cache)
  {
  }

  lemma InsertIsGood(rows: seq<Row>, t: Task)
    requires (t.CreateInsert? || t.UpdateInsert?) && Informed(rows, t)
    ensures GoodRow(InsertOf(t)) && (InsertOf(t).version > 1 ==> HasPredecessor(rows, InsertOf(t)))
  {
    if t.UpdateInsert? {
      var j :| 0 <= j < |rows| && rows[j] == t.seen;
    }
  }

  /** The step of one request keeps the table and the cache true, and itself informed. */
  lemma AdvanceKeeps(w: World, t: Task, a: Reply)
    requires GapFree(w.rows) && TrueCache(w.rows, w.cache) && Informed(w.rows, t)
    ensures var (v, u) := Advance(w, t, a);
            && GapFree(v.rows) && TrueCache(v.rows, v.cache) && Informed(v.rows, u)
            && (v.rows == w.rows || exists r :: v.rows == w.rows + [r])
  {
    match t
    case CreateInsert(_) => InsertKeeps(w, t, a);
    case UpdateInsert(_, _) => InsertKeeps(w, t, a);
    case UpdateRead(_, _) => ReadKeeps(w, t, a);
    case UpdateDel(_, _) => CommandKeeps(w, t, a);
    case Caching(_, _) => CommandKeeps(w, t, a);
    case DeleteDel(_) => CommandKeeps(w, t, a);
    case _ =>
      hide GapFree, TrueCache;
  }

  /** A batch of cache commands, one of them at a time. */
  lemma CommandKeeps(w: World, t: Task, a: Reply)
    requires TrueCache(w.rows, w.cache) && Informed(w.rows, t)
    requires t.UpdateDel? || t.Caching? || t.DeleteDel?
    ensures var (v, u) := Advance(w, t, a);
            v.rows == w.rows && TrueCache(v.rows, v.cache) && Informed(v.rows, u)
  {
  }

  lemma InsertKeeps(w: World, t: Task, a: Reply)
    requires GapFree(w.rows) && TrueCache(w.rows, w.cache) && Informed(w.rows, t)
    requires t.CreateInsert? || t.UpdateInsert?
    ensures var (v, u) := Advance(w, t, a);
            && GapFree(v.rows) && TrueCache(v.rows, v.cache) && Informed(v.rows, u)
            && v.rows == w.rows + [InsertOf(t)]
  {
    InsertIsGood(w.rows, t);
    GapFreeGrows(w.rows, InsertOf(t));
    TrueCacheGrows(w.rows, InsertOf(t), w.cache);
  }

  lemma ReadKeeps(w: World, t: Task, a: Reply)
    requires GapFree(w.rows) && t.UpdateRead? && Informed(w.rows, t)
    ensures Advance(w, t, a).0 == w && Informed(w.rows, Advance(w, t, a).1)
  {
    var language := OrElse(t.udto.language, "en");
    if MayFind(w.rows, t.code, language, None, a.row) {
      var j :| 0 <= j < |w.rows| && w.rows[j] == a.row;
      assert GoodRow(w.rows[j]);
    }
  }

  lemma InvariantStep(w: World, e: Event)
    requires Invariant(w)
    ensures Invariant(Next(w, e))
  {
    hide GapFree, Informed, Advance, Incoming;
    match e
    case Start(id, t) => StartInformed(w.rows, t);
    case Expire(_) =>
    case Fail(_) => DoneInformed(w.rows);
    case Step(id, a) =>
      if id in w.tasks {
        AdvanceKeeps(w, w.tasks[id], a);
        var (v, t) := Advance(w, w.tasks[id], a);
        OthersInformed(w.rows, v.rows, w.tasks, id, t);
      }
  }

  lemma StartInformed(rows: seq<Row>, t: Task)
    ensures Incoming(t) ==> Informed(rows, t)
  {
  }

  lemma DoneInformed(rows: seq<Row>)
    ensures Informed(rows, Done)
  {
  }

  lemma OthersInformed(rows: seq<Row>, more: seq<Row>, tasks: map<nat, Task>, id: nat, t: Task)
    requires AllInformed(rows, tasks) && Informed(more, t)
    requires more == rows || exists r :: more == rows + [r]
    ensures AllInformed(more, tasks[id := t])
  {
    if more != rows {
      var r :| more == rows + [r];
      forall i | i in tasks ensures Informed(more, tasks[i]) {
        InformedGrows(rows, r, tasks[i]);
      }
    }
  }

  lemma {:induction false} InvariantRun(w: World, events: seq<Event>)
    requires Invariant(w)
    ensures Invariant(Run(w, events))
    decreases |events|
  {
    if events == [] {
    } else {
      InvariantStep(w, events[0]);
      hide Invariant, Next;
      InvariantRun(Next(w, events[0]), events[1..]);
    }
  }

  lemma {:induction false} DownwardClosed(rows: seq<Row>, r: Row, v: nat)
    requires GapFree(rows) && r in rows && 1 <= v <= r.version
    ensures HasVersion(rows, r.code, r.language, v)
    decreases r.version
  {
    if v < r.version {
      var i :| 0 <= i < |rows| && rows[i] == r;
      assert HasPredecessor(rows, rows[i]);
      var j :| 0 <= j < |rows| && Of(rows[j], r.code, r.language) && rows[j].version + 1 == r.version;
      DownwardClosed(rows, rows[j], v);
    }
  }

  // ---------- the main results ----------

  /** Under every interleaving the versions of a template are exactly 1 up to the greatest. */
  lemma VersionsHaveNoGap(events: seq<Event>, code: string, language: string, v: nat)
    ensures var rows := Run(START, events).rows;
            var latest := Latest(rows, code, language);
            HasVersion(rows, code, language, v) <==> latest.Some? && 1 <= v <= latest.value.version
  {
    InvariantRun(START, events);
    var rows := Run(START, events).rows;
    assert GapFree(rows);
    hide Run, Invariant;
    var latest := Latest(rows, code, language);
    if latest.Some? && 1 <= v <= latest.value.version {
      DownwardClosed(rows, latest.value, v);
    }
    if HasVersion(rows, code, language, v) {
      var r :| r in rows && Of(r, code, language) && r.version == v;
      var i :| 0 <= i < |rows| && rows[i] == r;
      assert GoodRow(rows[i]);
    }
  }

  /** Under every interleaving whatever a cache key holds is a stored row of the template the key names,
      of the version it names if it names one, with all its placeholders declared. */
  lemma CacheHoldsStoredRows(events: seq<Event>, code: string, language: string, part: string)
    requires ColonFree(code) && ColonFree(language) && CacheKey(code, language, part) in Run(START, events).cache
    ensures var r := Run(START, events).cache[CacheKey(code, language, part)];
            && r in Run(START, events).rows && Of(r, code, language)
            && (part == "latest" || part == VersionText(r.version))
            && (forall v: int | part == VersionText(v) :: r.version == v)
            && Declared(r.content, r.variables)
  {
    InvariantRun(START, events);
    var w := Run(START, events);
    var r := w.cache[CacheKey(code, language, part)];
    assert r in w.rows && KeyFits(CacheKey(code, language, part), r);
    var i :| 0 <= i < |w.rows| && w.rows[i] == r;
    assert GoodRow(w.rows[i]);
    KeyFitsMeans(code, language, part, r);
  }

  /** Under every interleaving each stored template declares all of its placeholders. */
  lemma StoredRowsAreDeclared(events: seq<Event>, r: Row)
    requires r in Run(START, events).rows
    ensures Declared(r.content, r.variables)
  {
    InvariantRun(START, events);
    var rows := Run(START, events).rows;
    var i :| 0 <= i < |rows| && rows[i] == r;
    assert GoodRow(rows[i]);
  }

  // ---------- what the stored rows hold ----------

  /** A row is what some request asked for: a first row of a create, or the successor of a stored row
      by an update of it. */
  predicate AsAsked(rows: seq<Row>, r: Row, asked: set<Task>) {
    || (exists t :: t in asked && t.CreateCheck? && FirstRow(r, t.cdto))
    || (exists t, before :: t in asked && t.UpdateRead? && before in rows && before.code == t.code
                            && Language(t.udto, before.language) && Supersedes(r, before, before.language, t.udto))
  }

  /** An update takes the row it supersedes when that has the greatest version of its template. */
  lemma UpdateReadsLatest(w: World, t: Task, a: Reply)
    requires t.UpdateRead? && Advance(w, t, a).1.UpdateInsert?
    ensures var u := Advance(w, t, a).1;
            && u.udto == t.udto && u.seen in w.rows && u.seen.code == t.code && Language(t.udto, u.seen.language)
            && (forall r | r in w.rows && Of(r, u.seen.code, u.seen.language) :: r.version <= u.seen.version)
            && Acceptable(u.seen, t.udto)
  {
    var language := OrElse(t.udto.language, "en");
    assert MayFind(w.rows, t.code, language, None, a.row);
    var next := NextRow(a.row, language, t.udto);
    AcceptedExactly(next.content, next.variables);
  }

  /** What a request is about to insert it was asked to. */
  predicate CarriesItsDto(rows: seq<Row>, t: Task, asked: set<Task>) {
    match t
    case CreateCheck(_) => t in asked
    case CreateInsert(dto) => CreateCheck(dto) in asked
    case UpdateRead(_, _) => t in asked
    case UpdateInsert(seen, dto) => seen in rows && Language(dto, seen.language) && UpdateRead(seen.code, dto) in asked
    case _ => true
  }

  predicate AllAsAsked(w: World, asked: set<Task>) {
    && (forall r | r in w.rows :: AsAsked(w.rows, r, asked))
    && (forall id | id in w.tasks :: CarriesItsDto(w.rows, w.tasks[id], asked))
  }

  lemma AsAskedGrows(rows: seq<Row>, more: seq<Row>, r: Row, asked: set<Task>, all: set<Task>)
    requires AsAsked(rows, r, asked) && rows <= more && asked <= all
    ensures AsAsked(more, r, all)
  {
    if exists t :: t in asked && t.CreateCheck? && FirstRow(r, t.cdto) {
    } else {
      var t, before :| t in asked && t.UpdateRead? && before in rows && before.code == t.code
                       && Language(t.udto, before.language) && Supersedes(r, before, before.language, t.udto);
      assert before in more;
    }
  }

  /** The row an insert appends. */
  lemma InsertAsAsked(rows: seq<Row>, t: Task, asked: set<Task>)
    requires (t.CreateInsert? || t.UpdateInsert?) && CarriesItsDto(rows, t, asked)
    ensures AsAsked(rows, InsertOf(t), asked)
  {
    var r := InsertOf(t);
    if t.CreateInsert? {
      assert CreateCheck(t.cdto) in asked && FirstRow(r, t.cdto);
    } else {
      assert Supersedes(r, t.seen, t.seen.language, t.udto);
    }
  }

  lemma TaskCarriesOn(w: World, t: Task, a: Reply, asked: set<Task>)
    requires CarriesItsDto(w.rows, t, asked)
    ensures CarriesItsDto(Advance(w, t, a).0.rows, Advance(w, t, a).1, asked)
    ensures Advance(w, t, a).0.rows == if t.CreateInsert? || t.UpdateInsert? then w.rows + [InsertOf(t)] else w.rows
  {
  }

  lemma CarriesGrows(rows: seq<Row>, more: seq<Row>, t: Task, asked: set<Task>, all: set<Task>)
    requires CarriesItsDto(rows, t, asked) && rows <= more && asked <= all
    ensures CarriesItsDto(more, t, all)
  {
  }

  function AskedBy(e: Event): set<Task> {
    if e.Start? then {e.task} else {}
  }

  lemma AskedStep(w: World, e: Event, asked: set<Task>)
    requires AllAsAsked(w, asked)
    ensures AllAsAsked(Next(w, e), asked + AskedBy(e))
  {
    hide AsAsked, CarriesItsDto, Advance;
    var all := asked + AskedBy(e);
    var more := Next(w, e).rows;
    RowsGrow(w, e);
    forall r | r in w.rows ensures AsAsked(more, r, all) {
      AsAskedGrows(w.rows, more, r, asked, all);
    }
    forall id | id in w.tasks ensures CarriesItsDto(more, w.tasks[id], all) {
      CarriesGrows(w.rows, more, w.tasks[id], asked, all);
    }
    match e
    case Start(id, t) => NewCarries(w.rows, t, all);
    case Fail(_) => NewCarries(w.rows, Done, all);
    case Expire(_) =>
    case Step(id, a) =>
      if id in w.tasks {
        var t := w.tasks[id];
        TaskCarriesOn(w, t, a, asked);
        CarriesGrows(more, more, Advance(w, t, a).1, asked, all);
        if t.CreateInsert? || t.UpdateInsert? {
          InsertAsAsked(w.rows, t, asked);
          AsAskedGrows(w.rows, more, InsertOf(t), asked, all);
        }
      }
  }

  lemma NewCarries(rows: seq<Row>, t: Task, asked: set<Task>)
    requires t in asked || t.Done?
    ensures Incoming(t) || t.Done? ==> CarriesItsDto(rows, t, asked)
  {
  }

  /** The requests of a run. */
  function Asked(events: seq<Event>): set<Task>
    decreases |events|
  {
    if events == [] then {} else AskedBy(events[0]) + Asked(events[1..])
  }

  lemma {:induction false} AskedRun(w: World, events: seq<Event>, asked: set<Task>)
    requires AllAsAsked(w, asked)
    ensures AllAsAsked(Run(w, events), asked + Asked(events))
    decreases |events|
  {
    if events == [] {
      assert asked + Asked(events) == asked;
    } else {
      AskedStep(w, events[0], asked);
      hide AllAsAsked, Next, AskedBy;
      AskedRun(Next(w, events[0]), events[1..], asked + AskedBy(events[0]));
      assert asked + AskedBy(events[0]) + Asked(events[1..]) == asked + Asked(events);
    }
  }

  /** Under every interleaving each stored row holds exactly what a create of the run asked for, or what
      an update of the run supplied and for the rest what a stored row before it holds. */
  lemma RowsAreAsAsked(events: seq<Event>, r: Row)
    requires r in Run(START, events).rows
    ensures AsAsked(Run(START, events).rows, r, Asked(events))
  {
    AskedRun(START, events, {});
    assert {} + Asked(events) == Asked(events);
    hide Run, Asked, AsAsked;
  }

  // ---------- when versions are unique ----------

  predicate UniqueVersions(rows: seq<Row>) {
    forall i, j | 0 <= i < j < |rows| && Of(rows[i], rows[j].code, rows[j].language) :: rows[i].version != rows[j].version
  }

  /** What the row about to be inserted relies on is still so: there is no row of a template being
      created, and the row being updated is the latest. */
  predicate UpToDate(rows: seq<Row>, t: Task) {
    match t
    case CreateInsert(dto) => !Exists(rows, dto.code, dto.language)
    case UpdateInsert(seen, _) => Latest(rows, seen.code, seen.language) == Some(seen)
    case _ => true
  }

  lemma UniqueGrows(rows: seq<Row>, r: Row)
    requires UniqueVersions(rows)
    ensures UniqueVersions(rows + [r]) <==> !HasVersion(rows, r.code, r.language, r.version)
  {
    var more := rows + [r];
    if UniqueVersions(more) {
      forall q | q in rows && Of(q, r.code, r.language) ensures q.version != r.version {
        var i :| 0 <= i < |rows| && rows[i] == q;
        assert more[i] == q && more[|rows|] == r;
      }
    }
    if !HasVersion(rows, r.code, r.language, r.version) {
      forall i, j | 0 <= i < j < |more| && Of(more[i], more[j].code, more[j].language)
        ensures more[i].version != more[j].version
      {
        if j < |rows| {
          assert more[i] == rows[i] && more[j] == rows[j];
        } else {
          assert more[i] in rows;
        }
      }
    }
  }

  /** The version to be inserted is free exactly when what it relies on is still so. */
  lemma FreeVersion(rows: seq<Row>, t: Task)
    requires GapFree(rows) && UniqueVersions(rows) && Informed(rows, t) && (t.CreateInsert? || t.UpdateInsert?)
    ensures var r := InsertOf(t); HasVersion(rows, r.code, r.language, r.version) <==> !UpToDate(rows, t)
  {
    var r := InsertOf(t);
    if t.CreateInsert? {
      if Exists(rows, r.code, r.language) {
        var i :| 0 <= i < |rows| && Of(rows[i], r.code, r.language);
        assert GoodRow(rows[i]);
        DownwardClosed(rows, rows[i], 1);
      }
    } else {
      var seen := t.seen;
      var latest := Latest(rows, seen.code, seen.language);
      var top := latest.value;
      SameVersion(rows, top, seen);
      if top != seen {
        DownwardClosed(rows, top, r.version);
      }
    }
  }

  lemma SameVersion(rows: seq<Row>, a: Row, b: Row)
    requires UniqueVersions(rows) && a in rows && b in rows && Of(a, b.code, b.language)
    ensures a.version == b.version ==> a == b
  {
    var i :| 0 <= i < |rows| && rows[i] == a;
    var j :| 0 <= j < |rows| && rows[j] == b;
    if i < j {
      assert rows[i].version != rows[j].version;
    } else if j < i {
      assert rows[j].version != rows[i].version;
    }
  }

  /** A step keeps the versions unique exactly when it inserts on up-to-date information, if it inserts. */
  lemma UniqueStep(w: World, t: Task, a: Reply)
    requires GapFree(w.rows) && Informed(w.rows, t) && UniqueVersions(w.rows)
    ensures UniqueVersions(Advance(w, t, a).0.rows) <==> UpToDate(w.rows, t)
  {
    if t.CreateInsert? || t.UpdateInsert? {
      UniqueGrows(w.rows, InsertOf(t));
      FreeVersion(w.rows, t);
    } else {
      hide UniqueVersions, GapFree, Informed;
    }
  }

  /** Every insert of the run was made on up-to-date information. */
  predicate InsertsUpToDate(w: World, events: seq<Event>)
    decreases |events|
  {
    events == [] ||
    ((events[0].Step? && events[0].id in w.tasks ==> UpToDate(w.rows, w.tasks[events[0].id]))
     && InsertsUpToDate(Next(w, events[0]), events[1..]))
  }

  lemma UniqueEvent(w: World, e: Event)
    requires Invariant(w) && UniqueVersions(w.rows)
    ensures UniqueVersions(Next(w, e).rows) <==> (e.Step? && e.id in w.tasks ==> UpToDate(w.rows, w.tasks[e.id]))
  {
    if e.Step? && e.id in w.tasks {
      UniqueStep(w, w.tasks[e.id], e.reply);
    }
    hide UniqueVersions, UpToDate, Advance;
  }

  /** Rows are only ever appended. */
  lemma RowsGrow(w: World, e: Event)
    ensures w.rows <= Next(w, e).rows
  {
  }

  lemma {:induction false} CollisionsStay(w: World, events: seq<Event>)
    requires !UniqueVersions(w.rows)
    ensures !UniqueVersions(Run(w, events).rows)
    decreases |events|
  {
    if events == [] {
    } else {
      RowsGrow(w, events[0]);
      var i, j :| 0 <= i < j < |w.rows| && Of(w.rows[i], w.rows[j].code, w.rows[j].language)
                  && w.rows[i].version == w.rows[j].version;
      var more := Next(w, events[0]).rows;
      assert more[i] == w.rows[i] && more[j] == w.rows[j];
      hide Next;
      CollisionsStay(Next(w, events[0]), events[1..]);
    }
  }

  lemma {:induction false} UniqueRunFrom(w: World, events: seq<Event>)
    requires Invariant(w) && UniqueVersions(w.rows)
    ensures UniqueVersions(Run(w, events).rows) <==> InsertsUpToDate(w, events)
    decreases |events|
  {
    if events == [] {
    } else {
      UniqueEvent(w, events[0]);
      InvariantStep(w, events[0]);
      hide UniqueVersions, Invariant, Next, UpToDate;
      if UniqueVersions(Next(w, events[0]).rows) {
        UniqueRunFrom(Next(w, events[0]), events[1..]);
      } else {
        CollisionsStay(Next(w, events[0]), events[1..]);
      }
    }
  }

  /** Under every interleaving each version is stored once exactly when every create inserted while its
      template had no row and every update while the row it read was still the latest. */
  lemma VersionsAreUniqueExactly(events: seq<Event>)
    ensures UniqueVersions(Run(START, events).rows) <==> InsertsUpToDate(START, events)
  {
    UniqueRunFrom(START, events);
  }

  /** Interleaved updates do collide: two that read the same latest row both insert its successor. */
  lemma InterleavedUpdatesCollide(w: World, r: Row, a: nat, b: nat)
    requires Invariant(w) && MayFind(w.rows, r.code, r.language, None, r) && a != b && a !in w.tasks && b !in w.tasks
    ensures var dto := UpdateDto(None, Some(r.language), None, None);
            var answer := Reply(r, "", {});
            var v := Run(w, [Start(a, UpdateRead(r.code, dto)), Start(b, UpdateRead(r.code, dto)),
                             Step(a, answer), Step(b, answer), Step(a, answer), Step(b, answer)]);
            v.rows == w.rows + [r.(version := r.version + 1)] + [r.(version := r.version + 1)]
  {
    var dto := UpdateDto(None, Some(r.language), None, None);
    var answer := Reply(r, "", {});
    var t0, t1 := UpdateRead(r.code, dto), UpdateInsert(r, dto);
    var i :| 0 <= i < |w.rows| && w.rows[i] == r;
    RunSix(w, Start(a, t0), Start(b, t0), Step(a, answer), Step(b, answer), Step(a, answer), Step(b, answer));
    assert GoodRow(r) && Exists(w.rows, r.code, r.language);
    assert Incoming(t0);
    hide Run, Invariant, Advance, MayFind, GoodRow;
    var w2 := Next(Next(w, Start(a, t0)), Start(b, t0));
    ReadStep(w2, r);
    var w3 := Next(w2, Step(a, answer));
    ReadStep(w3, r);
    var w4 := Next(w3, Step(b, answer));
    InsertStep(w4, r);
    var w5 := Next(w4, Step(a, answer));
    InsertStep(w5, r);
  }

  lemma ReadStep(w: World, r: Row)
    requires MayFind(w.rows, r.code, r.language, None, r) && Exists(w.rows, r.code, r.language) && GoodRow(r)
    ensures var dto := UpdateDto(None, Some(r.language), None, None);
            Advance(w, UpdateRead(r.code, dto), Reply(r, "", {})) == (w, UpdateInsert(r, dto))
  {
  }

  lemma InsertStep(w: World, r: Row)
    ensures var dto := UpdateDto(None, Some(r.language), None, None);
            var next := r.(version := r.version + 1);
            Advance(w, UpdateInsert(r, dto), Reply(r, "", {})) == (w.(rows := w.rows + [next]), UpdateKeys(next))
  {
  }

  /** So do interleaved creates: two that both found the template missing both insert version 1. */
  lemma InterleavedCreatesCollide(w: World, dto: CreateDto, a: nat, b: nat)
    requires Incoming(CreateCheck(dto)) && !Exists(w.rows, dto.code, dto.language)
    requires a != b && a !in w.tasks && b !in w.tasks
    ensures var r := InsertOf(CreateInsert(dto));
            var answer := Reply(r, "", {});
            var v := Run(w, [Start(a, CreateCheck(dto)), Start(b, CreateCheck(dto)),
                             Step(a, answer), Step(b, answer), Step(a, answer), Step(b, answer)]);
            r.version == 1 && v.rows == w.rows + [r] + [r]
  {
    var t0, t1 := CreateCheck(dto), CreateInsert(dto);
    var r := InsertOf(t1);
    var answer := Reply(r, "", {});
    RunSix(w, Start(a, t0), Start(b, t0), Step(a, answer), Step(b, answer), Step(a, answer), Step(b, answer));
    hide Run, Advance, Incoming, Exists;
    var w2 := Next(Next(w, Start(a, t0)), Start(b, t0));
    CreateSteps(w2, dto, answer);
    var w3 := Next(w2, Step(a, answer));
    CreateSteps(w3, dto, answer);
    var w4 := Next(w3, Step(b, answer));
    CreateSteps(w4, dto, answer);
    var w5 := Next(w4, Step(a, answer));
    CreateSteps(w5, dto, answer);
  }

  lemma CreateSteps(w: World, dto: CreateDto, a: Reply)
    ensures !Exists(w.rows, dto.code, dto.language) ==> Advance(w, CreateCheck(dto), a) == (w, CreateInsert(dto))
    ensures var r := InsertOf(CreateInsert(dto));
            Advance(w, CreateInsert(dto), a) == (w.(rows := w.rows + [r]), Caching(r, Keys(r)))
  {
  }

  lemma RunSix(w: World, a: Event, b: Event, c: Event, d: Event, e: Event, f: Event)
    ensures Run(w, [a, b, c, d, e, f]) == Next(Next(Next(Next(Next(Next(w, a), b), c), d), e), f)
  {
    hide Next;
    assert [a, b, c, d, e, f][1..] == [b, c, d, e, f] && [b, c, d, e, f][1..] == [c, d, e, f];
    assert [c, d, e, f][1..] == [d, e, f] && [d, e, f][1..] == [e, f] && [e, f][1..] == [f] && [f][1..] == [];
    var w3 := Next(Next(Next(w, a), b), c);
    assert Run(w, [a, b, c, d, e, f]) == Run(Next(w, a), [b, c, d, e, f]) == Run(Next(Next(w, a), b), [c, d, e, f]);
    assert Run(Next(Next(w, a), b), [c, d, e, f]) == Run(w3, [d, e, f]) == Run(Next(w3, d), [e, f]);
    assert Run(Next(w3, d), [e, f]) == Run(Next(Next(w3, d), e), [f]) == Run(Next(Next(Next(w3, d), e), f), []);
  }
}
