/** A request that runs alone: interleaved template-service does what the serial one does. */
module TemplateSerial {
  import opened Common
  import opened Redis
  import opened Extraction
  import opened TemplateKeys
  import TemplateStore
  import opened TemplateRace

  /** The entries of the serial cache that have not expired. */
  function Visible(s: TemplateStore.Store): map<string, Row> {
    map k | k in s.cache && Live(s.cache[k], s.now) :: s.cache[k].value
  }

  /** The two services hold the same rows and answer from the same entries. */
  predicate Mirrors(w: World, s: TemplateStore.Store) {
    w.rows == s.rows && w.cache == Visible(s)
  }

  function Put(cache: map<string, Row>, keys: set<string>, r: Row): map<string, Row> {
    cache + map k | k in keys :: r
  }

  /** A world with its rows, its cache and one task changed. */
  function World1(w: World, rows: seq<Row>, cache: map<string, Row>, id: nat, t: Task): World {
    World(rows, cache, w.tasks[id := t])
  }

  lemma {:induction false} RunConcat(w: World, a: seq<Event>, b: seq<Event>)
    ensures Run(w, a + b) == Run(Run(w, a), b)
    decreases |a|
  {
    if a == [] {
      assert a + b == b;
    } else {
      assert (a + b)[1..] == a[1..] + b;
      hide Next;
      RunConcat(Next(w, a[0]), a[1..], b);
    }
  }

  lemma OneEvent(w: World, e: Event)
    ensures Run(w, [e]) == Next(w, e)
  {
    assert [e][1..] == [];
    hide Next;
  }

  /** One step of a request, and then the rest of it. */
  lemma ThenRun(w: World, e: Event, rest: seq<Event>)
    ensures Run(w, [e] + rest) == Run(Next(w, e), rest)
  {
    assert ([e] + rest)[1..] == rest;
    hide Next;
  }

  lemma StepIs(w: World, id: nat, a: Reply)
    requires id in w.tasks
    ensures var (v, t) := Advance(w, w.tasks[id], a);
            Next(w, Step(id, a)) == v.(tasks := w.tasks[id := t])
  {
    hide Advance;
  }

  /** A step of the request under way. */
  lemma Stepped(w: World, rows: seq<Row>, cache: map<string, Row>, id: nat, t: Task, a: Reply, more: seq<Row>, u: Task)
    requires Advance(World1(w, rows, cache, id, t), t, a) == (World1(w, more, cache, id, t), u)
    ensures Next(World1(w, rows, cache, id, t), Step(id, a)) == World1(w, more, cache, id, u)
  {
    StepIs(World1(w, rows, cache, id, t), id, a);
    hide Advance;
    assert World1(w, rows, cache, id, t).tasks[id := u] == w.tasks[id := u];
  }

  /** The commands that fill the cache, one after the other. */
  lemma {:induction false} CachingRuns(w: World, id: nat, r: Row, keys: set<string>) returns (events: seq<Event>)
    requires id in w.tasks && w.tasks[id] == Caching(r, keys)
    ensures Run(w, events) == World1(w, w.rows, Put(w.cache, keys, r), id, Done)
    decreases |keys|
  {
    if keys == {} {
      var e := Step(id, Reply(r, "", {}));
      events := [e];
      OneEvent(w, e);
      assert Put(w.cache, {}, r) == w.cache;
    } else {
      var key :| key in keys;
      var e := Step(id, Reply(r, key, {}));
      var v := World1(w, w.rows, w.cache[key := r], id, Caching(r, keys - {key}));
      assert Next(w, e) == v;
      hide Next, Run, Put;
      var rest := CachingRuns(v, id, r, keys - {key});
      events := [e] + rest;
      ThenRun(w, e, rest);
      PutOne(w.cache, keys, key, r);
      assert v.tasks[id := Done] == w.tasks[id := Done];
    }
  }

  lemma PutOne(cache: map<string, Row>, keys: set<string>, key: string, r: Row)
    requires key in keys
    ensures Put(cache[key := r], keys - {key}, r) == Put(cache, keys, r)
  {
  }

  /** The commands that flush it, for an update and for a delete. */
  lemma {:induction false} UpdateFlushRuns(w: World, id: nat, r: Row, keys: set<string>) returns (events: seq<Event>)
    requires id in w.tasks && w.tasks[id] == UpdateDel(r, keys)
    ensures Run(w, events) == World1(w, w.rows, w.cache - keys, id, Caching(r, Keys(r)))
    decreases |keys|
  {
    if keys == {} {
      var e := Step(id, Reply(r, "", {}));
      events := [e];
      OneEvent(w, e);
      assert w.cache - {} == w.cache;
    } else {
      var key :| key in keys;
      var e := Step(id, Reply(r, key, {}));
      var v := World1(w, w.rows, w.cache - {key}, id, UpdateDel(r, keys - {key}));
      assert Next(w, e) == v;
      var rest := UpdateFlushRuns(v, id, r, keys - {key});
      events := [e] + rest;
      ThenRun(w, e, rest);
      assert v.cache - (keys - {key}) == w.cache - keys;
      assert v.tasks[id := Caching(r, Keys(r))] == w.tasks[id := Caching(r, Keys(r))];
    }
  }

  lemma {:induction false} DeleteFlushRuns(w: World, id: nat, any: Row, keys: set<string>) returns (events: seq<Event>)
    requires id in w.tasks && w.tasks[id] == DeleteDel(keys)
    ensures Run(w, events) == World1(w, w.rows, w.cache - keys, id, Done)
    decreases |keys|
  {
    if keys == {} {
      var e := Step(id, Reply(any, "", {}));
      events := [e];
      OneEvent(w, e);
      assert w.cache - {} == w.cache;
    } else {
      var key :| key in keys;
      var e := Step(id, Reply(any, key, {}));
      var v := World1(w, w.rows, w.cache - {key}, id, DeleteDel(keys - {key}));
      assert Next(w, e) == v;
      var rest := DeleteFlushRuns(v, id, any, keys - {key});
      events := [e] + rest;
      ThenRun(w, e, rest);
      assert v.cache - (keys - {key}) == w.cache - keys;
      assert v.tasks[id := Done] == w.tasks[id := Done];
    }
  }

  /** A task that has come to its cache commands, reached by `before`. */
  lemma FinishCaching(w: World, before: seq<Event>, rows: seq<Row>, cache: map<string, Row>, id: nat, r: Row)
    returns (events: seq<Event>)
    requires Run(w, before) == World1(w, rows, cache, id, Caching(r, Keys(r)))
    ensures Run(w, events) == World1(w, rows, Put(cache, Keys(r), r), id, Done)
  {
    var v := Run(w, before);
    var rest := CachingRuns(v, id, r, Keys(r));
    events := before + rest;
    RunConcat(w, before, rest);
    assert v.tasks[id := Done] == w.tasks[id := Done];
  }

  // ---------- the four requests ----------

  lemma CreateRuns(w: World, id: nat, dto: CreateDto) returns (events: seq<Event>)
    requires id !in w.tasks && Incoming(CreateCheck(dto))
    ensures var r := InsertOf(CreateInsert(dto));
            Run(w, events) ==
            if Exists(w.rows, dto.code, dto.language) then World1(w, w.rows, w.cache, id, Done)
            else World1(w, w.rows + [r], Put(w.cache, Keys(r), r), id, Done)
  {
    var r := InsertOf(CreateInsert(dto));
    var e0, e := Start(id, CreateCheck(dto)), Step(id, Reply(r, "", {}));
    var w1 := World1(w, w.rows, w.cache, id, CreateCheck(dto));
    assert Next(w, e0) == w1;
    if Exists(w.rows, dto.code, dto.language) {
      events := [e0] + [e];
      ThenRun(w, e0, [e]);
      OneEvent(w1, e);
      StepIs(w1, id, e.reply);
      assert w1.tasks[id := Done] == w.tasks[id := Done];
    } else {
      var w2 := World1(w, w.rows, w.cache, id, CreateInsert(dto));
      StepIs(w1, id, e.reply);
      assert w1.tasks[id := CreateInsert(dto)] == w2.tasks;
      var t := Caching(r, Keys(r));
      var w3 := World1(w, w.rows + [r], w.cache, id, t);
      StepIs(w2, id, e.reply);
      assert w2.tasks[id := t] == w3.tasks;
      hide Advance, Next, Incoming, Keys;
      ThenRun(w, e0, [e] + [e]);
      ThenRun(w1, e, [e]);
      OneEvent(w2, e);
      events := FinishCaching(w, [e0] + ([e] + [e]), w.rows + [r], w.cache, id, r);
    }
  }

  /** The row a read answers with, if there is one. */
  lemma FoundRow(rows: seq<Row>, code: string, language: string, version: Option<int>)
    ensures FindRow(rows, code, language, version).Some? ==>
              MayFind(rows, code, language, version, FindRow(rows, code, language, version).value)
    ensures FindRow(rows, code, language, version).None? ==> forall r :: !MayFind(rows, code, language, version, r)
    ensures Latest(rows, code, language).Some? <==> Exists(rows, code, language)
  {
    if Exists(rows, code, language) {
      var i :| 0 <= i < |rows| && Of(rows[i], code, language);
      assert rows[i] in rows;
    }
    if Latest(rows, code, language).Some? {
      var r := Latest(rows, code, language).value;
      var i :| 0 <= i < |rows| && rows[i] == r;
    }
  }

  lemma FindRuns(w: World, id: nat, code: string, language: string, version: Option<int>, any: Row)
    returns (events: seq<Event>)
    requires id !in w.tasks && Incoming(FindGet(code, language, version))
    ensures var row := FindRow(w.rows, code, language, version);
            Run(w, events) ==
            if CacheKey(code, language, TemplateStore.Part(version)) in w.cache || row.None?
            then World1(w, w.rows, w.cache, id, Done)
            else World1(w, w.rows, Put(w.cache, Keys(row.value), row.value), id, Done)
  {
    var row := FindRow(w.rows, code, language, version);
    FoundRow(w.rows, code, language, version);
    var r := if row.Some? then row.value else any;
    var e0, e := Start(id, FindGet(code, language, version)), Step(id, Reply(r, "", {}));
    var w1 := World1(w, w.rows, w.cache, id, FindGet(code, language, version));
    assert Next(w, e0) == w1;
    StepIs(w1, id, e.reply);
    if CacheKey(code, language, TemplateStore.Part(version)) in w.cache {
      assert w1.tasks[id := Done] == w.tasks[id := Done];
      hide Advance, Next, FindRow, MayFind;
      events := [e0] + [e];
      ThenRun(w, e0, [e]);
      OneEvent(w1, e);
    } else {
      var w2 := World1(w, w.rows, w.cache, id, FindRead(code, language, version));
      assert w1.tasks[id := FindRead(code, language, version)] == w2.tasks;
      StepIs(w2, id, e.reply);
      var t := if row.Some? then Caching(r, Keys(r)) else Done;
      assert w2.tasks[id := t] == w.tasks[id := t];
      assert Advance(w2, FindRead(code, language, version), e.reply) == (w2, t);
      hide Advance, Next, FindRow, MayFind, Keys, Incoming;
      ThenRun(w, e0, [e] + [e]);
      ThenRun(w1, e, [e]);
      OneEvent(w2, e);
      if row.Some? {
        events := FinishCaching(w, [e0] + ([e] + [e]), w.rows, w.cache, id, r);
      } else {
        events := [e0] + ([e] + [e]);
      }
    }
  }

  lemma DeleteRuns(w: World, id: nat, code: string, language: string, keys: set<string>, any: Row)
    returns (events: seq<Event>)
    requires id !in w.tasks && Incoming(DeleteRead(code, language))
    ensures Run(w, events) ==
            World1(w, w.rows, if Exists(w.rows, code, language) then w.cache - keys else w.cache, id, Done)
  {
    var e0, e := Start(id, DeleteRead(code, language)), Step(id, Reply(any, "", keys));
    var w1 := World1(w, w.rows, w.cache, id, DeleteRead(code, language));
    assert Next(w, e0) == w1;
    StepIs(w1, id, e.reply);
    if Exists(w.rows, code, language) {
      var w2 := World1(w, w.rows, w.cache, id, DeleteKeys(code, language));
      assert w1.tasks[id := DeleteKeys(code, language)] == w2.tasks;
      StepIs(w2, id, e.reply);
      var w3 := World1(w, w.rows, w.cache, id, DeleteDel(keys));
      assert w2.tasks[id := DeleteDel(keys)] == w3.tasks;
      hide Advance, Next, Incoming, Exists;
      ThenRun(w, e0, [e] + [e]);
      ThenRun(w1, e, [e]);
      OneEvent(w2, e);
      var rest := DeleteFlushRuns(w3, id, any, keys);
      events := [e0] + ([e] + [e]) + rest;
      RunConcat(w, [e0] + ([e] + [e]), rest);
      assert w3.tasks[id := Done] == w.tasks[id := Done];
    } else {
      assert w1.tasks[id := Done] == w.tasks[id := Done];
      hide Advance, Next, Incoming, Exists;
      events := [e0] + [e];
      ThenRun(w, e0, [e]);
      OneEvent(w1, e);
    }
  }

  /** What an update makes of the rows, if it is accepted. */
  function Updated(rows: seq<Row>, code: string, dto: UpdateDto): Option<Row> {
    var language := OrElse(dto.language, "en");
    var latest := Latest(rows, code, language);
    if latest.None? then None
    else
      var row := TemplateStore.NextRow(latest.value, language, dto);
      if Declared(row.content, row.variables) then Some(row) else None
  }

  lemma UpdateReads(w: World, code: string, dto: UpdateDto, any: Row, keys: set<string>)
    ensures var language := OrElse(dto.language, "en");
            var latest := Latest(w.rows, code, language);
            var a := Reply(if latest.Some? then latest.value else any, "", keys);
            Advance(w, UpdateRead(code, dto), a) ==
            (w, if Updated(w.rows, code, dto).Some? then UpdateInsert(latest.value, dto) else Done)
  {
    FoundRow(w.rows, code, OrElse(dto.language, "en"), None);
  }

  lemma UpdateInserts(w: World, code: string, dto: UpdateDto, a: Reply)
    requires Updated(w.rows, code, dto).Some?
    ensures var seen := Latest(w.rows, code, OrElse(dto.language, "en")).value;
            var r := Updated(w.rows, code, dto).value;
            Advance(w, UpdateInsert(seen, dto), a) == (w.(rows := w.rows + [r]), UpdateKeys(r))
  {
  }

  lemma UpdateRuns(w: World, id: nat, code: string, dto: UpdateDto, keys: set<string>, any: Row)
    returns (events: seq<Event>)
    requires id !in w.tasks && Incoming(UpdateRead(code, dto))
    ensures var row := Updated(w.rows, code, dto);
            Run(w, events) ==
            if row.None? then World1(w, w.rows, w.cache, id, Done)
            else World1(w, w.rows + [row.value], Put(w.cache - keys, Keys(row.value), row.value), id, Done)
  {
    var latest := Latest(w.rows, code, OrElse(dto.language, "en"));
    var row := Updated(w.rows, code, dto);
    var a := Reply(if latest.Some? then latest.value else any, "", keys);
    var e0, e := Start(id, UpdateRead(code, dto)), Step(id, a);
    var w1 := World1(w, w.rows, w.cache, id, UpdateRead(code, dto));
    assert Next(w, e0) == w1;
    UpdateReads(w1, code, dto, any, keys);
    if row.None? {
      hide Advance, Next, Incoming, Updated;
      Stepped(w, w.rows, w.cache, id, UpdateRead(code, dto), a, w.rows, Done);
      events := [e0] + [e];
      ThenRun(w, e0, [e]);
      OneEvent(w1, e);
    } else {
      var r := row.value;
      UpdateInserts(World1(w, w.rows, w.cache, id, UpdateInsert(latest.value, dto)), code, dto, a);
      UpdateAnswers(World1(w, w.rows + [r], w.cache, id, UpdateKeys(r)), r, a);
      hide Advance, Next, Incoming, Updated, Latest;
      Stepped(w, w.rows, w.cache, id, UpdateRead(code, dto), a, w.rows, UpdateInsert(latest.value, dto));
      Stepped(w, w.rows, w.cache, id, UpdateInsert(latest.value, dto), a, w.rows + [r], UpdateKeys(r));
      Stepped(w, w.rows + [r], w.cache, id, UpdateKeys(r), a, w.rows + [r], UpdateDel(r, keys));
      hide World1;
      ThenRun(w, e0, [e] + ([e] + [e]));
      ThenRun(w1, e, [e] + [e]);
      ThenRun(World1(w, w.rows, w.cache, id, UpdateInsert(latest.value, dto)), e, [e]);
      OneEvent(World1(w, w.rows + [r], w.cache, id, UpdateKeys(r)), e);
      events := FlushAndCache(w, [e0] + ([e] + ([e] + [e])), w.rows + [r], id, r, keys);
    }
  }

  lemma UpdateAnswers(w: World, r: Row, a: Reply)
    ensures Advance(w, UpdateKeys(r), a) == (w, UpdateDel(r, a.keys))
  {
  }

  /** An update that has its keys, reached by `before`. */
  lemma FlushAndCache(w: World, before: seq<Event>, rows: seq<Row>, id: nat, r: Row, keys: set<string>)
    returns (events: seq<Event>)
    requires Run(w, before) == World1(w, rows, w.cache, id, UpdateDel(r, keys))
    ensures Run(w, events) == World1(w, rows, Put(w.cache - keys, Keys(r), r), id, Done)
  {
    var v := Run(w, before);
    var flush := UpdateFlushRuns(v, id, r, keys);
    RunConcat(w, before, flush);
    assert v.tasks[id := Caching(r, Keys(r))] == w.tasks[id := Caching(r, Keys(r))];
    events := FinishCaching(w, before + flush, rows, w.cache - keys, id, r);
  }

  // ---------- the serial service ----------

  lemma CachedVisible(s: TemplateStore.Store, r: Row)
    ensures Visible(TemplateStore.Cached(s, r)) == Put(Visible(s), Keys(r), r)
  {
  }

  lemma InvalidatedVisible(s: TemplateStore.Store, keys: set<string>)
    ensures Visible(TemplateStore.Invalidated(s, keys)) == Visible(s) - keys
  {
  }

  /** The tasks of the other requests stand where they stood, and this one, if it began, is done. */
  predicate OnlyDone(w: World, v: World, id: nat) {
    && (forall i | i in w.tasks :: i in v.tasks && v.tasks[i] == w.tasks[i])
    && (forall i | i in v.tasks :: i in w.tasks || (i == id && v.tasks[i] == Done))
  }

  /** From worlds that mirror each other, a request of which no other interrupts the steps leaves worlds
      that mirror each other again. */
  lemma ServedAlone(w: World, s: TemplateStore.Store, id: nat, op: TemplateStore.Op, any: Row) returns (events: seq<Event>)
    requires Mirrors(w, s) && id !in w.tasks && TemplateStore.Named(op) && !op.DoTick?
    ensures Mirrors(Run(w, events), TemplateStore.Apply(s, op)) && OnlyDone(w, Run(w, events), id)
  {
    match op
    case DoCreate(dto) => events := CreateServed(w, s, id, dto);
    case DoUpdate(code, dto, keys) => events := UpdateServed(w, s, id, code, dto, keys, any);
    case DoFind(code, language, version) => events := FindServed(w, s, id, code, language, version, any);
    case DoDelete(code, language, keys) => events := DeleteServed(w, s, id, code, language, keys, any);
  }

  lemma CreateServed(w: World, s: TemplateStore.Store, id: nat, dto: CreateDto) returns (events: seq<Event>)
    requires Mirrors(w, s) && id !in w.tasks && ColonFree(dto.code) && ColonFree(dto.language)
    ensures Mirrors(Run(w, events), TemplateStore.Create(s, dto).0) && OnlyDone(w, Run(w, events), id)
  {
    CreateMirrored(s, dto);
    if Declared(dto.content, dto.variables) {
      events := CreateRuns(w, id, dto);
    } else {
      events := [];
    }
    hide Run, TemplateStore.Create, Keys, Put, Visible;
  }

  lemma UpdateServed(w: World, s: TemplateStore.Store, id: nat, code: string, dto: UpdateDto, keys: set<string>, any: Row)
    returns (events: seq<Event>)
    requires Mirrors(w, s) && id !in w.tasks && Incoming(UpdateRead(code, dto))
    ensures Mirrors(Run(w, events), TemplateStore.Update(s, code, dto, keys).0) && OnlyDone(w, Run(w, events), id)
  {
    UpdateMirrored(s, code, dto, keys);
    events := UpdateRuns(w, id, code, dto, keys, any);
    hide Run, TemplateStore.Update, Updated, Keys, Put, Visible;
  }

  lemma FindServed(w: World, s: TemplateStore.Store, id: nat, code: string, language: string, version: Option<int>, any: Row)
    returns (events: seq<Event>)
    requires Mirrors(w, s) && id !in w.tasks && Incoming(FindGet(code, language, version))
    ensures Mirrors(Run(w, events), TemplateStore.FindOne(s, code, language, version).0) && OnlyDone(w, Run(w, events), id)
  {
    FindMirrored(s, code, language, version);
    events := FindRuns(w, id, code, language, version, any);
    hide Run, TemplateStore.FindOne, Keys, Put, Visible, FindRow, CacheKey;
  }

  lemma DeleteServed(w: World, s: TemplateStore.Store, id: nat, code: string, language: string, keys: set<string>, any: Row)
    returns (events: seq<Event>)
    requires Mirrors(w, s) && id !in w.tasks && Incoming(DeleteRead(code, language))
    ensures Mirrors(Run(w, events), TemplateStore.Delete(s, code, language, keys).0) && OnlyDone(w, Run(w, events), id)
  {
    DeleteMirrored(s, code, language, keys);
    events := DeleteRuns(w, id, code, language, keys, any);
    hide Run, TemplateStore.Delete, Visible;
  }

  lemma CreateMirrored(s: TemplateStore.Store, dto: CreateDto)
    ensures var t, r := TemplateStore.Create(s, dto).0, InsertOf(CreateInsert(dto));
            if Declared(dto.content, dto.variables) && !Exists(s.rows, dto.code, dto.language)
            then t.rows == s.rows + [r] && Visible(t) == Put(Visible(s), Keys(r), r)
            else t == s
  {
    var r := InsertOf(CreateInsert(dto));
    CachedVisible(s.(rows := s.rows + [r]), r);
  }

  lemma UpdateMirrored(s: TemplateStore.Store, code: string, dto: UpdateDto, keys: set<string>)
    ensures var t, row := TemplateStore.Update(s, code, dto, keys).0, Updated(s.rows, code, dto);
            if row.Some?
            then t.rows == s.rows + [row.value] && Visible(t) == Put(Visible(s) - keys, Keys(row.value), row.value)
            else t == s
  {
    var row := Updated(s.rows, code, dto);
    if row.Some? {
      var s1 := s.(rows := s.rows + [row.value]);
      InvalidatedVisible(s1, keys);
      CachedVisible(TemplateStore.Invalidated(s1, keys), row.value);
      assert Visible(s1) == Visible(s);
    }
  }

  lemma FindMirrored(s: TemplateStore.Store, code: string, language: string, version: Option<int>)
    ensures var t, row := TemplateStore.FindOne(s, code, language, version).0, FindRow(s.rows, code, language, version);
            && t.rows == s.rows
            && Visible(t) == if CacheKey(code, language, TemplateStore.Part(version)) in Visible(s) || row.None?
                             then Visible(s) else Put(Visible(s), Keys(row.value), row.value)
  {
    var row := FindRow(s.rows, code, language, version);
    if row.Some? {
      CachedVisible(s, row.value);
    }
  }

  lemma DeleteMirrored(s: TemplateStore.Store, code: string, language: string, keys: set<string>)
    ensures var t := TemplateStore.Delete(s, code, language, keys).0;
            t.rows == s.rows && Visible(t) == if Exists(s.rows, code, language) then Visible(s) - keys else Visible(s)
  {
    FoundRow(s.rows, code, language, None);
    InvalidatedVisible(s, keys);
  }
}
