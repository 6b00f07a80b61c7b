/** template-service: templates with versions and a write-through cache, one request
    after the other. */
module TemplateStore {
  import opened Common
  import opened Redis
  import opened Extraction
  import opened TemplateKeys

  const CACHE_TTL := 3600

  datatype Error = BadRequest | NotFound

  /** The table, the cache and the clock. */
  datatype Store = Store(rows: seq<Row>, cache: map<string, Entry<Row>>, now: nat)

  function Cached(s: Store, r: Row): Store {
    s.(cache := s.cache[LatestKey(r) := For(r, CACHE_TTL, s.now)][VersionKey(r) := For(r, CACHE_TTL, s.now)])
  }

  /** The cache without the keys that KEYS answered. */
  function Invalidated(s: Store, keys: set<string>): Store {
    s.(cache := s.cache - keys)
  }

  function Create(s: Store, dto: CreateDto): (Store, Result<Row, Error>) {
    if !Declared(dto.content, dto.variables) then (s, Err(BadRequest))
    else if Exists(s.rows, dto.code, dto.language) then (s, Err(BadRequest))
    else
      var row := Row(dto.code, dto.kind, dto.language, 1, dto.content, dto.variables);
      (Cached(s.(rows := s.rows + [row]), row), Ok(row))
  }

  function NextRow(latest: Row, language: string, dto: UpdateDto): Row {
    Row(latest.code, OrElse(dto.kind, latest.kind), language, latest.version + 1,
        OrElse(dto.content, latest.content), OrElse(dto.variables, latest.variables))
  }

  function Update(s: Store, code: string, dto: UpdateDto, keys: set<string>): (Store, Result<Row, Error>) {
    var language := OrElse(dto.language, "en");
    var latest := Latest(s.rows, code, language);
    if latest.None? then (s, Err(NotFound))
    else
      var row := NextRow(latest.value, language, dto);
      if !Declared(row.content, row.variables) then (s, Err(BadRequest))
      else (Cached(Invalidated(s.(rows := s.rows + [row]), keys), row), Ok(row))
  }

  function Part(version: Option<int>): string {
    if version.Some? then VersionText(version.value) else "latest"
  }

  function Hit(s: Store, code: string, language: string, version: Option<int>): Option<Row> {
    Lookup(s.cache, CacheKey(code, language, Part(version)), s.now)
  }

  function FindOne(s: Store, code: string, language: string, version: Option<int>): (Store, Result<Row, Error>) {
    var hit := Hit(s, code, language, version);
    if hit.Some? then (s, Ok(hit.value))
    else
      var row := FindRow(s.rows, code, language, version);
      if row.None? then (s, Err(NotFound)) else (Cached(s, row.value), Ok(row.value))
  }

  function Delete(s: Store, code: string, language: string, keys: set<string>): (Store, Result<(), Error>) {
    if Latest(s.rows, code, language).None? then (s, Err(NotFound))
    else (Invalidated(s, keys), Ok(()))
  }

  /** What `create` answers. */
  lemma CreateAnswer(s: Store, dto: CreateDto)
    ensures var (t, r) := Create(s, dto);
            && (r.Ok? <==> (forall n | n in NamesIn(dto.content) :: n in dto.variables) && !Exists(s.rows, dto.code, dto.language))
            && (r.Ok? ==> FirstRow(r.value, dto) && t.rows == s.rows + [r.value])
            && (r.Err? ==> t == s)
  {
    AcceptedExactly(dto.content, dto.variables);
  }

  /** What `update` answers: the row before is the latest of the language asked for, English by default. */
  lemma UpdateAnswer(s: Store, code: string, dto: UpdateDto, keys: set<string>)
    ensures forall language | Language(dto, language) ::
              var (t, r) := Update(s, code, dto, keys);
              var latest := Latest(s.rows, code, language);
              && (r == Err(NotFound) <==> latest.None?)
              && (r.Ok? <==> latest.Some? && Acceptable(latest.value, dto))
              && (r.Ok? ==> Supersedes(r.value, latest.value, language, dto) && t.rows == s.rows + [r.value])
              && (r.Err? ==> t == s)
  {
    var latest := Latest(s.rows, code, OrElse(dto.language, "en"));
    if latest.Some? {
      var row := NextRow(latest.value, OrElse(dto.language, "en"), dto);
      AcceptedExactly(row.content, row.variables);
    }
  }

  // ---------- the service ----------

  class TemplatesService {
    var rows: seq<Row>
    var cache: map<string, Entry<Row>>
    var now: nat

    constructor ()
      ensures State() == Store([], map[], 0)
    {
      rows, cache, now := [], map[], 0;
    }

    function State(): Store
      reads this
    {
      Store(rows, cache, now)
    }

    method CacheTemplate(template: Row)
      modifies this`cache
      ensures State() == Cached(old(State()), template)
      ensures cache == old(cache)[LatestKey(template) := For(template, 3600, now)][VersionKey(template) := For(template, 3600, now)]
    {
      cache := cache[LatestKey(template) := For(template, CACHE_TTL, now)];
      cache := cache[VersionKey(template) := For(template, CACHE_TTL, now)];
    }

    /** The KEYS command, for the pattern of a template.  An entry that has expired may be in the answer
        or not: no reading tells the difference. */
    method Keys(code: string, language: string) returns (keys: set<string>)
      ensures KeysAnswer(keys, cache.Keys, code, language)
    {
      if Plain(code) && Plain(language) {
        keys := set k | k in cache && Prefix(code, language) <= k;
      } else {
        keys :| keys <= cache.Keys;
      }
    }

    method InvalidateCache(code: string, language: string) returns (ghost matching: set<string>)
      modifies this`cache
      ensures KeysAnswer(matching, old(cache).Keys, code, language)
      ensures State() == Invalidated(old(State()), matching)
      ensures cache == old(cache) - matching
    {
      var keys := Keys(code, language);
      matching := keys;
      while keys != {}
        invariant keys <= matching
        invariant cache == old(cache) - (matching - keys)
      {
        var key :| key in keys;
        cache := cache - {key};
        keys := keys - {key};
      }
    }

    method CreateTemplate(dto: CreateDto) returns (r: Result<Row, Error>)
      modifies this
      ensures (State(), r) == Create(old(State()), dto)
      ensures r.Ok? <==> (forall n | n in NamesIn(dto.content) :: n in dto.variables) && !Exists(old(rows), dto.code, dto.language)
      ensures r.Ok? ==> FirstRow(r.value, dto) && rows == old(rows) + [r.value]
      ensures r.Ok? ==> forall k | k in {LatestKey(r.value), VersionKey(r.value)} :: Lookup(cache, k, now) == Some(r.value)
      ensures r.Err? ==> r.error == BadRequest && State() == old(State())
    {
      var validation := ValidateVariables(dto.content, dto.variables);
      AcceptedExactly(dto.content, dto.variables);
      if !validation.isValid {
        return Err(BadRequest);
      }
      if Exists(rows, dto.code, dto.language) {
        return Err(BadRequest);
      }
      var template := Row(dto.code, dto.kind, dto.language, 1, dto.content, dto.variables);
      rows := rows + [template];
      CacheTemplate(template);
      return Ok(template);
    }

    method UpdateTemplate(code: string, dto: UpdateDto) returns (r: Result<Row, Error>, ghost keys: set<string>)
      modifies this
      ensures KeysAnswer(keys, old(cache).Keys, code, OrElse(dto.language, "en"))
      ensures (State(), r) == Update(old(State()), code, dto, keys)
      ensures forall language | Language(dto, language) ::
                var latest := Latest(old(rows), code, language);
                && (r == Err(NotFound) <==> latest.None?)
                && (r.Ok? <==> latest.Some? && Acceptable(latest.value, dto))
                && (r.Ok? ==> Supersedes(r.value, latest.value, language, dto) && rows == old(rows) + [r.value])
      ensures r.Err? ==> State() == old(State())
      ensures r.Ok? ==> forall k | k in old(cache) && k !in keys && k != LatestKey(r.value) && k != VersionKey(r.value) ::
                          k in cache && cache[k] == old(cache)[k]
      ensures r.Ok? ==> forall k | k in cache && k in keys :: k == LatestKey(r.value) || k == VersionKey(r.value)
      ensures r.Ok? ==> forall k | k in {LatestKey(r.value), VersionKey(r.value)} :: Lookup(cache, k, now) == Some(r.value)
    {
      UpdateAnswer(State(), code, dto, {});
      keys := set k | k in cache && Prefix(code, OrElse(dto.language, "en")) <= k;
      var language := OrElse(dto.language, "en");
      var latest := FindRow(rows, code, language, None);
      if latest.None? {
        return Err(NotFound), keys;
      }
      var updatedContent := OrElse(dto.content, latest.value.content);
      var updatedVariables := OrElse(dto.variables, latest.value.variables);
      var validation := ValidateVariables(updatedContent, updatedVariables);
      if !validation.isValid {
        return Err(BadRequest), keys;
      }
      var template := Row(latest.value.code, OrElse(dto.kind, latest.value.kind), language,
                          latest.value.version + 1, updatedContent, updatedVariables);
      rows := rows + [template];
      keys := InvalidateCache(code, language);
      CacheTemplate(template);
      return Ok(template), keys;
    }

    method Find(code: string, language: string, version: Option<int>) returns (r: Result<Row, Error>)
      modifies this`cache
      ensures (State(), r) == FindOne(old(State()), code, language, version)
    {
      var cacheKey := CacheKey(code, language, if version.Some? then VersionText(version.value) else "latest");
      var cached := Lookup(cache, cacheKey, now);
      if cached.Some? {
        return Ok(cached.value);
      }
      var template := FindRow(rows, code, language, version);
      if template.None? {
        return Err(NotFound);
      }
      CacheTemplate(template.value);
      return Ok(template.value);
    }

    method Remove(code: string, language: string) returns (r: Result<(), Error>, ghost keys: set<string>)
      modifies this`cache
      ensures KeysAnswer(keys, old(cache).Keys, code, language)
      ensures (State(), r) == Delete(old(State()), code, language, keys)
      ensures rows == old(rows) && (r.Ok? <==> Exists(rows, code, language))
      ensures cache == if r.Ok? then old(cache) - keys else old(cache)
    {
      keys := set k | k in cache && Prefix(code, language) <= k;
      var template := FindRow(rows, code, language, None);
      if template.None? {
        return Err(NotFound), keys;
      }
      keys := InvalidateCache(code, language);
      return Ok(()), keys;
    }

    method Tick(ms: nat)
      modifies this`now
      ensures State() == old(State()).(now := old(now) + ms)
    {
      now := now + ms;
    }
  }

  // ---------- what every run keeps ----------

  /** A request; an update and a delete with what KEYS answered in them. */
  datatype Op =
    | DoCreate(cdto: CreateDto)
    | DoUpdate(code: string, udto: UpdateDto, keys: set<string>)
    | DoFind(code: string, language: string, version: Option<int>)
    | DoDelete(code: string, language: string, keys: set<string>)
    | DoTick(ms: nat)

  function Apply(s: Store, op: Op): Store {
    match op
    case DoCreate(dto) => Create(s, dto).0
    case DoUpdate(code, dto, keys) => Update(s, code, dto, keys).0
    case DoFind(code, language, version) => FindOne(s, code, language, version).0
    case DoDelete(code, language, keys) => Delete(s, code, language, keys).0
    case DoTick(ms) => s.(now := s.now + ms)
  }

  function Run(s: Store, ops: seq<Op>): Store
    decreases |ops|
  {
    if ops == [] then s else Run(Apply(s, ops[0]), ops[1..])
  }

  /** The names a request brings in. */
  predicate Named(op: Op) {
    match op
    case DoCreate(dto) => ColonFree(dto.code) && ColonFree(dto.language)
    case DoUpdate(code, dto, _) => ColonFree(code) && ColonFree(OrElse(dto.language, "en"))
    case DoFind(code, language, _) => ColonFree(code) && ColonFree(language)
    case DoDelete(code, language, _) => ColonFree(code) && ColonFree(language)
    case DoTick(_) => true
  }

  /** Each row's version is its place among the rows of its template, its names hold no colon, and its
      placeholders are declared. */
  predicate GoodRows(rows: seq<Row>) {
    forall i | 0 <= i < |rows| ::
      var r := rows[i];
      && r.version == |RowsOf(rows[..i], r.code, r.language)| + 1
      && ColonFree(r.code) && ColonFree(r.language) && Declared(r.content, r.variables)
  }

  /** Every cache entry is a stored row under one of its keys. */
  predicate GoodCache(s: Store) {
    forall k | k in s.cache :: s.cache[k].value in s.rows && KeyFits(k, s.cache[k].value)
  }

  lemma AddRow(rows: seq<Row>, r: Row)
    requires GoodRows(rows) && ColonFree(r.code) && ColonFree(r.language) && Declared(r.content, r.variables)
    requires r.version == |RowsOf(rows, r.code, r.language)| + 1
    ensures GoodRows(rows + [r])
  {
    forall i | 0 <= i < |rows + [r]|
      ensures var q := (rows + [r])[i];
              && q.version == |RowsOf((rows + [r])[..i], q.code, q.language)| + 1
              && ColonFree(q.code) && ColonFree(q.language) && Declared(q.content, q.variables)
    {
      assert (rows + [r])[..i] == rows[..i];
      assert rows[..|rows|] == rows;
    }
  }

  /** In serial runs the greatest version is the number of rows. */
  lemma {:induction false} LatestIsCount(rows: seq<Row>, code: string, language: string)
    requires GoodRows(rows)
    ensures var latest := Latest(rows, code, language);
            && (latest.None? <==> RowsOf(rows, code, language) == [])
            && (latest.Some? ==> latest.value.version == |RowsOf(rows, code, language)|)
  {
    if rows == [] {
    } else {
      var init := rows[..|rows| - 1];
      assert GoodRows(init) by {
        forall i | 0 <= i < |init| ensures init[..i] == rows[..i] && init[i] == rows[i] {}
      }
      LatestIsCount(init, code, language);
    }
  }

  lemma CachedGood(s: Store, r: Row)
    requires GoodCache(s) && r in s.rows
    ensures GoodCache(Cached(s, r))
  {
  }

  lemma MoreRowsGood(s: Store, r: Row)
    requires GoodCache(s)
    ensures GoodCache(s.(rows := s.rows + [r]))
  {
  }

  lemma InvalidatedGood(s: Store, keys: set<string>)
    requires GoodCache(s)
    ensures GoodCache(Invalidated(s, keys))
  {
  }

  lemma GoodStep(s: Store, op: Op)
    requires GoodRows(s.rows) && GoodCache(s) && Named(op)
    ensures GoodRows(Apply(s, op).rows) && GoodCache(Apply(s, op))
  {
    hide GoodRows, GoodCache, Cached, Invalidated;
    match op
    case DoCreate(dto) =>
      if Create(s, dto).1.Ok? {
        var row := Create(s, dto).1.value;
        LatestIsCount(s.rows, dto.code, dto.language);
        AddRow(s.rows, row);
        MoreRowsGood(s, row);
        CachedGood(s.(rows := s.rows + [row]), row);
        RowsUntouched(s.(rows := s.rows + [row]), row, {});
      }
    case DoUpdate(code, dto, keys) =>
      if Update(s, code, dto, keys).1.Ok? {
        var language := OrElse(dto.language, "en");
        var row := Update(s, code, dto, keys).1.value;
        LatestIsCount(s.rows, code, language);
        AddRow(s.rows, row);
        var t := s.(rows := s.rows + [row]);
        MoreRowsGood(s, row);
        InvalidatedGood(t, keys);
        RowsUntouched(t, row, keys);
        CachedGood(Invalidated(t, keys), row);
        RowsUntouched(Invalidated(t, keys), row, {});
      }
    case DoFind(code, language, version) =>
      var row := FindRow(s.rows, code, language, version);
      if row.Some? {
        CachedGood(s, row.value);
        RowsUntouched(s, row.value, {});
      }
    case DoDelete(_, _, keys) =>
      InvalidatedGood(s, keys);
      RowsUntouched(s, Row("", "", "", 0, Null, []), keys);
    case DoTick(ms) =>
      assert GoodCache(s.(now := s.now + ms)) by { TickGood(s, ms); }
  }

  lemma RowsUntouched(s: Store, r: Row, keys: set<string>)
    ensures Cached(s, r).rows == s.rows && Invalidated(s, keys).rows == s.rows
    ensures Cached(s, r).now == s.now && Invalidated(s, keys).now == s.now
  {
  }

  lemma TickGood(s: Store, ms: nat)
    requires GoodCache(s)
    ensures GoodCache(s.(now := s.now + ms))
  {
  }

  predicate AllNamed(ops: seq<Op>) {
    forall i | 0 <= i < |ops| :: Named(ops[i])
  }

  lemma {:induction false} GoodRun(s: Store, ops: seq<Op>)
    requires GoodRows(s.rows) && GoodCache(s) && AllNamed(ops)
    ensures GoodRows(Run(s, ops).rows) && GoodCache(Run(s, ops))
    decreases |ops|
  {
    if ops == [] {
    } else {
      GoodStep(s, ops[0]);
      hide GoodRows, GoodCache, Apply;
      GoodRun(Apply(s, ops[0]), ops[1..]);
    }
  }

  const EMPTY := Store([], map[], 0)

  lemma GoodPrefix(rows: seq<Row>)
    requires GoodRows(rows) && rows != []
    ensures GoodRows(rows[..|rows| - 1])
  {
    var init := rows[..|rows| - 1];
    forall k | 0 <= k < |init| ensures init[..k] == rows[..k] && init[k] == rows[k] {}
  }

  lemma {:induction false} PlaceBounds(rows: seq<Row>, i: nat)
    requires GoodRows(rows) && i < |rows|
    ensures var r := rows[i]; 1 <= r.version <= |RowsOf(rows, r.code, r.language)|
  {
    if i < |rows| - 1 {
      GoodPrefix(rows);
      hide GoodRows;
      PlaceBounds(rows[..|rows| - 1], i);
    }
  }

  /** Later rows of a template have greater versions. */
  lemma PlaceOrder(rows: seq<Row>, j: nat, i: nat)
    requires GoodRows(rows) && j < i < |rows| && Of(rows[j], rows[i].code, rows[i].language)
    ensures rows[j].version < rows[i].version
  {
    var init := rows[..i];
    assert GoodRows(init) by {
      forall k | 0 <= k < |init| ensures init[..k] == rows[..k] && init[k] == rows[k] {}
    }
    PlaceBounds(init, j);
    assert init[j] == rows[j];
  }

  predicate HasVersion(rows: seq<Row>, code: string, language: string, v: nat) {
    exists r :: r in rows && Of(r, code, language) && r.version == v
  }

  lemma {:induction false} EveryVersion(rows: seq<Row>, code: string, language: string, v: nat)
    requires GoodRows(rows) && 1 <= v <= |RowsOf(rows, code, language)|
    ensures HasVersion(rows, code, language, v)
  {
    var n := |rows| - 1;
    var init := rows[..n];
    GoodPrefix(rows);
    assert rows[n].version == |RowsOf(init, rows[n].code, rows[n].language)| + 1;
    hide GoodRows;
    if v <= |RowsOf(init, code, language)| {
      EveryVersion(init, code, language, v);
    } else {
      assert rows[n] in rows;
    }
  }

  lemma VersionBounds(rows: seq<Row>, code: string, language: string, v: nat)
    requires GoodRows(rows)
    ensures HasVersion(rows, code, language, v) <==> 1 <= v <= |RowsOf(rows, code, language)|
  {
    if HasVersion(rows, code, language, v) {
      var r :| r in rows && Of(r, code, language) && r.version == v;
      var i :| 0 <= i < |rows| && rows[i] == r;
      PlaceBounds(rows, i);
    } else if 1 <= v <= |RowsOf(rows, code, language)| {
      EveryVersion(rows, code, language, v);
    }
  }

  /** In every serial run the versions of a template are 1, 2, ... without gap, each once, in the order
      of creation, and every stored template has its placeholders declared. */
  lemma VersionsAreSerial(ops: seq<Op>, code: string, language: string)
    requires AllNamed(ops)
    ensures var rows := Run(EMPTY, ops).rows;
            && (forall v: nat :: HasVersion(rows, code, language, v) <==> 1 <= v <= |RowsOf(rows, code, language)|)
            && (forall i, j | 0 <= i < j < |rows| && Of(rows[i], code, language) && Of(rows[j], code, language) ::
                  rows[i].version < rows[j].version)
            && (forall r | r in rows :: Declared(r.content, r.variables))
  {
    GoodRun(EMPTY, ops);
    var rows := Run(EMPTY, ops).rows;
    assert forall r | r in rows :: Declared(r.content, r.variables);
    hide GoodRows, RowsOf, Run, Declared;
    forall v: nat ensures HasVersion(rows, code, language, v) <==> 1 <= v <= |RowsOf(rows, code, language)| {
      VersionBounds(rows, code, language, v);
    }
    forall i, j | 0 <= i < j < |rows| && Of(rows[i], code, language) && Of(rows[j], code, language)
      ensures rows[i].version < rows[j].version
    {
      PlaceOrder(rows, i, j);
    }
  }

  // ---------- when the cache tells the truth ----------

  function DirectRead(s: Store, code: string, language: string, version: Option<int>): Result<Row, Error> {
    var row := FindRow(s.rows, code, language, version);
    if row.None? then Err(NotFound) else Ok(row.value)
  }

  /** The `latest` entry, if it is live, holds the greatest version. */
  predicate Fresh(s: Store, code: string, language: string) {
    var hit := Hit(s, code, language, None);
    hit.Some? ==> hit == Latest(s.rows, code, language)
  }

  lemma SameVersionSameRow(rows: seq<Row>, a: Row, b: Row)
    requires GoodRows(rows) && a in rows && b in rows && Of(a, b.code, b.language) && a.version == b.version
    ensures a == b
  {
    hide GoodRows;
    var i :| 0 <= i < |rows| && rows[i] == a;
    var j :| 0 <= j < |rows| && rows[j] == b;
    if i < j {
      PlaceOrder(rows, i, j);
    } else if j < i {
      PlaceOrder(rows, j, i);
    }
  }

  /** What a live entry under a key is. */
  lemma HitMeans(s: Store, code: string, language: string, version: Option<int>)
    requires GoodRows(s.rows) && GoodCache(s) && ColonFree(code) && ColonFree(language)
    requires Hit(s, code, language, version).Some?
    ensures var r := Hit(s, code, language, version).value;
            r in s.rows && Of(r, code, language) && (version.Some? ==> r.version == version.value)
  {
    var r := Hit(s, code, language, version).value;
    assert r in s.rows;
    KeyFitsMeans(code, language, Part(version), r);
  }

  /** Without a version the answer is the direct read exactly when the entry is fresh. */
  lemma LatestReadIsDirect(s: Store, code: string, language: string)
    requires GoodRows(s.rows) && GoodCache(s) && ColonFree(code) && ColonFree(language)
    ensures FindOne(s, code, language, None).1 == DirectRead(s, code, language, None) <==> Fresh(s, code, language)
  {
    hide GoodRows, GoodCache;
    if Hit(s, code, language, None).Some? {
      HitMeans(s, code, language, None);
    }
  }

  /** With a version the answer is always the direct read. */
  lemma VersionReadIsDirect(s: Store, code: string, language: string, v: int)
    requires GoodRows(s.rows) && GoodCache(s) && ColonFree(code) && ColonFree(language)
    ensures FindOne(s, code, language, Some(v)).1 == DirectRead(s, code, language, Some(v))
  {
    if Hit(s, code, language, Some(v)).Some? {
      HitMeans(s, code, language, Some(v));
      var r := Hit(s, code, language, Some(v)).value;
      var i :| 0 <= i < |s.rows| && s.rows[i] == r;
      PlaceBounds(s.rows, i);
      var direct := ByVersion(s.rows, code, language, v).value;
      SameVersionSameRow(s.rows, r, direct);
    }
  }

  /** A read of an old version that misses the cache while a newer version exists. */
  predicate StaleRead(s: Store, op: Op, code: string, language: string) {
    && op.DoFind? && op.code == code && op.language == language
    && Hit(s, code, language, op.version).None?
    && var row := FindRow(s.rows, code, language, op.version);
       row.Some? && Latest(s.rows, code, language) != row
  }

  lemma CachedFresh(s: Store, r: Row, code: string, language: string)
    requires ColonFree(code) && ColonFree(language) && ColonFree(r.code) && ColonFree(r.language)
    ensures Of(r, code, language) ==> Hit(Cached(s, r), code, language, None) == Some(r)
    ensures !Of(r, code, language) ==> Hit(Cached(s, r), code, language, None) == Hit(s, code, language, None)
  {
    VersionIsNotLatest(r.version);
    var key := CacheKey(code, language, "latest");
    if key == LatestKey(r) {
      CacheKeyInjective(code, language, "latest", r.code, r.language, "latest");
    }
    if key == VersionKey(r) {
      CacheKeyInjective(code, language, "latest", r.code, r.language, VersionText(r.version));
    }
  }

  /** Whatever is flushed, an entry is there as before or gone. */
  lemma InvalidatedFresh(s: Store, keys: set<string>, code: string, language: string)
    ensures Hit(Invalidated(s, keys), code, language, None).None?
            || Hit(Invalidated(s, keys), code, language, None) == Hit(s, code, language, None)
  {
  }

  lemma LatestOfOther(rows: seq<Row>, r: Row, code: string, language: string)
    requires !Of(r, code, language)
    ensures Latest(rows + [r], code, language) == Latest(rows, code, language)
  {
    assert (rows + [r])[..|rows|] == rows;
  }

  lemma LatestOfNew(rows: seq<Row>, r: Row)
    requires Latest(rows, r.code, r.language).None? || Latest(rows, r.code, r.language).value.version <= r.version
    ensures Latest(rows + [r], r.code, r.language) == Some(r)
  {
    assert (rows + [r])[..|rows|] == rows;
  }

  /** After a successful create or update the entry is fresh, whatever it was before. */
  lemma WritesRefresh(s: Store, op: Op, code: string, language: string)
    requires GoodRows(s.rows) && GoodCache(s) && Named(op) && ColonFree(code) && ColonFree(language)
    requires || (op.DoCreate? && Create(s, op.cdto).1.Ok? && op.cdto.code == code && op.cdto.language == language)
             || (op.DoUpdate? && Update(s, op.code, op.udto, op.keys).1.Ok? && op.code == code && OrElse(op.udto.language, "en") == language)
    ensures Fresh(Apply(s, op), code, language)
    ensures FindOne(Apply(s, op), code, language, None).1 == DirectRead(Apply(s, op), code, language, None)
  {
    var row := if op.DoCreate? then Create(s, op.cdto).1.value else Update(s, op.code, op.udto, op.keys).1.value;
    var t := s.(rows := s.rows + [row]);
    LatestIsCount(s.rows, code, language);
    LatestOfNew(s.rows, row);
    CachedFresh(t, row, code, language);
    if op.DoUpdate? { CachedFresh(Invalidated(t, op.keys), row, code, language); }
    GoodStep(s, op);
    LatestReadIsDirect(Apply(s, op), code, language);
  }

  /** The row a create or an update answers with is what the next read without a version gives. */
  lemma WritesAreRead(s: Store, op: Op, row: Row)
    requires GoodRows(s.rows) && GoodCache(s) && Named(op)
    requires (op.DoCreate? && Create(s, op.cdto).1 == Ok(row)) || (op.DoUpdate? && Update(s, op.code, op.udto, op.keys).1 == Ok(row))
    ensures FindOne(Apply(s, op), row.code, row.language, None).1 == Ok(row)
    ensures DirectRead(Apply(s, op), row.code, row.language, None) == Ok(row)
  {
    WritesRefresh(s, op, row.code, row.language);
    LatestIsCount(s.rows, row.code, row.language);
    LatestOfNew(s.rows, row);
    RowsUntouched(s.(rows := s.rows + [row]), row, if op.DoUpdate? then op.keys else {});
    hide GoodRows, GoodCache, Hit, FindOne;
  }

  /** One request keeps a fresh entry fresh exactly when it is not such a stale read. */
  lemma FreshStep(s: Store, op: Op, code: string, language: string)
    requires GoodRows(s.rows) && GoodCache(s) && Named(op) && ColonFree(code) && ColonFree(language)
    requires Fresh(s, code, language)
    ensures Fresh(Apply(s, op), code, language) <==> !StaleRead(s, op, code, language)
  {
    match op
    case DoCreate(dto) => FreshCreate(s, dto, code, language);
    case DoUpdate(c, dto, keys) => FreshUpdate(s, c, dto, keys, code, language);
    case DoFind(c, l, version) => FreshFind(s, c, l, version, code, language);
    case DoDelete(_, _, keys) => InvalidatedFresh(s, keys, code, language);
    case DoTick(_) =>
  }

  lemma FreshCreate(s: Store, dto: CreateDto, code: string, language: string)
    requires GoodRows(s.rows) && GoodCache(s) && Named(DoCreate(dto)) && ColonFree(code) && ColonFree(language)
    requires Fresh(s, code, language)
    ensures Fresh(Create(s, dto).0, code, language)
  {
    if Create(s, dto).1.Ok? {
      var row := Create(s, dto).1.value;
      if Of(row, code, language) {
        WritesRefresh(s, DoCreate(dto), code, language);
      } else {
        LatestOfOther(s.rows, row, code, language);
        CachedFresh(s.(rows := s.rows + [row]), row, code, language);
      }
    }
  }

  lemma FreshUpdate(s: Store, c: string, dto: UpdateDto, keys: set<string>, code: string, language: string)
    requires GoodRows(s.rows) && GoodCache(s) && Named(DoUpdate(c, dto, keys)) && ColonFree(code) && ColonFree(language)
    requires Fresh(s, code, language)
    ensures Fresh(Update(s, c, dto, keys).0, code, language)
  {
    if Update(s, c, dto, keys).1.Ok? {
      var l := OrElse(dto.language, "en");
      var row := Update(s, c, dto, keys).1.value;
      if Of(row, code, language) {
        WritesRefresh(s, DoUpdate(c, dto, keys), code, language);
      } else {
        var t := s.(rows := s.rows + [row]);
        LatestOfOther(s.rows, row, code, language);
        InvalidatedFresh(t, keys, code, language);
        CachedFresh(Invalidated(t, keys), row, code, language);
      }
    }
  }

  lemma FreshFind(s: Store, c: string, l: string, version: Option<int>, code: string, language: string)
    requires GoodRows(s.rows) && GoodCache(s) && ColonFree(c) && ColonFree(l) && ColonFree(code) && ColonFree(language)
    requires Fresh(s, code, language)
    ensures Fresh(FindOne(s, c, l, version).0, code, language) <==> !StaleRead(s, DoFind(c, l, version), code, language)
  {
    var row := FindRow(s.rows, c, l, version);
    if row.Some? {
      CachedFresh(s, row.value, code, language);
    }
  }

  predicate NoStaleRead(s: Store, ops: seq<Op>, code: string, language: string)
    decreases |ops|
  {
    ops == [] || (!StaleRead(s, ops[0], code, language) && NoStaleRead(Apply(s, ops[0]), ops[1..], code, language))
  }

  lemma {:induction false} FreshRun(s: Store, ops: seq<Op>, code: string, language: string)
    requires GoodRows(s.rows) && GoodCache(s) && AllNamed(ops) && ColonFree(code) && ColonFree(language)
    requires Fresh(s, code, language) && NoStaleRead(s, ops, code, language)
    ensures Fresh(Run(s, ops), code, language)
    decreases |ops|
  {
    if ops == [] {
    } else {
      GoodStep(s, ops[0]);
      FreshStep(s, ops[0], code, language);
      hide GoodRows, GoodCache, Apply, Fresh, StaleRead;
      FreshRun(Apply(s, ops[0]), ops[1..], code, language);
    }
  }

  /** In every serial run without a stale read, through expiries and deletes, reading a template
      without a version gives the greatest version; reading one with a version gives that version
      in every serial run at all. */
  lemma ReadsAreDirect(ops: seq<Op>, code: string, language: string, v: int)
    requires AllNamed(ops) && ColonFree(code) && ColonFree(language)
    ensures var s := Run(EMPTY, ops);
            && FindOne(s, code, language, Some(v)).1 == DirectRead(s, code, language, Some(v))
            && (NoStaleRead(EMPTY, ops, code, language) ==>
                  FindOne(s, code, language, None).1 == DirectRead(s, code, language, None))
  {
    GoodRun(EMPTY, ops);
    var s := Run(EMPTY, ops);
    VersionReadIsDirect(s, code, language, v);
    if NoStaleRead(EMPTY, ops, code, language) {
      FreshRun(EMPTY, ops, code, language);
      LatestReadIsDirect(s, code, language);
    }
  }

  /** The stale read does happen: flush the cache, read version 1, and `latest` is version 1. */
  lemma OldReadGoesStale(s: Store, code: string, language: string, keys: set<string>)
    requires GoodRows(s.rows) && GoodCache(s) && Plain(code) && Plain(language)
    requires |RowsOf(s.rows, code, language)| >= 2 && KeysAnswer(keys, s.cache.Keys, code, language)
    ensures var t := Run(s, [DoDelete(code, language, keys), DoFind(code, language, Some(1))]);
            var r := FindOne(t, code, language, None).1;
            r.Ok? && r.value.version == 1 && DirectRead(t, code, language, None).Ok?
            && DirectRead(t, code, language, None).value.version >= 2
  {
    PlainIsColonFree(code);
    PlainIsColonFree(language);
    var first, latest := FirstAndLatest(s.rows, code, language);
    var t := AfterOldRead(s, code, language, keys, first, latest);
    hide GoodRows, GoodCache, Plain, Run, Latest, ByVersion, Hit, KeysAnswer;
  }

  lemma AfterOldRead(s: Store, code: string, language: string, keys: set<string>, first: Row, latest: Row) returns (t: Store)
    requires ByVersion(s.rows, code, language, 1) == Some(first) && Latest(s.rows, code, language) == Some(latest)
    requires ColonFree(code) && ColonFree(language) && Of(first, code, language)
    requires Plain(code) && Plain(language) && KeysAnswer(keys, s.cache.Keys, code, language)
    ensures t == Run(s, [DoDelete(code, language, keys), DoFind(code, language, Some(1))])
    ensures t.rows == s.rows && Hit(t, code, language, None) == Some(first)
  {
    MissAfterFlush(s, code, language, keys, Some(1));
    hide Plain, KeysAnswer, Run, Latest, ByVersion, Hit, Cached, Invalidated, Prefix, CacheKey;
    var t1 := Invalidated(s, keys);
    RowsUntouched(s, first, keys);
    RowsUntouched(t1, first, keys);
    t := Cached(t1, first);
    TwoRequests(s, DoDelete(code, language, keys), DoFind(code, language, Some(1)));
    CachedFresh(t1, first, code, language);
  }

  /** A flush leaves no entry of a template whose names are plain. */
  lemma MissAfterFlush(s: Store, code: string, language: string, keys: set<string>, version: Option<int>)
    requires Plain(code) && Plain(language) && KeysAnswer(keys, s.cache.Keys, code, language)
    ensures Hit(Invalidated(s, keys), code, language, version).None?
  {
    assert Prefix(code, language) <= CacheKey(code, language, Part(version));
  }

  lemma FirstAndLatest(rows: seq<Row>, code: string, language: string) returns (first: Row, latest: Row)
    requires GoodRows(rows) && |RowsOf(rows, code, language)| >= 2
    ensures ByVersion(rows, code, language, 1) == Some(first) && first.version == 1 && Of(first, code, language)
    ensures Latest(rows, code, language) == Some(latest) && latest.version >= 2
  {
    LatestIsCount(rows, code, language);
    EveryVersion(rows, code, language, 1);
    first, latest := ByVersion(rows, code, language, 1).value, Latest(rows, code, language).value;
  }

  lemma TwoRequests(s: Store, a: Op, b: Op)
    ensures Run(s, [a, b]) == Apply(Apply(s, a), b)
  {
    hide Apply;
    assert [a, b][1..] == [b] && [b][1..] == [];
    var t := Apply(s, a);
    assert Run(s, [a, b]) == Run(t, [b]);
    assert Run(t, [b]) == Run(Apply(t, b), []);
  }
}
