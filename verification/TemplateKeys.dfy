/** template-service: rows of the template table, queries over them, and cache keys. */
module TemplateKeys {
  import opened Common
  import Extraction

  datatype Row = Row(code: string, kind: string, language: string, version: nat, content: Json, variables: seq<string>)

  datatype CreateDto = CreateDto(code: string, kind: string, language: string, content: Json, variables: seq<string>)

  datatype UpdateDto = UpdateDto(
    kind: Option<string>, language: Option<string>, content: Option<Json>, variables: Option<seq<string>>)

  function OrElse<T>(o: Option<T>, d: T): T {
    if o.Some? then o.value else d
  }

  predicate Of(r: Row, code: string, language: string) {
    r.code == code && r.language == language
  }

  /** The rows of one template, oldest first. */
  function RowsOf(rows: seq<Row>, code: string, language: string): (out: seq<Row>)
    ensures forall r :: r in out <==> r in rows && Of(r, code, language)
  {
    if rows == [] then []
    else
      var init, last := rows[..|rows| - 1], rows[|rows| - 1];
      assert rows == init + [last];
      RowsOf(init, code, language) + if Of(last, code, language) then [last] else []
  }

  /** The row of the greatest version, as `ORDER BY version DESC` finds it. */
  function Latest(rows: seq<Row>, code: string, language: string): (o: Option<Row>)
    ensures o.Some? ==> && o.value in rows && Of(o.value, code, language)
                        && forall r | r in rows && Of(r, code, language) :: r.version <= o.value.version
    ensures o.None? ==> forall r | r in rows :: !Of(r, code, language)
  {
    if rows == [] then None
    else
      var init, last := rows[..|rows| - 1], rows[|rows| - 1];
      assert rows == init + [last];
      var best := Latest(init, code, language);
      if Of(last, code, language) && (best.None? || best.value.version <= last.version) then Some(last) else best
  }

  function ByVersion(rows: seq<Row>, code: string, language: string, version: int): (o: Option<Row>)
    ensures o.Some? ==> o.value in rows && Of(o.value, code, language) && o.value.version == version
    ensures o.None? ==> forall r | r in rows && Of(r, code, language) :: r.version != version
  {
    if rows == [] then None
    else if Of(rows[0], code, language) && rows[0].version == version then Some(rows[0])
    else ByVersion(rows[1..], code, language, version)
  }

  /** `findByCodeAndLanguage`: version 0 is falsy and means the latest. */
  function FindRow(rows: seq<Row>, code: string, language: string, version: Option<int>): (o: Option<Row>)
    ensures o.Some? ==> o.value in rows && Of(o.value, code, language)
    ensures o.Some? ==> if version.Some? && version.value != 0 then o.value.version == version.value
                        else forall r | r in rows && Of(r, code, language) :: r.version <= o.value.version
    ensures o.None? ==> forall r | r in rows && Of(r, code, language) ::
                          version.Some? && version.value != 0 && r.version != version.value
  {
    if version.Some? && version.value != 0 then ByVersion(rows, code, language, version.value)
    else Latest(rows, code, language)
  }

  predicate Exists(rows: seq<Row>, code: string, language: string) {
    exists i :: 0 <= i < |rows| && Of(rows[i], code, language)
  }

  // ---------- what a request makes of a template ----------

  /** The first row of a template holds what was asked for. */
  predicate FirstRow(r: Row, dto: CreateDto) {
    && r.code == dto.code && r.language == dto.language && r.version == 1
    && r.kind == dto.kind && r.content == dto.content && r.variables == dto.variables
  }

  /** A later row holds what was supplied, and for the rest what the row before held. */
  predicate Supersedes(r: Row, before: Row, language: string, dto: UpdateDto) {
    && r.code == before.code && r.language == language && r.version == before.version + 1
    && (if dto.content.Some? then r.content == dto.content.value else r.content == before.content)
    && (if dto.variables.Some? then r.variables == dto.variables.value else r.variables == before.variables)
    && (if dto.kind.Some? then r.kind == dto.kind.value else r.kind == before.kind)
  }

  predicate Language(dto: UpdateDto, language: string) {
    if dto.language.Some? then language == dto.language.value else language == "en"
  }

  /** Every name in the content an update leads to is among the variables it leads to. */
  predicate Acceptable(before: Row, dto: UpdateDto) {
    var content := if dto.content.Some? then dto.content.value else before.content;
    var variables := if dto.variables.Some? then dto.variables.value else before.variables;
    forall n | n in Extraction.NamesIn(content) :: n in variables
  }

  // ---------- cache keys ----------

  function Digit(d: nat): char
    requires d < 10
  {
    ['0', '1', '2', '3', '4', '5', '6', '7', '8', '9'][d]
  }

  function Decimal(n: nat): string {
    if n < 10 then [Digit(n)] else Decimal(n / 10) + [Digit(n % 10)]
  }

  function VersionText(v: int): string {
    if v < 0 then "-" + Decimal(-v) else Decimal(v)
  }

  function Prefix(code: string, language: string): string {
    "template:" + (code + (":" + (language + ":")))
  }

  /** `getCacheKey`; the part is `latest` or a version. */
  function CacheKey(code: string, language: string, part: string): string {
    Prefix(code, language) + part
  }

  /** Free of the separator and of what is special in a KEYS pattern. */
  predicate Plain(s: string) {
    forall i | 0 <= i < |s| :: s[i] !in ":*?[]\\^"
  }

  predicate ColonFree(s: string) {
    forall i | 0 <= i < |s| :: s[i] != ':'
  }

  lemma PlainIsColonFree(s: string)
    requires Plain(s)
    ensures ColonFree(s)
  {
    assert ":*?[]\\^"[0] == ':';
  }

  lemma {:induction false} DecimalInjective(a: nat, b: nat)
    requires Decimal(a) == Decimal(b)
    ensures a == b
  {
    var x, y := Decimal(a), Decimal(b);
    assert x[|x| - 1] == Digit(a % 10) && y[|y| - 1] == Digit(b % 10);
    assert a % 10 == b % 10;
    DecimalLength(a);
    DecimalLength(b);
    if a >= 10 && b >= 10 {
      assert Decimal(a / 10) == x[..|x| - 1] && Decimal(b / 10) == y[..|y| - 1];
      DecimalInjective(a / 10, b / 10);
    }
  }

  lemma {:induction false} DecimalLength(a: nat)
    ensures |Decimal(a)| >= 1 && (|Decimal(a)| == 1 <==> a < 10)
  {
    if a >= 10 {
      DecimalLength(a / 10);
    }
  }

  lemma {:induction false} DecimalDigits(a: nat, i: nat)
    requires i < |Decimal(a)|
    ensures '0' <= Decimal(a)[i] <= '9'
  {
    if a >= 10 && i < |Decimal(a)| - 1 {
      DecimalDigits(a / 10, i);
    }
  }

  lemma VersionTextInjective(v: int, w: int)
    requires VersionText(v) == VersionText(w)
    ensures v == w
  {
    DecimalLength(if v < 0 then -v else v);
    DecimalLength(if w < 0 then -w else w);
    DecimalDigits(if v < 0 then -v else v, 0);
    DecimalDigits(if w < 0 then -w else w, 0);
    if v < 0 && w < 0 {
      assert Decimal(-v) == VersionText(v)[1..] && Decimal(-w) == VersionText(w)[1..];
      DecimalInjective(-v, -w);
    } else if v >= 0 && w >= 0 {
      DecimalInjective(v, w);
    }
  }

  lemma VersionIsNotLatest(v: int)
    ensures VersionText(v) != "latest"
  {
    DecimalLength(if v < 0 then -v else v);
    DecimalDigits(if v < 0 then -v else v, 0);
    assert "latest"[0] == 'l';
  }

  /** The first colon ends the first field. */
  lemma {:induction false} FieldsSplit(a: string, x: string, b: string, y: string)
    requires ColonFree(a) && ColonFree(b) && a + (":" + x) == b + (":" + y)
    ensures a == b && x == y
  {
    FirstOfField(a, x);
    FirstOfField(b, y);
    var s, t := a + (":" + x), b + (":" + y);
    if a == "" {
      assert s[1..] == x && t[1..] == y;
    } else {
      assert s[1..] == a[1..] + (":" + x) && t[1..] == b[1..] + (":" + y);
      FieldsSplit(a[1..], x, b[1..], y);
      assert a == [a[0]] + a[1..] && b == [b[0]] + b[1..];
    }
  }

  lemma FirstOfField(a: string, x: string)
    requires ColonFree(a)
    ensures (a + (":" + x))[0] == ':' <==> a == ""
    ensures a != "" ==> (a + (":" + x))[0] == a[0]
  {
  }

  /** A cache key names its template and its part. */
  lemma CacheKeyInjective(c1: string, l1: string, p1: string, c2: string, l2: string, p2: string)
    requires ColonFree(c1) && ColonFree(l1) && ColonFree(c2) && ColonFree(l2)
    requires CacheKey(c1, l1, p1) == CacheKey(c2, l2, p2)
    ensures c1 == c2 && l1 == l2 && p1 == p2
  {
    KeyFields(c1, l1, p1);
    KeyFields(c2, l2, p2);
    FieldsSplit(c1, l1 + (":" + p1), c2, l2 + (":" + p2));
    FieldsSplit(l1, p1, l2, p2);
  }

  /** With a colon in the names two templates share their keys. */
  lemma ColonsCollide(x: string, y: string, z: string, p: string)
    ensures CacheKey(x + (":" + y), z, p) == CacheKey(x, y + (":" + z), p)
  {
    assert (x + (":" + y)) + (":" + (z + ":")) == x + (":" + ((y + (":" + z)) + ":"));
  }

  lemma KeyFields(c: string, l: string, p: string)
    ensures CacheKey(c, l, p)[9..] == c + (":" + (l + (":" + p)))
  {
    assert CacheKey(c, l, p) == "template:" + (c + (":" + (l + (":" + p))));
  }

  /** The keys with the prefix of a template are its own. */
  lemma PrefixMatches(c1: string, l1: string, c2: string, l2: string, p2: string)
    requires ColonFree(c1) && ColonFree(l1) && ColonFree(c2) && ColonFree(l2)
    ensures Prefix(c1, l1) <= CacheKey(c2, l2, p2) <==> c1 == c2 && l1 == l2
  {
    var key := CacheKey(c2, l2, p2);
    if Prefix(c1, l1) <= key {
      var rest := key[|Prefix(c1, l1)|..];
      assert key == CacheKey(c1, l1, rest);
      CacheKeyInjective(c1, l1, rest, c2, l2, p2);
    }
  }

  /** What KEYS may answer for `template:code:language:*` among the keys stored; when the names hold no
      pattern characters it is all that start with the prefix. */
  predicate KeysAnswer(keys: set<string>, stored: set<string>, code: string, language: string) {
    && keys <= stored
    && (Plain(code) && Plain(language) ==> forall k | k in stored :: k in keys <==> Prefix(code, language) <= k)
  }

  function LatestKey(r: Row): string {
    CacheKey(r.code, r.language, "latest")
  }

  function VersionKey(r: Row): string {
    CacheKey(r.code, r.language, VersionText(r.version))
  }

  /** A row may be cached under its two keys. */
  predicate KeyFits(key: string, r: Row) {
    key == LatestKey(r) || key == VersionKey(r)
  }

  /** What a cached row has in common with the key it is found under. */
  lemma KeyFitsMeans(code: string, language: string, part: string, r: Row)
    requires ColonFree(code) && ColonFree(language) && ColonFree(r.code) && ColonFree(r.language)
    requires KeyFits(CacheKey(code, language, part), r)
    ensures Of(r, code, language)
    ensures part == "latest" || part == VersionText(r.version)
    ensures forall v: int | part == VersionText(v) :: r.version == v
  {
    CacheKeyInjective(code, language, part, r.code, r.language,
                      if CacheKey(code, language, part) == LatestKey(r) then "latest" else VersionText(r.version));
    forall v: int | part == VersionText(v) ensures r.version == v {
      VersionIsNotLatest(v);
      VersionTextInjective(v, r.version);
    }
  }
}
