/** template-service: finding the placeholders of a template and checking that
    they are declared. */
module Extraction {
  import opened Common
  import opened Placeholders

  // ---------- what is to be found ----------

  /** The string leaves of a document, at any depth. */
  function Leaves(j: Json): set<string> {
    match j
    case Text(s) => {s}
    case Array(items) => set x, l | x in items && l in Leaves(x) :: l
    case Object(fields) => set f, l | f in fields && l in Leaves(f.value) :: l
    case _ => {}
  }

  /** A way down a document: an array index or the place of a field. */
  datatype Step = Index(i: nat) | Member(i: nat)

  function Down(j: Json, s: Step): Option<Json> {
    match (j, s)
    case (Array(items), Index(i)) => if i < |items| then Some(items[i]) else None
    case (Object(fields), Member(i)) => if i < |fields| then Some(fields[i].value) else None
    case _ => None
  }

  function Reached(j: Json, path: seq<Step>): Option<Json>
    decreases |path|
  {
    if path == [] then Some(j)
    else if Down(j, path[0]).None? then None
    else Reached(Down(j, path[0]).value, path[1..])
  }

  /** The string leaves are exactly the texts at the end of some way down. */
  lemma {:induction false} LeavesAreReached(j: Json, path: seq<Step>)
    ensures Reached(j, path).Some? && Reached(j, path).value.Text? ==> Reached(j, path).value.s in Leaves(j)
    decreases |path|
  {
    if path == [] {
    } else if Down(j, path[0]).Some? {
      LeavesAreReached(Down(j, path[0]).value, path[1..]);
    }
  }

  lemma {:induction false} LeafHasPath(j: Json, l: string) returns (path: seq<Step>)
    requires l in Leaves(j)
    ensures Reached(j, path) == Some(Text(l))
    decreases j
  {
    match j
    case Text(_) => path := [];
    case Array(items) =>
      var i :| 0 <= i < |items| && l in Leaves(items[i]);
      var rest := LeafHasPath(items[i], l);
      path := [Index(i)] + rest;
      assert path[1..] == rest;
    case Object(fields) =>
      var i :| 0 <= i < |fields| && l in Leaves(fields[i].value);
      var rest := LeafHasPath(fields[i].value, l);
      path := [Member(i)] + rest;
      assert path[1..] == rest;
  }

  /** Every name occurring between double braces in some string leaf. */
  function NamesIn(j: Json): set<string> {
    set l, n | l in Leaves(j) && n in Names(l) :: n
  }

  /** Default order of `Array.prototype.sort` on names. */
  predicate Before(a: string, b: string) {
    b != "" && (a == "" || a[0] < b[0] || (a[0] == b[0] && Before(a[1..], b[1..])))
  }

  predicate StrictlySorted(xs: seq<string>) {
    forall i, j | 0 <= i < j < |xs| :: Before(xs[i], xs[j])
  }

  /** The entries of `xs` that are not in `s`, in their order. */
  function Without(xs: seq<string>, s: set<string>): seq<string> {
    if xs == [] then []
    else (if xs[0] in s then [] else [xs[0]]) + Without(xs[1..], s)
  }

  // ---------- lemmas ----------

  /** Stretches in which no match starts contribute no name. */
  lemma {:induction false} NamesSkip(s: string, a: nat, b: nat)
    requires a <= b <= |s|
    requires forall i | a <= i < b :: MatchLen(AnyName, s[i..]) == 0
    ensures Names(s[a..]) == Names(s[b..])
    decreases b - a
  {
    if a < b {
      assert s[a..][1..] == s[a + 1..];
      NamesSkip(s, a + 1, b);
    }
  }

  /** No name is captured by a match starting inside another. */
  lemma NamesInside(s: string, i: nat)
    requires i <= |s| && MatchLen(AnyName, s[i..]) > 0
    ensures var e := i + MatchLen(AnyName, s[i..]); e <= |s| && Names(s[i + 1..]) == Names(s[e..])
  {
    hide MatchLen, Names;
    var e := i + MatchLen(AnyName, s[i..]);
    forall k | i < k < e ensures MatchLen(AnyName, s[k..]) == 0 {
      if MatchLen(AnyName, s[k..]) > 0 {
        MatchesNeverOverlap(s, i, k);
      }
    }
    NamesSkip(s, i + 1, e);
  }

  /** The match at `i` is the next one from `from`. */
  ghost predicate NextMatch(s: string, from: nat, i: nat) {
    && from <= i <= |s| && MatchLen(AnyName, s[i..]) > 0
    && forall k | from <= k < i :: MatchLen(AnyName, s[k..]) == 0
  }

  /** One round of the scan. */
  lemma NamesFromMatch(s: string, from: nat, i: nat)
    requires NextMatch(s, from, i)
    ensures var e := i + MatchLen(AnyName, s[i..]);
            from < e <= |s| && Names(s[from..]) == {NameAt(s[i..])} + Names(s[e..])
  {
    NamesSkip(s, from, i);
    NamesInside(s, i);
    assert s[i..][1..] == s[i + 1..];
  }

  lemma {:induction false} BeforeTransitive(a: string, b: string, c: string)
    requires Before(a, b) && Before(b, c)
    ensures Before(a, c)
  {
    if a != "" && a[0] == b[0] == c[0] {
      BeforeTransitive(a[1..], b[1..], c[1..]);
    }
  }

  lemma {:induction false} BeforeTotal(a: string, b: string)
    ensures a == b || Before(a, b) || Before(b, a)
    ensures !(Before(a, b) && Before(b, a))
    ensures !Before(a, a)
  {
    if a != "" && b != "" && a[0] == b[0] {
      BeforeTotal(a[1..], b[1..]);
      assert a == [a[0]] + a[1..] && b == [b[0]] + b[1..];
    }
    if a == "" {
    } else {
      BeforeTotal(a[1..], a[1..]);
    }
  }

  /** A strictly sorted listing of a set is unique: `sort` has one possible result. */
  lemma {:induction false} SortedListingIsUnique(xs: seq<string>, ys: seq<string>)
    requires StrictlySorted(xs) && StrictlySorted(ys) && Elements(xs) == Elements(ys)
    ensures xs == ys
  {
    NoElements(xs);
    NoElements(ys);
    if xs == [] {
    } else {
      assert xs[0] in Elements(ys) && ys[0] in Elements(xs);
      BeforeTotal(xs[0], ys[0]);
      assert xs[0] == ys[0];
      RestElements(xs);
      RestElements(ys);
      SortedListingIsUnique(xs[1..], ys[1..]);
      assert xs == [xs[0]] + xs[1..] && ys == [ys[0]] + ys[1..];
    }
  }

  lemma NoElements(xs: seq<string>)
    ensures Elements(xs) == {} <==> xs == []
  {
    if xs != [] {
      assert xs[0] in Elements(xs);
    }
  }

  lemma RestElements(xs: seq<string>)
    requires xs != [] && StrictlySorted(xs)
    ensures Elements(xs[1..]) == Elements(xs) - {xs[0]}
  {
    BeforeTotal(xs[0], xs[0]);
    assert forall x | x in xs[1..] :: Before(xs[0], x);
    assert forall x | x in xs :: x == xs[0] || x in xs[1..];
  }

  lemma {:induction false} WithoutElements(xs: seq<string>, s: set<string>)
    ensures Elements(Without(xs, s)) == Elements(xs) - s
  {
    if xs == [] {
    } else {
      var x, rest := xs[0], Without(xs[1..], s);
      WithoutElements(xs[1..], s);
      ConsElements(x, xs[1..]);
      ConsElements(x, rest);
      assert xs == [x] + xs[1..];
      assert [] + rest == rest;
      assert ({x} + Elements(xs[1..])) - s == (if x in s then {} else {x}) + (Elements(xs[1..]) - s);
    }
  }

  lemma ConsElements(x: string, xs: seq<string>)
    ensures Elements([x] + xs) == {x} + Elements(xs)
  {
  }

  lemma {:induction false} WithoutSorted(xs: seq<string>, s: set<string>)
    requires StrictlySorted(xs)
    ensures StrictlySorted(Without(xs, s))
  {
    if xs == [] {
    } else {
      WithoutSorted(xs[1..], s);
      var rest := Without(xs[1..], s);
      WithoutElements(xs[1..], s);
      forall x | x in rest ensures Before(xs[0], x) {
        assert x in Elements(rest);
        assert x in xs[1..];
      }
    }
  }

  lemma NamesDone(s: string, from: nat)
    requires from <= |s| && forall i | from <= i < |s| :: MatchLen(AnyName, s[i..]) == 0
    ensures Names(s[from..]) == {}
  {
    NamesSkip(s, from, |s|);
  }

  // ---------- extractPlaceholders ----------

  /** The global regular expression with its `lastIndex`, and the set being filled. */
  class Scanner {
    var lastIndex: nat
    var found: set<string>

    constructor ()
      ensures lastIndex == 0 && found == {}
    {
      lastIndex, found := 0, {};
    }

    /** `placeholderRegex.exec(s)`: the next match from `lastIndex` on; `at` is where it starts. */
    method Exec(s: string) returns (m: Option<string>, ghost at: nat)
      modifies this`lastIndex
      ensures m.None? ==> lastIndex == 0 && forall i | old(lastIndex) <= i < |s| :: MatchLen(AnyName, s[i..]) == 0
      ensures m.Some? ==> && NextMatch(s, old(lastIndex), at) && m.value == NameAt(s[at..])
                          && lastIndex == at + MatchLen(AnyName, s[at..])
    {
      var i := lastIndex;
      while i < |s|
        invariant lastIndex <= i
        invariant lastIndex == old(lastIndex)
        invariant forall k | lastIndex <= k < i && k < |s| :: MatchLen(AnyName, s[k..]) == 0
      {
        var n := MatchLen(AnyName, s[i..]);
        if n > 0 {
          lastIndex := i + n;
          return Some(NameAt(s[i..])), i;
        }
        i := i + 1;
      }
      lastIndex := 0;
      m, at := None, 0;
    }

    /** The `while` loop of `searchContent` over the matches of one string. */
    method SearchText(s: string)
      requires lastIndex == 0
      modifies this
      ensures lastIndex == 0
      ensures found == old(found) + Names(s)
    {
      hide Names, MatchLen, NameAt;
      ghost var from: nat := 0;
      assert s[0..] == s;
      var m: Option<string>, at: nat := Exec(s);
      while m.Some?
        invariant from <= |s| && found + Names(s[from..]) == old(found) + Names(s)
        invariant m.None? ==> lastIndex == 0 && forall i | from <= i < |s| :: MatchLen(AnyName, s[i..]) == 0
        invariant m.Some? ==> && NextMatch(s, from, at) && m.value == NameAt(s[at..])
                              && lastIndex == at + MatchLen(AnyName, s[at..])
        decreases |s| - from, m.Some?
      {
        NamesFromMatch(s, from, at);
        found := found + {m.value};
        from := lastIndex;
        m, at := Exec(s);
      }
      NamesDone(s, from);
    }

    /** `searchContent`: recursion over the tree. */
    method SearchContent(obj: Json)
      requires lastIndex == 0
      modifies this
      ensures lastIndex == 0
      ensures found == old(found) + NamesIn(obj)
      decreases obj
    {
      match obj
      case Text(s) =>
        SearchText(s);
        assert NamesIn(obj) == Names(s);
      case Array(items) =>
        for i := 0 to |items|
          invariant lastIndex == 0
          invariant found == old(found) + NamesIn(Array(items[..i]))
        {
          SearchContent(items[i]);
          NamesInArrayStep(items, i);
        }
        assert items[..|items|] == items;
      case Object(fields) =>
        for i := 0 to |fields|
          invariant lastIndex == 0
          invariant found == old(found) + NamesIn(Object(fields[..i]))
        {
          SearchContent(fields[i].value);
          NamesInObjectStep(fields, i);
        }
        assert fields[..|fields|] == fields;
      case _ =>
    }
  }

  lemma NamesInArrayStep(items: seq<Json>, i: nat)
    requires i < |items|
    ensures NamesIn(Array(items[..i + 1])) == NamesIn(Array(items[..i])) + NamesIn(items[i])
  {
    assert items[..i + 1] == items[..i] + [items[i]];
    assert Leaves(Array(items[..i + 1])) == Leaves(Array(items[..i])) + Leaves(items[i]);
  }

  lemma NamesInObjectStep(fields: seq<Field>, i: nat)
    requires i < |fields|
    ensures NamesIn(Object(fields[..i + 1])) == NamesIn(Object(fields[..i])) + NamesIn(fields[i].value)
  {
    assert fields[..i + 1] == fields[..i] + [fields[i]];
    assert Leaves(Object(fields[..i + 1])) == Leaves(Object(fields[..i])) + Leaves(fields[i].value);
  }

  /** `Array.from(set).sort()` */
  method Sorted(s: set<string>) returns (r: seq<string>)
    ensures StrictlySorted(r) && Elements(r) == s
  {
    r := [];
    var todo := s;
    while todo != {}
      invariant StrictlySorted(r) && todo <= s && Elements(r) == s - todo
    {
      var x :| x in todo;
      todo := todo - {x};
      assert x !in Elements(r);
      r := Insert(r, x);
    }
  }

  method Insert(xs: seq<string>, x: string) returns (r: seq<string>)
    requires StrictlySorted(xs) && x !in xs
    ensures StrictlySorted(r) && Elements(r) == Elements(xs) + {x}
  {
    var i := 0;
    while i < |xs| && Before(xs[i], x)
      invariant i <= |xs|
      invariant forall k | 0 <= k < i :: Before(xs[k], x)
    {
      i := i + 1;
    }
    if i < |xs| {
      BeforeTotal(xs[i], x);
      forall k | i <= k < |xs| ensures Before(x, xs[k]) {
        if i < k {
          BeforeTransitive(x, xs[i], xs[k]);
        }
      }
    }
    r := xs[..i] + [x] + xs[i..];
    assert forall y :: y in r <==> y in xs || y == x;
  }

  method ExtractPlaceholders(content: Json) returns (r: seq<string>)
    ensures StrictlySorted(r)
    ensures Elements(r) == NamesIn(content)
  {
    var scanner := new Scanner();
    scanner.SearchContent(content);
    r := Sorted(scanner.found);
  }

  // ---------- validateVariables ----------

  datatype Validation = Validation(
    isValid: bool, missingVariables: seq<string>, unusedVariables: seq<string>, foundPlaceholders: seq<string>)

  /** What validation guarantees about a template that passes it. */
  predicate Declared(content: Json, variables: seq<string>) {
    NamesIn(content) <= Elements(variables)
  }

  /** Variables that are not used do no harm: declaring more keeps a template accepted. */
  lemma MoreVariables(content: Json, variables: seq<string>, more: seq<string>)
    requires Declared(content, variables) && forall v | v in variables :: v in more
    ensures Declared(content, more)
  {
    assert Elements(variables) <= Elements(more);
  }

  /** Accepted exactly when every name found anywhere is declared, whatever else is. */
  lemma AcceptedExactly(content: Json, variables: seq<string>)
    ensures Declared(content, variables) <==> forall n | n in NamesIn(content) :: n in variables
  {
    assert forall n :: n in variables <==> n in Elements(variables);
  }

  lemma NothingMissing(a: set<string>, b: set<string>)
    ensures a - b == {} <==> a <= b
  {
    if a - b == {} {
      forall x | x in a ensures x in b {
        assert x !in a - b;
      }
    }
  }

  method ValidateVariables(content: Json, declared: seq<string>) returns (v: Validation)
    ensures v.isValid <==> v.missingVariables == []
    ensures v.isValid <==> forall n | n in NamesIn(content) :: n in declared
    ensures v.isValid <==> Declared(content, declared)
    ensures StrictlySorted(v.missingVariables)
    ensures Elements(v.missingVariables) == NamesIn(content) - Elements(declared)
    ensures v.unusedVariables == Without(declared, NamesIn(content))
    ensures StrictlySorted(v.foundPlaceholders) && Elements(v.foundPlaceholders) == NamesIn(content)
  {
    hide NamesIn, StrictlySorted, Without;
    var found := ExtractPlaceholders(content);
    var declaredSet := Elements(declared);
    var foundSet := Elements(found);
    var missing := Without(found, declaredSet);
    WithoutElements(found, declaredSet);
    WithoutSorted(found, declaredSet);
    NoElements(missing);
    NothingMissing(NamesIn(content), declaredSet);
    AcceptedExactly(content, declared);
    v := Validation(|missing| == 0, missing, Without(declared, foundSet), found);
  }
}
