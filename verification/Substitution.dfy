/** When replacing placeholders one key after the other, in place, is the same
    as substituting all of them at once. */
module Substitution {
  import opened Common
  import opened Placeholders

  /** How a service reads a hole: push-service takes everything between the
      braces, email-service the name without the blanks around it. */
  datatype Reading = Whole | Spacious

  function KeyOf(r: Reading, h: Segment): string
    requires h.Hole?
  {
    if r == Whole then Inner(h) else h.name
  }

  function PatternFor(r: Reading, key: string): Pattern {
    if r == Whole then Exact(key) else Spaced(key)
  }

  /** Keys and values that keep the brace structure of a template intact. */
  predicate TameKey(r: Reading, key: string) {
    if r == Whole then BraceFree(key) else IsWordText(key)
  }

  predicate TameVars(r: Reading, vars: map<string, string>) {
    forall k | k in vars :: TameKey(r, k) && Safe(vars[k])
  }

  /** One key after the other, each pass over the result of the one before. */
  function Sequential(r: Reading, vars: map<string, string>, order: seq<string>, text: string): string
    requires forall k | k in order :: k in vars
  {
    if order == [] then text
    else Sequential(r, vars, order[1..], ReplaceAll(PatternFor(r, order[0]), vars[order[0]], text))
  }

  function Substituted(r: Reading, vars: map<string, string>, keys: set<string>, seg: Segment): Segment {
    if seg.Hole? && KeyOf(r, seg) in keys && KeyOf(r, seg) in vars then Lit(vars[KeyOf(r, seg)]) else seg
  }

  /** All at once: every hole whose key is among `keys` becomes its value. */
  function Simultaneous(r: Reading, vars: map<string, string>, keys: set<string>, segs: seq<Segment>)
    : (out: seq<Segment>)
    ensures |out| == |segs|
    ensures forall i | 0 <= i < |segs| :: out[i] == Substituted(r, vars, keys, segs[i])
  {
    seq(|segs|, i requires 0 <= i < |segs| => Substituted(r, vars, keys, segs[i]))
  }

  lemma SafeTail(t: string)
    requires Safe(t) && t != ""
    ensures Safe(t[1..])
  {
    forall i | 0 <= i < |t[1..]| && t[1..][i] == '{'
      ensures i + 1 < |t[1..]| && t[1..][i + 1] != '{'
    {
      assert t[i + 1] == '{';
    }
  }

  lemma SafeOpensNothing(t: string, rest: string)
    requires Safe(t) && t != ""
    ensures !("{{" <= t + rest)
  {
    assert "{{"[0] == "{{"[1] == '{';
    assert (t + rest)[0] == t[0];
    if |t| > 1 {
      assert (t + rest)[1] == t[1];
    }
  }

  /** No pattern matches inside safe text, whatever follows it. */
  lemma {:induction false} ReplaceOverSafe(p: Pattern, v: string, t: string, rest: string)
    requires Safe(t)
    ensures ReplaceAll(p, v, t + rest) == t + ReplaceAll(p, v, rest)
  {
    hide MatchLen;
    if t == "" {
      assert t + rest == rest;
    } else {
      SafeTail(t);
      assert (t + rest)[1..] == t[1..] + rest;
      ReplaceOverSafe(p, v, t[1..], rest);
      SafeOpensNothing(t, rest);
      assert t == [t[0]] + t[1..];
    }
  }

  lemma HoleTailSafe(h: Segment)
    requires h.Hole? && WellFormedSegment(h)
    ensures Safe(Show(h)[1..])
    ensures Show(h)[0] == '{'
  {
    var x := Inner(h);
    var s := Show(h)[1..];
    assert s == "{" + (x + "}}");
    assert BraceFree(x);
    forall i | 0 <= i < |s| && s[i] == '{' ensures i + 1 < |s| && s[i + 1] != '{' {
      assert i == 0;
    }
  }

  lemma ReplaceStep(p: Pattern, v: string, s: string)
    requires s != "" && MatchLen(p, s) == 0
    ensures ReplaceAll(p, v, s) == [s[0]] + ReplaceAll(p, v, s[1..])
  {
    hide MatchLen;
  }

  /** A hole that is not matched at its start is copied. */
  lemma CopyHole(p: Pattern, v: string, h: Segment, rest: string)
    requires h.Hole? && WellFormedSegment(h) && MatchLen(p, Show(h) + rest) == 0
    ensures ReplaceAll(p, v, Show(h) + rest) == Show(h) + ReplaceAll(p, v, rest)
  {
    hide MatchLen;
    HoleTailSafe(h);
    var head, tail := Show(h)[0], Show(h)[1..];
    var s := Show(h) + rest;
    ReplaceStep(p, v, s);
    assert s[1..] == tail + rest;
    ReplaceOverSafe(p, v, tail, rest);
    var end := ReplaceAll(p, v, rest);
    assert [head] + (tail + end) == ([head] + tail) + end;
    assert [head] + tail == Show(h);
  }

  lemma ReplaceOverHole(p: Pattern, v: string, h: Segment, rest: string)
    requires Tame(p) && h.Hole? && WellFormedSegment(h)
    ensures ReplaceAll(p, v, Show(h) + rest) == (if Fits(p, h) then v else Show(h)) + ReplaceAll(p, v, rest)
  {
    hide MatchLen;
    HoleMatch(p, h, rest);
    if Fits(p, h) {
      assert (Show(h) + rest)[|Show(h)|..] == rest;
    } else {
      CopyHole(p, v, h, rest);
    }
  }

  /** One pass over a template replaces exactly the holes its pattern fits. */
  lemma {:induction false} ReplaceOverTemplate(r: Reading, vars: map<string, string>, key: string, segs: seq<Segment>)
    requires WellFormed(segs) && TameKey(r, key) && key in vars
    ensures ReplaceAll(PatternFor(r, key), vars[key], Flatten(segs)) == Flatten(Simultaneous(r, vars, {key}, segs))
  {
    hide MatchLen;
    var out := Simultaneous(r, vars, {key}, segs);
    var p := PatternFor(r, key);
    if segs == [] {
    } else {
      ReplaceOverTemplate(r, vars, key, segs[1..]);
      assert out[1..] == Simultaneous(r, vars, {key}, segs[1..]);
      match segs[0]
      case Lit(t) => ReplaceOverSafe(p, vars[key], t, Flatten(segs[1..]));
      case Hole(_, _, _) => ReplaceOverHole(p, vars[key], segs[0], Flatten(segs[1..]));
    }
  }

  lemma SubstitutionKeepsForm(r: Reading, vars: map<string, string>, keys: set<string>, segs: seq<Segment>)
    requires WellFormed(segs) && TameVars(r, vars)
    ensures WellFormed(Simultaneous(r, vars, keys, segs))
  {
  }

  /** Replacing key by key, in any order, is substituting all at once. */
  lemma {:induction false} SequentialIsSimultaneous(
    r: Reading, vars: map<string, string>, order: seq<string>, segs: seq<Segment>)
    requires WellFormed(segs) && TameVars(r, vars)
    requires forall k | k in order :: k in vars
    ensures Sequential(r, vars, order, Flatten(segs)) ==
            Flatten(Simultaneous(r, vars, Elements(order), segs))
  {
    var keys := Elements(order);
    if order == [] {
      assert Simultaneous(r, vars, keys, segs) == segs;
    } else {
      var key, rest := order[0], order[1..];
      var next := Simultaneous(r, vars, {key}, segs);
      ReplaceOverTemplate(r, vars, key, segs);
      SubstitutionKeepsForm(r, vars, {key}, segs);
      SequentialIsSimultaneous(r, vars, rest, next);
      var others := Elements(rest);
      assert keys == {key} + others;
      assert Simultaneous(r, vars, others, next) == Simultaneous(r, vars, keys, segs);
    }
  }

  // ---------- the scan over a template ----------

  /** The names a scan is expected to find: those of the holes. */
  function HoleNames(segs: seq<Segment>): set<string> {
    set h | h in segs && h.Hole? && IsName(h.name) :: h.name
  }

  lemma {:induction false} NamesOverSafe(t: string, rest: string)
    requires Safe(t)
    ensures Names(t + rest) == Names(rest)
  {
    hide MatchLen, NameAt;
    if t == "" {
      assert t + rest == rest;
    } else {
      SafeTail(t);
      assert (t + rest)[1..] == t[1..] + rest;
      NamesOverSafe(t[1..], rest);
      SafeOpensNothing(t, rest);
    }
  }

  lemma NamesStep(s: string)
    requires s != ""
    ensures Names(s) == (if MatchLen(AnyName, s) > 0 then {NameAt(s)} else {}) + Names(s[1..])
  {
    hide MatchLen, NameAt;
  }

  lemma NamesOverHole(h: Segment, rest: string)
    requires h.Hole? && WellFormedSegment(h)
    ensures Names(Show(h) + rest) == (if IsName(h.name) then {h.name} else {}) + Names(rest)
  {
    hide MatchLen, NameAt, Names, Safe, BraceFree, Blank;
    HoleMatch(AnyName, h, rest);
    if IsName(h.name) {
      HoleName(h, rest);
    }
    HoleTailSafe(h);
    var s, tail := Show(h) + rest, Show(h)[1..];
    NamesStep(s);
    assert s[1..] == tail + rest;
    NamesOverSafe(tail, rest);
  }

  /** The scan finds the hole names of a template and nothing else. */
  lemma {:induction false} NamesOverTemplate(segs: seq<Segment>)
    requires WellFormed(segs)
    ensures Names(Flatten(segs)) == HoleNames(segs)
  {
    hide MatchLen, NameAt;
    if segs == [] {
    } else {
      NamesOverTemplate(segs[1..]);
      match segs[0]
      case Lit(t) => NamesOverSafe(t, Flatten(segs[1..]));
      case Hole(_, _, _) => NamesOverHole(segs[0], Flatten(segs[1..]));
      assert segs == [segs[0]] + segs[1..];
    }
  }
}
