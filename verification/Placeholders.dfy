/** The placeholder language shared by the template, push and email services:
    which stretches of text each service recognises as a placeholder, and what
    left-to-right replacement of all of them does. */
module Placeholders {

  /** What one service searches for.
      Exact(key): the literal text `{{key}}` of Rust's `str::replace`.
      Spaced(key): the regular expression `{{\s*key\s*}}`.
      AnyName: the regular expression `{{\s*([\w.]+)\s*}}`. */
  datatype Pattern = Exact(key: string) | Spaced(key: string) | AnyName

  // ---------- character classes ----------

  /** `\s` of ECMAScript regular expressions. */
  predicate IsBlank(c: char) {
    || c == ' ' || '\U{0009}' <= c <= '\U{000D}' || c == '\U{00A0}' || c == '\U{1680}'
    || '\U{2000}' <= c <= '\U{200A}' || c == '\U{2028}' || c == '\U{2029}'
    || c == '\U{202F}' || c == '\U{205F}' || c == '\U{3000}' || c == '\U{FEFF}'
  }

  /** `\w` */
  predicate IsWord(c: char) {
    'a' <= c <= 'z' || 'A' <= c <= 'Z' || '0' <= c <= '9' || c == '_'
  }

  /** `[\w.]` */
  predicate IsNameChar(c: char) {
    IsWord(c) || c == '.'
  }

  /** The characters `.` does not match. */
  predicate IsLineEnd(c: char) {
    c == '\n' || c == '\r' || c == '\U{2028}' || c == '\U{2029}'
  }

  predicate Blank(s: string) { forall i | 0 <= i < |s| :: IsBlank(s[i]) }

  predicate IsWordText(s: string) { forall i | 0 <= i < |s| :: IsWord(s[i]) }

  predicate IsNameText(s: string) { forall i | 0 <= i < |s| :: IsNameChar(s[i]) }

  predicate IsName(s: string) { s != "" && IsNameText(s) }

  predicate BraceFree(s: string) { forall i | 0 <= i < |s| :: s[i] != '{' && s[i] != '}' }

  // ---------- matching at the start of a text: where the match ends, 0 for none ----------

  /** `\s*}}` */
  function TrailEnd(s: string): (n: nat)
    ensures n <= |s| && n != 1
  {
    if "}}" <= s then 2
    else if s != "" && IsBlank(s[0]) && TrailEnd(s[1..]) > 0 then 1 + TrailEnd(s[1..])
    else 0
  }

  /** `key\s*}}`, the key read as a regular expression: `.` is a wildcard. */
  function KeyEnd(key: string, s: string): (n: nat)
    ensures n <= |s| && n != 1
  {
    if key == "" then TrailEnd(s)
    else if s != "" && (if key[0] == '.' then !IsLineEnd(s[0]) else s[0] == key[0])
            && KeyEnd(key[1..], s[1..]) > 0
    then 1 + KeyEnd(key[1..], s[1..])
    else 0
  }

  /** `\s*key\s*}}`: the first `\s*` gives blanks back, longest choice first. */
  function SpacedEnd(key: string, s: string): (n: nat)
    ensures n <= |s| && n != 1
  {
    if s != "" && IsBlank(s[0]) && SpacedEnd(key, s[1..]) > 0 then 1 + SpacedEnd(key, s[1..])
    else KeyEnd(key, s)
  }

  /** `[\w.]*\s*}}`: the two classes exclude each other, so nothing is given back. */
  function NameTail(s: string): (n: nat)
    ensures n <= |s| && n != 1
  {
    if s == "" || !IsNameChar(s[0]) then TrailEnd(s)
    else if NameTail(s[1..]) > 0 then 1 + NameTail(s[1..])
    else 0
  }

  /** `\s*[\w.]+\s*}}` */
  function NameEnd(s: string): (n: nat)
    ensures n <= |s| && n != 1
  {
    if s == "" then 0
    else if IsBlank(s[0]) then if NameEnd(s[1..]) > 0 then 1 + NameEnd(s[1..]) else 0
    else if IsNameChar(s[0]) then NameTail(s)
    else 0
  }

  /** Length of the match of `p` at the start of `s`; 0 when there is none. */
  function MatchLen(p: Pattern, s: string): (n: nat)
    ensures n <= |s|
    ensures n > 0 ==> "{{" <= s && n >= 4
  {
    if !("{{" <= s) then 0
    else
      match p
      case Exact(key) => if "{{" + key + "}}" <= s then |key| + 4 else 0
      case Spaced(key) => if SpacedEnd(key, s[2..]) > 0 then 2 + SpacedEnd(key, s[2..]) else 0
      case AnyName => if NameEnd(s[2..]) > 0 then 2 + NameEnd(s[2..]) else 0
  }

  function NameRun(s: string): (name: string)
    ensures IsNameText(name)
  {
    if s == "" || !IsNameChar(s[0]) then "" else [s[0]] + NameRun(s[1..])
  }

  function SkipBlanks(s: string): string {
    if s == "" || !IsBlank(s[0]) then s else SkipBlanks(s[1..])
  }

  /** The captured name of a match of AnyName: group 1 of the expression. */
  function NameAt(s: string): (name: string)
    requires "{{" <= s
  {
    NameRun(SkipBlanks(s[2..]))
  }

  // ---------- searching a text ----------

  /** Left-to-right, non-overlapping replacement of every match. */
  function ReplaceAll(p: Pattern, value: string, s: string): string
    decreases |s|
  {
    if s == "" then ""
    else if MatchLen(p, s) > 0 then value + ReplaceAll(p, value, s[MatchLen(p, s)..])
    else [s[0]] + ReplaceAll(p, value, s[1..])
  }

  /** The names `{{\s*([\w.]+)\s*}}` captures at any position of the text. */
  function Names(s: string): set<string> {
    if s == "" then {}
    else (if MatchLen(AnyName, s) > 0 then {NameAt(s)} else {}) + Names(s[1..])
  }

  /** Names is a set over positions: nothing is skipped because of an earlier match. */
  lemma {:induction false} NamesAreOccurrences(s: string, name: string)
    ensures name in Names(s) <==>
            exists i :: 0 <= i < |s| && MatchLen(AnyName, s[i..]) > 0 && NameAt(s[i..]) == name
  {
    if s == "" {
    } else {
      NamesAreOccurrences(s[1..], name);
      assert s[0..] == s;
      forall i | 0 <= i < |s[1..]| ensures s[1..][i..] == s[i + 1..] {}
      if i :| 0 <= i < |s| && MatchLen(AnyName, s[i..]) > 0 && NameAt(s[i..]) == name {
        if i > 0 {
          assert s[1..][i - 1..] == s[i..];
        }
      }
    }
  }

  lemma {:induction false} CapturedName(t: string)
    requires NameEnd(t) > 0
    ensures IsName(NameRun(SkipBlanks(t)))
  {
    if IsBlank(t[0]) {
      CapturedName(t[1..]);
    }
  }

  /** No opening brace between the braces of a match. */
  lemma {:induction false} TrailHasNoBrace(t: string, k: nat)
    requires k < TrailEnd(t)
    ensures t[k] != '{'
  {
    if !("}}" <= t) && k > 0 {
      TrailHasNoBrace(t[1..], k - 1);
    }
  }

  lemma {:induction false} NameTailHasNoBrace(t: string, k: nat)
    requires k < NameTail(t)
    ensures t[k] != '{'
  {
    if !IsNameChar(t[0]) {
      TrailHasNoBrace(t, k);
    } else if k > 0 {
      NameTailHasNoBrace(t[1..], k - 1);
    }
  }

  lemma {:induction false} NameEndHasNoBrace(t: string, k: nat)
    requires k < NameEnd(t)
    ensures t[k] != '{'
  {
    if !IsBlank(t[0]) {
      NameTailHasNoBrace(t, k);
    } else if k > 0 {
      NameEndHasNoBrace(t[1..], k - 1);
    }
  }

  /** Two matches of the scan never overlap. */
  lemma MatchesNeverOverlap(s: string, i: nat, j: nat)
    requires i < j <= |s|
    requires MatchLen(AnyName, s[i..]) > 0 && MatchLen(AnyName, s[j..]) > 0
    ensures i + MatchLen(AnyName, s[i..]) <= j
  {
    var t := s[i..][2..];
    assert s[j] == s[j..][0] && s[j + 1] == s[j..][1];
    var k := if j == i + 1 then 0 else j - i - 2;
    assert t[k] == if j == i + 1 then s[j + 1] else s[j];
    if k < NameEnd(t) {
      NameEndHasNoBrace(t, k);
    }
  }

  // ---------- texts with holes ----------

  /** A template as its author means it: literal text and holes `{{ name }}` with
      blanks on either side of the name. */
  datatype Segment = Lit(text: string) | Hole(lead: string, name: string, trail: string)

  /** The text between the braces of a hole. */
  function Inner(h: Segment): string
    requires h.Hole?
  {
    h.lead + h.name + h.trail
  }

  /** Every opening brace is followed, inside the piece, by another character:
      the piece holds no `{{` and cannot complete one with what follows it. */
  predicate Safe(s: string) {
    forall i | 0 <= i < |s| :: s[i] == '{' ==> i + 1 < |s| && s[i + 1] != '{'
  }

  predicate Trimmed(s: string) {
    s != "" ==> !IsBlank(s[0]) && !IsBlank(s[|s| - 1])
  }

  predicate WellFormedSegment(seg: Segment) {
    match seg
    case Lit(t) => Safe(t)
    case Hole(lead, name, trail) => Blank(lead) && Blank(trail) && BraceFree(name) && Trimmed(name)
  }

  predicate WellFormed(segs: seq<Segment>) {
    forall i | 0 <= i < |segs| :: WellFormedSegment(segs[i])
  }

  function Show(seg: Segment): string {
    match seg
    case Lit(t) => t
    case Hole(_, _, _) => "{{" + (Inner(seg) + "}}")
  }

  function Flatten(segs: seq<Segment>): string {
    if segs == [] then "" else Show(segs[0]) + Flatten(segs[1..])
  }

  lemma FlattenCons(segs: seq<Segment>)
    requires segs != []
    ensures Flatten(segs) == Show(segs[0]) + Flatten(segs[1..])
  {
  }

  /** Whether a pattern recognises a hole. */
  predicate Fits(p: Pattern, h: Segment)
    requires h.Hole?
  {
    match p
    case Exact(key) => Inner(h) == key
    case Spaced(key) => h.name == key
    case AnyName => IsName(h.name)
  }

  /** Patterns whose key cannot itself disturb the brace structure. */
  predicate Tame(p: Pattern) {
    match p
    case Exact(key) => BraceFree(key)
    case Spaced(key) => IsWordText(key)
    case AnyName => true
  }

  // ---------- a hole is matched as a whole, literal text never ----------

  lemma NameNotBlank(c: char)
    ensures IsNameChar(c) ==> !IsBlank(c)
  {
  }

  /** Blanks up to the closing braces. */
  lemma {:induction false} TrailInHole(x: string, rest: string)
    requires BraceFree(x)
    ensures TrailEnd(x + ("}}" + rest)) == if Blank(x) then |x| + 2 else 0
  {
    var s := x + ("}}" + rest);
    if x == "" {
      assert s == "}}" + rest;
    } else {
      assert s[0] == x[0] && s[1..] == x[1..] + ("}}" + rest);
      TrailInHole(x[1..], rest);
      assert Blank(x) <==> IsBlank(x[0]) && Blank(x[1..]) by { BlankCons(x); }
    }
  }

  lemma BlankCons(x: string)
    requires x != ""
    ensures Blank(x) <==> IsBlank(x[0]) && Blank(x[1..])
  {
    if IsBlank(x[0]) && Blank(x[1..]) {
      forall i | 0 <= i < |x| ensures IsBlank(x[i]) {
        if i > 0 { assert x[1..][i - 1] == x[i]; }
      }
    }
  }

  /** A key matches the rest of a hole only when it is all of the name. */
  lemma {:induction false} KeyInHole(key: string, x: string, trail: string, rest: string)
    requires IsWordText(key) && BraceFree(x) && Blank(trail)
    requires x != "" ==> !IsBlank(x[|x| - 1])
    ensures KeyEnd(key, x + (trail + ("}}" + rest))) == if key == x then |x| + |trail| + 2 else 0
  {
    var s := x + (trail + ("}}" + rest));
    if key == "" {
      assert s == (x + trail) + ("}}" + rest);
      TrailInHole(x + trail, rest);
      if x != "" {
        assert (x + trail)[|x| - 1] == x[|x| - 1];
      }
    } else if x == "" {
      NameNotBlank(key[0]);
      assert s[0] == if trail == "" then '}' else trail[0];
    } else {
      assert s[0] == x[0] && s[1..] == x[1..] + (trail + ("}}" + rest));
      KeyInHole(key[1..], x[1..], trail, rest);
      assert key == [key[0]] + key[1..] && x == [x[0]] + x[1..];
    }
  }

  /** A hole without a name. */
  lemma {:induction false} KeyOnBlanks(key: string, b: string, rest: string)
    requires IsWordText(key) && Blank(b)
    ensures SpacedEnd(key, b + ("}}" + rest)) == if key == "" then |b| + 2 else 0
  {
    var s := b + ("}}" + rest);
    assert s == "" + (b + ("}}" + rest));
    KeyInHole(key, "", b, rest);
    if b == "" {
    } else {
      assert s[1..] == b[1..] + ("}}" + rest);
      KeyOnBlanks(key, b[1..], rest);
    }
  }

  /** A nonempty name not reached yet: a key tried on a blank cannot match. */
  lemma KeyTooEarly(key: string, x: string, rest: string)
    requires IsWordText(key) && BraceFree(x) && x != "" && IsBlank(x[0]) && !Blank(x)
    ensures KeyEnd(key, x + ("}}" + rest)) == 0
  {
    if key == "" {
      TrailInHole(x, rest);
    } else {
      NameNotBlank(key[0]);
    }
  }

  lemma {:induction false} SpacedInHole(key: string, lead: string, name: string, trail: string, rest: string)
    requires IsWordText(key) && WellFormedSegment(Hole(lead, name, trail))
    ensures SpacedEnd(key, lead + (name + (trail + ("}}" + rest)))) ==
            if name == key then |lead| + |name| + |trail| + 2 else 0
  {
    var c := name + (trail + ("}}" + rest));
    var s := lead + c;
    if name == "" {
      assert s == (lead + trail) + ("}}" + rest);
      KeyOnBlanks(key, lead + trail, rest);
    } else if lead == "" {
      assert s == c && s[0] == name[0];
      KeyInHole(key, name, trail, rest);
    } else {
      assert s[0] == lead[0] && s[1..] == lead[1..] + c;
      SpacedInHole(key, lead[1..], name, trail, rest);
      var x := lead + name + trail;
      assert x[|lead|] == name[0];
      assert s == x + ("}}" + rest);
      KeyTooEarly(key, x, rest);
    }
  }

  lemma {:induction false} NameTailInHole(x: string, trail: string, rest: string)
    requires BraceFree(x) && Blank(trail)
    requires x != "" ==> !IsBlank(x[|x| - 1])
    ensures var s := x + (trail + ("}}" + rest));
            && NameTail(s) == (if IsNameText(x) then |x| + |trail| + 2 else 0)
            && (IsNameText(x) ==> NameRun(s) == x)
  {
    var s := x + (trail + ("}}" + rest));
    assert s == (x + trail) + ("}}" + rest);
    if x == "" {
      assert s == trail + ("}}" + rest);
      TrailInHole(trail, rest);
      assert s[0] == if trail == "" then '}' else trail[0];
      NameNotBlank(s[0]);
    } else if !IsNameChar(x[0]) {
      TrailInHole(x + trail, rest);
      assert (x + trail)[|x| - 1] == x[|x| - 1];
    } else {
      assert s[0] == x[0] && s[1..] == x[1..] + (trail + ("}}" + rest));
      NameTailInHole(x[1..], trail, rest);
      assert IsNameText(x) <==> IsNameText(x[1..]) by { NameTextCons(x); }
      assert x == [x[0]] + x[1..];
    }
  }

  lemma NameTextCons(x: string)
    requires x != ""
    ensures IsNameText(x) <==> IsNameChar(x[0]) && IsNameText(x[1..])
  {
    if IsNameChar(x[0]) && IsNameText(x[1..]) {
      forall i | 0 <= i < |x| ensures IsNameChar(x[i]) {
        if i > 0 { assert x[1..][i - 1] == x[i]; }
      }
    }
  }

  lemma {:induction false} NameEndInHole(lead: string, name: string, trail: string, rest: string)
    requires WellFormedSegment(Hole(lead, name, trail))
    ensures var s := lead + (name + (trail + ("}}" + rest)));
            && NameEnd(s) == (if IsName(name) then |lead| + |name| + |trail| + 2 else 0)
            && (IsName(name) ==> NameRun(SkipBlanks(s)) == name)
  {
    var c := name + (trail + ("}}" + rest));
    var s := lead + c;
    if lead != "" {
      assert s[0] == lead[0] && s[1..] == lead[1..] + c;
      NameEndInHole(lead[1..], name, trail, rest);
    } else if name != "" {
      assert s == c && s[0] == name[0];
      NameTailInHole(name, trail, rest);
    } else {
      assert s == trail + ("}}" + rest);
      NamelessHole(trail, rest);
    }
  }

  lemma {:induction false} NamelessHole(b: string, rest: string)
    requires Blank(b)
    ensures NameEnd(b + ("}}" + rest)) == 0
  {
    if b == "" {
    } else {
      assert (b + ("}}" + rest))[1..] == b[1..] + ("}}" + rest);
      NamelessHole(b[1..], rest);
    }
  }

  lemma ExactInHole(key: string, inner: string, rest: string)
    requires BraceFree(key) && BraceFree(inner)
    ensures "{{" + key + "}}" <= "{{" + (inner + ("}}" + rest)) <==> inner == key
  {
    var s := "{{" + (inner + ("}}" + rest));
    var k := "{{" + key + "}}";
    assert s[2 + |inner|] == '}' && k[2 + |key|] == '}';
    assert forall i | 0 <= i < |inner| :: s[2 + i] == inner[i];
    assert forall i | 0 <= i < |key| :: k[2 + i] == key[i];
    if k <= s {
      assert forall i | 0 <= i < |k| :: k[i] == s[i];
      assert |key| == |inner|;
      assert key == inner;
    }
  }

  lemma ShownHole(h: Segment, rest: string)
    requires h.Hole?
    ensures var s := Show(h) + rest;
            && s == "{{" + (Inner(h) + ("}}" + rest))
            && "{{" <= s
            && s[2..] == h.lead + (h.name + (h.trail + ("}}" + rest)))
  {
    assert Show(h) + rest == "{{" + (Inner(h) + ("}}" + rest));
  }

  /** A hole standing in a text is recognised as a whole exactly when the pattern fits it. */
  lemma HoleMatch(p: Pattern, h: Segment, rest: string)
    requires Tame(p) && h.Hole? && WellFormedSegment(h)
    ensures MatchLen(p, Show(h) + rest) == if Fits(p, h) then |Show(h)| else 0
  {
    ShownHole(h, rest);
    match p
    case Exact(key) =>
      ExactInHole(key, Inner(h), rest);
    case Spaced(key) => SpacedInHole(key, h.lead, h.name, h.trail, rest);
    case AnyName => NameEndInHole(h.lead, h.name, h.trail, rest);
  }

  lemma HoleName(h: Segment, rest: string)
    requires h.Hole? && WellFormedSegment(h) && IsName(h.name)
    ensures NameAt(Show(h) + rest) == h.name
  {
    ShownHole(h, rest);
    NameEndInHole(h.lead, h.name, h.trail, rest);
  }
}
