/** email-service: rendering a template with one regular expression per variable. */
module EmailTemplate {
  import opened Common
  import opened Placeholders
  import opened Substitution

  /** `String(value)`, with null and undefined as the empty text. */
  function Texts(variables: map<string, Option<string>>): map<string, string> {
    map k | k in variables :: if variables[k].Some? then variables[k].value else ""
  }

  /** `renderTemplate`: `keys` is `Object.keys(variables)`, in whatever order.  The keys
      are made of word characters and dots and the values hold no `$`, so a key has no other
      regular-expression operator than the dot and a value is inserted as it stands. */
  method RenderTemplate(template: string, keys: seq<string>, variables: map<string, Option<string>>)
    returns (rendered: string)
    requires forall k | k in keys :: k in variables
    requires forall k | k in variables :: IsNameText(k) && '$' !in Texts(variables)[k]
    ensures rendered == Sequential(Spacious, Texts(variables), keys, template)
  {
    rendered := template;
    for i := 0 to |keys|
      invariant Sequential(Spacious, Texts(variables), keys, template) ==
                Sequential(Spacious, Texts(variables), keys[i..], rendered)
    {
      var value := variables[keys[i]];
      var stringValue := if value.Some? then value.value else "";
      assert keys[i..][0] == keys[i] && keys[i..][1..] == keys[i + 1..];
      rendered := ReplaceAll(Spaced(keys[i]), stringValue, rendered);
    }
  }

  /** Rendering fills in every bound hole at once, in every order of the keys, and the
      placeholders a scan finds afterwards are exactly the names without a variable. */
  lemma RenderOutcome(segs: seq<Segment>, texts: map<string, string>, keys: seq<string>)
    requires WellFormed(segs) && TameVars(Spacious, texts) && Elements(keys) == texts.Keys
    ensures forall k | k in keys :: k in texts
    ensures var out := Sequential(Spacious, texts, keys, Flatten(segs));
            && out == Flatten(Simultaneous(Spacious, texts, texts.Keys, segs))
            && Names(out) == HoleNames(segs) - texts.Keys
  {
    forall k | k in keys ensures k in texts {
      assert k in Elements(keys);
    }
    SequentialIsSimultaneous(Spacious, texts, keys, segs);
    var filled := Simultaneous(Spacious, texts, texts.Keys, segs);
    SubstitutionKeepsForm(Spacious, texts, texts.Keys, segs);
    NamesOverTemplate(filled);
    forall h | h in filled && h.Hole? ensures h in segs && h.name !in texts {
      var i :| 0 <= i < |filled| && filled[i] == h;
      assert segs[i] == h;
    }
    forall h | h in segs && h.Hole? && h.name !in texts ensures h in filled {
      var i :| 0 <= i < |segs| && segs[i] == h;
      assert filled[i] == h;
    }
  }

  /** A template of one placeholder: the text of its variable, nothing for null and undefined. */
  lemma LoneVariable(key: string, v: Option<string>)
    requires key != "" && IsWordText(key)
    ensures Sequential(Spacious, Texts(map[key := v]), [key], "{{" + (key + "}}")) == match v case None => "" case Some(t) => t
  {
    var h, texts := Hole("", key, ""), Texts(map[key := v]);
    NameNotBlank(key[0]);
    NameNotBlank(key[|key| - 1]);
    assert Inner(h) == key && Show(h) + "" == Show(h) && [key][1..] == [];
    hide ReplaceAll, Show;
    ReplaceOverHole(Spaced(key), texts[key], h, "");
    NoText(Spaced(key), texts[key]);
    assert texts[key] + "" == texts[key];
    assert Show(h) == "{{" + (key + "}}") by { ShownHole(h, ""); assert Show(h) + "" == Show(h); assert key + ("}}" + "") == key + "}}"; }
    assert Sequential(Spacious, texts, [key], Show(h)) == Sequential(Spacious, texts, [], texts[key]);
  }

  lemma NoText(p: Pattern, v: string)
    ensures ReplaceAll(p, v, "") == ""
  {
  }

  // ---------- a dot in a key is a wildcard ----------

  /** The key with every dot replaced by a letter. */
  function Dotless(key: string): (name: string)
    requires IsName(key)
    ensures |name| == |key| && IsWordText(name) && IsName(name)
    ensures forall i | 0 <= i < |key| :: key[i] == '.' || key[i] == name[i]
  {
    seq(|key|, i requires 0 <= i < |key| => if key[i] == '.' then 'x' else key[i])
  }

  lemma {:induction false} WildcardEnd(key: string, name: string)
    requires |name| == |key| && IsWordText(name)
    requires forall i | 0 <= i < |key| :: key[i] == '.' || key[i] == name[i]
    ensures KeyEnd(key, name + "}}") == |key| + 2
  {
    if key == "" {
      assert name + "}}" == "}}";
    } else {
      assert (name + "}}")[1..] == name[1..] + "}}";
      WildcardEnd(key[1..], name[1..]);
    }
  }

  /** The pass for a key takes the hole of its dotless form as its own. */
  lemma WildcardCaptures(key: string, v: string)
    requires IsName(key)
    ensures ReplaceAll(Spaced(key), v, "{{" + (Dotless(key) + "}}")) == v
  {
    var name := Dotless(key);
    var s := "{{" + (name + "}}");
    assert s[2..] == name + "}}" && (name + "}}")[0] == name[0];
    WildcardEnd(key, name);
    NameNotBlank(name[0]);
    assert MatchLen(Spaced(key), s) == |s|;
    assert s[|s|..] == "" && v + "" == v;
  }

  lemma OneCharStays(p: Pattern, v: string, c: char)
    ensures ReplaceAll(p, v, [c]) == [c]
  {
    assert [c][1..] == "" && [c] + "" == [c];
  }

  /** Rendering substitutes at once, whatever the template and the order, with any variables
      among which `key` is the only one that may hold a dot. */
  ghost predicate AlwaysSimultaneous(key: string) {
    forall segs, texts: map<string, string>, keys: seq<string> ::
      && WellFormed(segs) && key in texts && Elements(keys) == texts.Keys && (forall k | k in keys :: k in texts)
      && (forall k | k in texts :: Safe(texts[k]) && (k == key || IsWordText(k)))
      ==> Sequential(Spacious, texts, keys, Flatten(segs)) == Flatten(Simultaneous(Spacious, texts, texts.Keys, segs))
  }

  lemma TwoPasses(texts: map<string, string>, a: string, b: string, text: string)
    requires a in texts && b in texts
    ensures Sequential(Spacious, texts, [a, b], text) ==
            ReplaceAll(Spaced(b), texts[b], ReplaceAll(Spaced(a), texts[a], text))
  {
    var once := ReplaceAll(Spaced(a), texts[a], text);
    assert [a, b][1..] == [b] && [b][1..] == [];
    assert Sequential(Spacious, texts, [b], once) == Sequential(Spacious, texts, [], ReplaceAll(Spaced(b), texts[b], once));
  }

  lemma LoneHole(name: string)
    requires IsName(name)
    ensures WellFormed([Hole("", name, "")]) && Flatten([Hole("", name, "")]) == "{{" + (name + "}}")
    ensures Flatten([Lit("2")]) == "2"
  {
    var h := Hole("", name, "");
    NameNotBlank(name[0]);
    NameNotBlank(name[|name| - 1]);
    assert Flatten([h]) == Show(h) + Flatten([]) && Inner(h) == name;
    assert Flatten([Lit("2")]) == "2" + Flatten([]);
  }

  /** The dot is what breaks it: `a.b` also fills in the hole of `axb`. */
  lemma DottedKeyCaptures(key: string)
    requires IsName(key) && !IsWordText(key)
    ensures !AlwaysSimultaneous(key)
  {
    hide ReplaceAll, Sequential, Flatten, WellFormed, Dotless;
    var name := Dotless(key);
    assert name != key;
    var texts, keys, segs := map[key := "1", name := "2"], [key, name], [Hole("", name, "")];
    LoneHole(name);
    WildcardCaptures(key, "1");
    OneCharStays(Spaced(name), "2", '1');
    TwoPasses(texts, key, name, Flatten(segs));
    assert Sequential(Spacious, texts, keys, Flatten(segs)) == "1";
    assert Simultaneous(Spacious, texts, texts.Keys, segs) == [Lit("2")];
    assert keys[0] == key && keys[1] == name;
    assert Elements(keys) == texts.Keys;
  }

  /** A key is safe with every template exactly when it holds no dot. */
  lemma SafeKeysExactly(key: string)
    requires IsName(key)
    ensures AlwaysSimultaneous(key) <==> '.' !in key
  {
    if '.' in key {
      DottedKeyCaptures(key);
    } else {
      forall segs, texts: map<string, string>, keys: seq<string> |
        && WellFormed(segs) && key in texts && Elements(keys) == texts.Keys && (forall k | k in keys :: k in texts)
        && (forall k | k in texts :: Safe(texts[k]) && (k == key || IsWordText(k)))
        ensures Sequential(Spacious, texts, keys, Flatten(segs)) == Flatten(Simultaneous(Spacious, texts, texts.Keys, segs))
      {
        SequentialIsSimultaneous(Spacious, texts, keys, segs);
      }
    }
  }

  // ---------- what is left when keys may hold dots ----------

  lemma {:induction false} TrailEndsInBraces(s: string)
    requires TrailEnd(s) > 0
    ensures s[TrailEnd(s) - 2] == '}' && s[TrailEnd(s) - 1] == '}'
  {
    if "}}" <= s {
    } else {
      TrailEndsInBraces(s[1..]);
    }
  }

  lemma {:induction false} KeyEndsInBraces(key: string, s: string)
    requires KeyEnd(key, s) > 0
    ensures s[KeyEnd(key, s) - 2] == '}' && s[KeyEnd(key, s) - 1] == '}'
  {
    if key == "" {
      TrailEndsInBraces(s);
    } else {
      KeyEndsInBraces(key[1..], s[1..]);
    }
  }

  lemma {:induction false} SpacedEndsInBraces(key: string, s: string)
    requires SpacedEnd(key, s) > 0
    ensures s[SpacedEnd(key, s) - 2] == '}' && s[SpacedEnd(key, s) - 1] == '}'
  {
    if s != "" && IsBlank(s[0]) && SpacedEnd(key, s[1..]) > 0 {
      SpacedEndsInBraces(key, s[1..]);
    } else {
      KeyEndsInBraces(key, s);
    }
  }

  /** A position right after two closing braces, or after one that begins the text. */
  predicate AfterBraces(t: string, n: nat) {
    n <= |t| && (n > 0 ==> t[n - 1] == '}') && (n > 1 ==> t[n - 2] == '}')
  }

  /** The holes of `out` are holes of `segs`. */
  predicate FewerHoles(out: seq<Segment>, segs: seq<Segment>) {
    forall h | h in out && h.Hole? :: h in segs
  }

  lemma InnerHasNoBraces(h: Segment, n: nat)
    requires h.Hole? && WellFormedSegment(h) && 0 < n < |Show(h)|
    ensures !AfterBraces(Show(h), n)
  {
    var x := Inner(h);
    assert BraceFree(x);
    assert forall i | 0 <= i < |x| :: Show(h)[2 + i] == x[i];
  }

  lemma PrefixAfterBraces(a: string, b: string, n: nat)
    requires AfterBraces(a + b, n)
    ensures n <= |a| ==> AfterBraces(a, n)
    ensures n >= |a| ==> AfterBraces(b, n - |a|)
  {
    assert n <= |a| ==> forall i | 0 <= i < n :: (a + b)[i] == a[i];
    assert n > |a| ==> (a + b)[n - 1] == b[n - 1 - |a|];
    assert n > |a| + 1 ==> (a + b)[n - 2] == b[n - 2 - |a|];
  }

  lemma SafeSuffix(t: string, n: nat)
    requires Safe(t) && n <= |t|
    ensures Safe(t[n..])
  {
    forall i | 0 <= i < |t[n..]| && t[n..][i] == '{' ensures i + 1 < |t[n..]| && t[n..][i + 1] != '{' {
      assert t[n + i] == '{';
    }
  }

  /** Cut after closing braces, a template leaves a template. */
  lemma {:induction false} CutAfterBraces(segs: seq<Segment>, n: nat) returns (out: seq<Segment>)
    requires WellFormed(segs) && AfterBraces(Flatten(segs), n)
    ensures WellFormed(out) && FewerHoles(out, segs) && Flatten(out) == Flatten(segs)[n..]
  {
    hide Flatten, Safe, WellFormedSegment, AfterBraces;
    if n == 0 {
      out := segs;
    } else if segs == [] {
      assert false by { NothingToCut(segs, n); }
    } else {
      var first, rest := Show(segs[0]), segs[1..];
      FlattenCons(segs);
      assert WellFormedSegment(segs[0]) && WellFormed(rest);
      PrefixAfterBraces(first, Flatten(rest), n);
      if n >= |first| {
        out := CutAfterBraces(rest, n - |first|);
        assert Flatten(segs)[n..] == Flatten(rest)[n - |first|..];
      } else {
        NotInHole(segs[0], n);
        var lit := Lit(segs[0].text[n..]);
        out := [lit] + rest;
        CutLit(segs[0].text, n);
        FlattenCons(out);
        assert out[1..] == rest;
        assert (first + Flatten(rest))[n..] == first[n..] + Flatten(rest);
      }
    }
  }

  lemma NothingToCut(segs: seq<Segment>, n: nat)
    requires segs == [] && AfterBraces(Flatten(segs), n)
    ensures n == 0
  {
  }

  lemma NotInHole(seg: Segment, n: nat)
    requires WellFormedSegment(seg) && 0 < n < |Show(seg)| && AfterBraces(Show(seg), n)
    ensures seg.Lit?
  {
    if seg.Hole? {
      InnerHasNoBraces(seg, n);
    }
  }

  lemma CutLit(t: string, n: nat)
    requires WellFormedSegment(Lit(t)) && n <= |t|
    ensures WellFormedSegment(Lit(t[n..])) && Show(Lit(t[n..])) == t[n..] && Show(Lit(t)) == t
  {
    SafeSuffix(t, n);
  }

  /** A match at a hole ends after closing braces, the hole's own or later ones. */
  lemma MatchEndsAfterBraces(key: string, h: Segment, rest: string)
    requires h.Hole? && WellFormedSegment(h) && MatchLen(Spaced(key), Show(h) + rest) > 0
    ensures var n := MatchLen(Spaced(key), Show(h) + rest);
            n >= |Show(h)| && AfterBraces(rest, n - |Show(h)|)
  {
    var s := Show(h) + rest;
    var n := MatchLen(Spaced(key), s);
    SpacedEndsInBraces(key, s[2..]);
    assert s[n - 1] == '}' && s[n - 2] == '}';
    hide MatchLen, WellFormedSegment, Show;
    assert AfterBraces(s, n);
    PrefixAfterBraces(Show(h), rest, n);
    if n < |Show(h)| {
      InnerHasNoBraces(h, n);
    }
  }

  lemma {:induction false} OwnKeyEnds(key: string, trail: string, rest: string)
    requires IsNameText(key) && Blank(trail)
    ensures KeyEnd(key, key + (trail + ("}}" + rest))) > 0
  {
    var s := key + (trail + ("}}" + rest));
    if key == "" {
      assert s == trail + ("}}" + rest);
      TrailOfBlanks(trail, rest);
    } else {
      assert s[1..] == key[1..] + (trail + ("}}" + rest));
      OwnKeyEnds(key[1..], trail, rest);
    }
  }

  lemma TrailOfBlanks(trail: string, rest: string)
    requires Blank(trail)
    ensures TrailEnd(trail + ("}}" + rest)) > 0
  {
    assert BraceFree(trail);
    TrailInHole(trail, rest);
  }

  lemma {:induction false} OwnHoleEnds(key: string, lead: string, trail: string, rest: string)
    requires IsNameText(key) && Blank(lead) && Blank(trail)
    ensures SpacedEnd(key, lead + (key + (trail + ("}}" + rest)))) > 0
  {
    var c := key + (trail + ("}}" + rest));
    if lead == "" {
      assert lead + c == c;
      OwnKeyEnds(key, trail, rest);
    } else {
      assert (lead + c)[1..] == lead[1..] + c;
      OwnHoleEnds(key, lead[1..], trail, rest);
    }
  }

  /** A hole is always matched by its own name. */
  lemma OwnHoleMatches(h: Segment, rest: string)
    requires h.Hole? && WellFormedSegment(h) && IsNameText(h.name)
    ensures MatchLen(Spaced(h.name), Show(h) + rest) > 0
  {
    ShownHole(h, rest);
    OwnHoleEnds(h.name, h.lead, h.trail, rest);
  }

  /** No hole is named `key`. */
  predicate NoHoleNamed(segs: seq<Segment>, key: string) {
    forall h | h in segs && h.Hole? :: h.name != key
  }

  /** What is left of a template by one pass: a template again, with some of the holes, none of the key. */
  ghost predicate Leaves(text: string, segs: seq<Segment>, key: string, out: seq<Segment>) {
    WellFormed(out) && FewerHoles(out, segs) && NoHoleNamed(out, key) && text == Flatten(out)
  }

  lemma LeavesCons(seg: Segment, rest: seq<Segment>, key: string, text: string, out: seq<Segment>, segs: seq<Segment>)
    requires Leaves(text, rest, key, out) && WellFormedSegment(seg)
    requires seg.Hole? ==> seg in segs && seg.name != key
    requires FewerHoles(rest, segs)
    ensures Leaves(Show(seg) + text, segs, key, [seg] + out)
  {
    assert ([seg] + out)[1..] == out;
  }

  lemma FewerHolesTail(segs: seq<Segment>, out: seq<Segment>)
    requires segs != [] && FewerHoles(out, segs[1..])
    ensures FewerHoles(out, segs)
  {
  }

  /** One pass of email-service, its key any word with dots. */
  lemma {:induction false} DottedPass(key: string, v: string, segs: seq<Segment>) returns (out: seq<Segment>)
    requires WellFormed(segs) && IsNameText(key) && Safe(v)
    ensures Leaves(ReplaceAll(Spaced(key), v, Flatten(segs)), segs, key, out)
    decreases |Flatten(segs)|, |segs|
  {
    var p := Spaced(key);
    if segs == [] {
      out := [];
    } else {
      var seg, rest := segs[0], segs[1..];
      hide MatchLen, ReplaceAll, Safe, Flatten, Leaves, IsNameText, AfterBraces;
      FlattenCons(segs);
      assert WellFormedSegment(seg) && WellFormed(rest) && FewerHoles(rest, segs);
      if seg.Lit? {
        var tail := DottedPass(key, v, rest);
        ReplaceOverSafe(p, v, seg.text, Flatten(rest));
        out := [seg] + tail;
        LeavesCons(seg, rest, key, ReplaceAll(p, v, Flatten(rest)), tail, segs);
      } else if MatchLen(p, Flatten(segs)) == 0 {
        var tail := DottedPass(key, v, rest);
        CopyHole(p, v, seg, Flatten(rest));
        if seg.name == key { OwnHoleMatches(seg, Flatten(rest)); }
        out := [seg] + tail;
        LeavesCons(seg, rest, key, ReplaceAll(p, v, Flatten(rest)), tail, segs);
      } else {
        var n := MatchLen(p, Flatten(segs));
        MatchEndsAfterBraces(key, seg, Flatten(rest));
        var cut := CutAfterBraces(rest, n - |Show(seg)|);
        assert Flatten(segs)[n..] == Flatten(cut);
        FewerHolesTail(segs, cut);
        var tail := DottedPass(key, v, cut);
        out := [Lit(v)] + tail;
        ReplaceMatch(p, v, Flatten(segs));
        LeavesCons(Lit(v), cut, key, ReplaceAll(p, v, Flatten(cut)), tail, segs);
      }
    }
  }

  lemma ReplaceMatch(p: Pattern, v: string, s: string)
    requires MatchLen(p, s) > 0
    ensures s != "" && ReplaceAll(p, v, s) == v + ReplaceAll(p, v, s[MatchLen(p, s)..])
  {
    hide MatchLen;
  }

  /** After all passes, in any order, no hole of a key is left. */
  lemma {:induction false} DottedPasses(texts: map<string, string>, keys: seq<string>, segs: seq<Segment>)
    returns (out: seq<Segment>)
    requires WellFormed(segs) && forall k | k in keys :: k in texts && IsNameText(k) && Safe(texts[k])
    ensures WellFormed(out) && FewerHoles(out, segs) && Flatten(out) == Sequential(Spacious, texts, keys, Flatten(segs))
    ensures forall k | k in keys :: NoHoleNamed(out, k)
    decreases |keys|
  {
    if keys == [] {
      out := segs;
    } else {
      var once := DottedPass(keys[0], texts[keys[0]], segs);
      out := DottedPasses(texts, keys[1..], once);
    }
  }

  /** Whatever the dots capture, every placeholder with a variable is gone: the scan finds at most
      the names of the template without one. */
  lemma NothingBoundIsLeft(texts: map<string, string>, keys: seq<string>, segs: seq<Segment>)
    requires WellFormed(segs) && Elements(keys) == texts.Keys
    requires forall k | k in texts :: IsNameText(k) && Safe(texts[k])
    ensures forall k | k in keys :: k in texts
    ensures Names(Sequential(Spacious, texts, keys, Flatten(segs))) <= HoleNames(segs) - texts.Keys
  {
    forall k | k in keys ensures k in texts {
      assert k in Elements(keys);
    }
    var out := DottedPasses(texts, keys, segs);
    NamesOverTemplate(out);
    forall n | n in HoleNames(out) ensures n in HoleNames(segs) && n !in texts {
      var h :| h in out && h.Hole? && IsName(h.name) && h.name == n;
      assert h in segs;
      assert n in texts <==> n in Elements(keys);
      assert n in keys ==> NoHoleNamed(out, n);
    }
  }
}
