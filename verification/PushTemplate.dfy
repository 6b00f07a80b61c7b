/** push-service: rendering a template by repeated text replacement. */
module PushTemplate {
  import opened Common
  import opened Placeholders
  import opened Substitution

  datatype RenderError =
    | UnsupportedType(key: string)
    | MissingVariable(placeholder: string)
    | Panic  // `unwrap` on a closing brace that is not there

  /** The text a variable is replaced by; arrays and objects have none. */
  function ToText(v: Json): Option<string> {
    match v
    case Text(s) => Some(s)
    case Number(n) => Some(n)
    case Bool(b) => Some(if b then "true" else "false")
    case Null => Some("")
    case _ => None
  }

  predicate AllScalar(vars: map<string, Json>) {
    forall k | k in vars :: ToText(vars[k]).Some?
  }

  /** The texts of the scalar variables. */
  function Texts(vars: map<string, Json>): map<string, string> {
    map k | k in vars && ToText(vars[k]).Some? :: ToText(vars[k]).value
  }

  predicate OccursAt(s: string, pat: string, k: nat)
    requires k <= |s|
  {
    pat <= s[k..]
  }

  /** The first occurrence of `pat` from a position on. */
  predicate FirstAt(s: string, pat: string, from: nat, at: nat) {
    from <= at <= |s| && OccursAt(s, pat, at) && forall k | from <= k < at :: !OccursAt(s, pat, k)
  }

  /** `str::find` from a position on. */
  function Find(s: string, pat: string, from: nat): (r: Option<nat>)
    requires from <= |s|
    ensures r.Some? ==> FirstAt(s, pat, from, r.value)
    ensures r.None? ==> forall k | from <= k <= |s| :: !OccursAt(s, pat, k)
    decreases |s| - from
  {
    if OccursAt(s, pat, from) then Some(from)
    else if from == |s| then None
    else Find(s, pat, from + 1)
  }

  /** The check for a variable left over. */
  function Finish(text: string): Result<string, RenderError> {
    var open := Find(text, "{{", 0);
    if open.Some? && Find(text, "}}", 0).Some? then
      var close := Find(text, "}}", open.value);
      if close.None? then Err(Panic)
      else
        assert OccursAt(text, "}}", close.value);
        Err(MissingVariable(text[open.value..close.value + 2]))
    else Ok(text)
  }

  /** Rendering with one particular iteration order of the map. */
  function RenderInOrder(template: string, vars: map<string, Json>, order: seq<string>)
    : Result<string, RenderError>
    requires forall k | k in order :: k in vars
    decreases order
  {
    if order == [] then Finish(template)
    else
      match ToText(vars[order[0]])
      case None => Err(UnsupportedType(order[0]))
      case Some(v) => RenderInOrder(ReplaceAll(Exact(order[0]), v, template), vars, order[1..])
  }

  /** `order` lists every key once. */
  ghost predicate IsOrder(order: seq<string>, keys: set<string>) {
    && Elements(order) == keys
    && forall i, j | 0 <= i < j < |order| :: order[i] != order[j]
  }

  // ---------- the method ----------

  lemma {:induction false} SomeOrder(keys: set<string>) returns (order: seq<string>)
    ensures IsOrder(order, keys)
    decreases |keys|
  {
    if keys == {} {
      order := [];
    } else {
      var k :| k in keys;
      var rest := SomeOrder(keys - {k});
      assert k !in Elements(rest);
      order := [k] + rest;
      assert Elements(order) == {k} + Elements(rest);
    }
  }

  /** Passes over scalar variables are plain sequential replacement. */
  lemma {:induction false} RenderSplit(template: string, vars: map<string, Json>, done: seq<string>, tail: seq<string>)
    requires forall k | k in done :: k in Texts(vars)
    requires forall k | k in tail :: k in vars
    ensures forall k | k in done + tail :: k in vars
    ensures RenderInOrder(template, vars, done + tail) ==
            RenderInOrder(Sequential(Whole, Texts(vars), done, template), vars, tail)
    decreases done
  {
    assert forall k | k in done :: k in vars;
    if done == [] {
      assert done + tail == tail;
    } else {
      var next := ReplaceAll(Exact(done[0]), Texts(vars)[done[0]], template);
      assert (done + tail)[1..] == done[1..] + tail && (done + tail)[0] == done[0];
      RenderSplit(next, vars, done[1..], tail);
    }
  }

  lemma {:induction false} SequentialSnoc(
    r: Reading, vars: map<string, string>, done: seq<string>, k: string, text: string)
    requires k in vars && forall x | x in done :: x in vars
    ensures Sequential(r, vars, done + [k], text) ==
            ReplaceAll(PatternFor(r, k), vars[k], Sequential(r, vars, done, text))
    decreases done
  {
    if done == [] {
      assert done + [k] == [k];
      assert [k][1..] == [];
    } else {
      assert (done + [k])[1..] == done[1..] + [k];
      SequentialSnoc(r, vars, done[1..], k, ReplaceAll(PatternFor(r, done[0]), vars[done[0]], text));
    }
  }

  /** `r` is what some iteration order of the map gives. */
  ghost predicate Outcome(template: string, vars: map<string, Json>, r: Result<string, RenderError>) {
    exists order :: IsOrder(order, vars.Keys) && r == RenderInOrder(template, vars, order)
  }

  lemma OrdersJoin(a: seq<string>, k: string, b: seq<string>)
    requires IsOrder(a, Elements(a)) && IsOrder(b, Elements(b))
    requires k !in Elements(a) && k !in Elements(b) && Elements(a) !! Elements(b)
    ensures IsOrder(a + ([k] + b), Elements(a) + {k} + Elements(b))
  {
    var o := a + ([k] + b);
    assert Elements(o) == Elements(a) + {k} + Elements(b);
    forall i, j | 0 <= i < j < |o| ensures o[i] != o[j] {
      assert i < |a| ==> o[i] in Elements(a);
      assert j > |a| ==> o[j] in Elements(b);
      assert i > |a| ==> o[i] in Elements(b);
      assert j < |a| ==> o[j] in Elements(a);
    }
  }

  /** The next key of an iteration. */
  lemma OrderSnoc(done: seq<string>, key: string, keys: set<string>, remaining: set<string>)
    requires IsOrder(done, keys - remaining) && key in remaining && remaining <= keys
    ensures IsOrder(done + [key], keys - (remaining - {key}))
    ensures IsOrder(done, Elements(done)) && key !in Elements(done)
  {
    OrdersJoin(done, key, []);
    assert done + ([key] + []) == done + [key];
    assert Elements(done) + {key} + Elements([]) == keys - (remaining - {key});
  }

  /** All keys have been replaced. */
  lemma OutcomeAtEnd(template: string, vars: map<string, Json>, done: seq<string>)
    requires IsOrder(done, vars.Keys) && forall k | k in done :: k in Texts(vars)
    ensures Outcome(template, vars, Finish(Sequential(Whole, Texts(vars), done, template)))
  {
    RenderSplit(template, vars, done, []);
    assert done + [] == done;
  }

  /** The loop stops at a variable that is no scalar. */
  lemma OutcomeAtStop(template: string, vars: map<string, Json>, done: seq<string>, key: string)
    requires IsOrder(done, Elements(done)) && forall k | k in done :: k in Texts(vars)
    requires key in vars && ToText(vars[key]).None?
    ensures Outcome(template, vars, Err(UnsupportedType(key)))
  {
    assert key !in Elements(done);
    var rest := SomeOrder(vars.Keys - Elements(done) - {key});
    OrdersJoin(done, key, rest);
    var order := done + ([key] + rest);
    assert Elements(order) == vars.Keys by {
      assert forall k | k in Elements(done) :: k in Texts(vars);
    }
    forall k | k in [key] + rest ensures k in vars {
      assert k == key || k in Elements(rest);
    }
    RenderSplit(template, vars, done, [key] + rest);
  }

  /** `replace_variables`: the hash map is iterated in an order of its own choosing. */
  method ReplaceVariables(template: string, variables: map<string, Json>) returns (r: Result<string, RenderError>)
    ensures Outcome(template, variables, r)
  {
    var result := template;
    var remaining := variables.Keys;
    ghost var done: seq<string> := [];
    assert Sequential(Whole, Texts(variables), done, template) == template;
    assert IsOrder(done, variables.Keys - remaining);
    hide Sequential, ReplaceAll, Outcome, FirstAt, OccursAt, IsOrder, RenderInOrder;
    while remaining != {}
      invariant remaining <= variables.Keys
      invariant IsOrder(done, variables.Keys - remaining)
      invariant forall k | k in done :: k in Texts(variables)
      invariant result == Sequential(Whole, Texts(variables), done, template)
    {
      var key :| key in remaining;
      OrderSnoc(done, key, variables.Keys, remaining);
      match ToText(variables[key]) {
        case None =>
          OutcomeAtStop(template, variables, done, key);
          return Err(UnsupportedType(key));
        case Some(replacement) =>
          SequentialSnoc(Whole, Texts(variables), done, key, template);
          result := ReplaceAll(Exact(key), replacement, result);
          done := done + [key];
      }
      remaining := remaining - {key};
    }
    assert variables.Keys - remaining == variables.Keys;
    OutcomeAtEnd(template, variables, done);
    r := CheckLeftOver(result);
  }

  /** The end of `replace_variables`. */
  method CheckLeftOver(result: string) returns (r: Result<string, RenderError>)
    ensures r == Finish(result)
  {
    var open := Find(result, "{{", 0);
    if open.Some? && Find(result, "}}", 0).Some? {
      var start := open.value;
      match Find(result, "}}", start) {
        case None => return Err(Panic);
        case Some(e) => return Err(MissingVariable(result[start..e + 2]));
      }
    }
    return Ok(result);
  }

  // ---------- what the left-over check finds in a template ----------

  predicate HasHole(segs: seq<Segment>) {
    exists i :: 0 <= i < |segs| && segs[i].Hole?
  }

  /** Position of the leftmost hole. */
  function FirstHole(segs: seq<Segment>): (i: nat)
    requires HasHole(segs)
    ensures i < |segs| && segs[i].Hole?
    ensures forall k | 0 <= k < i :: segs[k].Lit?
  {
    if segs[0].Hole? then 0
    else
      assert HasHole(segs[1..]) by {
        var i :| 0 <= i < |segs| && segs[i].Hole?;
        assert segs[1..][i - 1].Hole?;
      }
      1 + FirstHole(segs[1..])
  }

  lemma SafeJoin(a: string, b: string)
    requires Safe(a) && Safe(b)
    ensures Safe(a + b)
  {
  }

  lemma {:induction false} FlattenSplit(segs: seq<Segment>, i: nat)
    requires WellFormed(segs) && i <= |segs|
    requires forall k | 0 <= k < i :: segs[k].Lit?
    ensures Flatten(segs) == Flatten(segs[..i]) + Flatten(segs[i..])
    ensures Safe(Flatten(segs[..i]))
  {
    hide Safe, Flatten, WellFormedSegment;
    if i == 0 {
      assert segs[0..] == segs;
      FlattenNothing(segs[..i]);
    } else {
      FlattenSplit(segs[1..], i - 1);
      FlattenCons(segs);
      FlattenCons(segs[..i]);
      assert segs[..i][1..] == segs[1..][..i - 1];
      assert segs[1..][i - 1..] == segs[i..];
      LitIsSafe(segs[0]);
      SafeJoin(Show(segs[0]), Flatten(segs[..i][1..]));
    }
  }

  lemma FlattenNothing(segs: seq<Segment>)
    requires segs == []
    ensures Flatten(segs) == "" && Safe(Flatten(segs))
  {
  }

  lemma LitIsSafe(seg: Segment)
    requires seg.Lit? && WellFormedSegment(seg)
    ensures Safe(Show(seg))
  {
  }

  lemma {:induction false} NoOpenIn(a: string, b: string, k: nat)
    requires Safe(a) && k < |a|
    ensures !OccursAt(a + b, "{{", k)
  {
    if k == 0 {
      SafeOpensNothing(a, b);
      assert (a + b)[0..] == a + b;
    } else {
      SafeTail(a);
      NoOpenIn(a[1..], b, k - 1);
      assert (a + b)[k..] == (a[1..] + b)[k - 1..];
    }
  }

  lemma FindIs(s: string, pat: string, from: nat, at: nat)
    requires FirstAt(s, pat, from, at)
    ensures Find(s, pat, from) == Some(at)
  {
  }

  lemma OccursShift(pre: string, t: string, pat: string, k: nat)
    requires k <= |t|
    ensures OccursAt(pre + t, pat, |pre| + k) <==> OccursAt(t, pat, k)
  {
    assert (pre + t)[|pre| + k..] == t[k..];
  }

  lemma FirstShift(pre: string, t: string, pat: string, at: nat)
    requires FirstAt(t, pat, 0, at)
    ensures FirstAt(pre + t, pat, |pre|, |pre| + at)
  {
    OccursShift(pre, t, pat, at);
    forall k | |pre| <= k < |pre| + at ensures !OccursAt(pre + t, pat, k) {
      OccursShift(pre, t, pat, k - |pre|);
    }
  }

  /** The closing braces found in a hole are its own. */
  lemma CloseOfHole(x: string, rest: string)
    requires BraceFree(x)
    ensures FirstAt("{{" + (x + ("}}" + rest)), "}}", 0, 2 + |x|)
  {
    var t := "{{" + (x + ("}}" + rest));
    forall k | 0 <= k < 2 + |x| ensures !OccursAt(t, "}}", k) {
      assert t[k..][0] == t[k];
      assert t[k] == if k < 2 then '{' else x[k - 2];
    }
    assert t[2 + |x|..] == "}}" + rest;
  }

  lemma OpenAfterSafe(pre: string, t: string)
    requires Safe(pre) && "{{" <= t
    ensures FirstAt(pre + t, "{{", 0, |pre|)
  {
    forall k | 0 <= k < |pre| ensures !OccursAt(pre + t, "{{", k) {
      NoOpenIn(pre, t, k);
    }
    assert (pre + t)[|pre|..] == t;
  }

  lemma FinishIs(text: string, open: nat, mid: string)
    requires |mid| >= 2 && open + |mid| <= |text| && text[open..open + |mid|] == mid
    requires FirstAt(text, "{{", 0, open) && FirstAt(text, "}}", open, open + |mid| - 2)
    ensures Finish(text) == Err(MissingVariable(mid))
  {
    FindIs(text, "{{", 0, open);
    FindIs(text, "}}", open, open + |mid| - 2);
    FindSome(text, "}}", open);
  }

  lemma CutOut(pre: string, mid: string, rest: string)
    ensures (pre + (mid + rest))[|pre|..|pre| + |mid|] == mid
  {
  }

  /** Safe text, then a hole: the hole is reported. */
  lemma FinishAtHole(pre: string, h: Segment, rest: string)
    requires Safe(pre) && h.Hole? && WellFormedSegment(h)
    ensures Finish(pre + (Show(h) + rest)) == Err(MissingVariable(Show(h)))
  {
    ShownHole(h, rest);
    CloseOfHole(Inner(h), rest);
    CutAtHole(pre, Show(h), rest);
  }

  lemma CutAtHole(pre: string, mid: string, rest: string)
    requires Safe(pre) && |mid| >= 4 && "{{" <= mid + rest && FirstAt(mid + rest, "}}", 0, |mid| - 2)
    ensures Finish(pre + (mid + rest)) == Err(MissingVariable(mid))
  {
    FirstShift(pre, mid + rest, "}}", |mid| - 2);
    OpenAfterSafe(pre, mid + rest);
    CutOut(pre, mid, rest);
    FinishIs(pre + (mid + rest), |pre|, mid);
  }

  lemma FindSome(s: string, pat: string, from: nat)
    requires from <= |s| && Find(s, pat, from).Some?
    ensures Find(s, pat, 0).Some?
  {
  }

  lemma FinishSafe(s: string)
    requires Safe(s)
    ensures Finish(s) == Ok(s)
  {
    forall k | 0 <= k < |s| ensures !OccursAt(s, "{{", k) {
      NoOpenIn(s, "", k);
      assert s + "" == s;
    }
  }

  /** Without a hole nothing is left over; otherwise the leftmost hole is reported. */
  lemma FinishTemplate(segs: seq<Segment>)
    requires WellFormed(segs)
    ensures Finish(Flatten(segs)) ==
            if HasHole(segs) then Err(MissingVariable(Show(segs[FirstHole(segs)]))) else Ok(Flatten(segs))
  {
    if HasHole(segs) {
      var i := FirstHole(segs);
      FlattenSplit(segs, i);
      assert segs[i..][1..] == segs[i + 1..];
      FinishAtHole(Flatten(segs[..i]), segs[i], Flatten(segs[i + 1..]));
    } else {
      FlattenSplit(segs, |segs|);
      assert segs[..|segs|] == segs;
      FinishSafe(Flatten(segs));
    }
  }

  /** On any text at all: the `unwrap` fails exactly when both braces occur and
      every closing pair comes before every opening pair. */
  lemma PanicsExactly(text: string)
    ensures Finish(text) == Err(Panic) <==>
            && (exists i: nat :: i <= |text| && OccursAt(text, "{{", i))
            && (exists k: nat :: k <= |text| && OccursAt(text, "}}", k))
            && (forall i: nat, k: nat | i <= |text| && k <= |text| :: OccursAt(text, "{{", i) && OccursAt(text, "}}", k) ==> k < i)
  {
    var open := Find(text, "{{", 0);
    if open.Some? && Find(text, "}}", 0).Some? && Find(text, "}}", open.value).None? {
      forall i: nat, k: nat | i <= |text| && k <= |text| && OccursAt(text, "{{", i) && OccursAt(text, "}}", k)
        ensures k < i
      {
        assert open.value <= i;
      }
    }
  }

  /** The shortest text that panics. */
  lemma PanicIsReached()
    ensures RenderInOrder("}}{{", map[], []) == Err(Panic)
  {
    var t := "}}{{";
    assert t[0..] == t && t[2..] == "{{";
    assert OccursAt(t, "}}", 0) && OccursAt(t, "{{", 2);
    forall i: nat, k: nat | i <= |t| && k <= |t| && OccursAt(t, "{{", i) && OccursAt(t, "}}", k) ensures k < i {
      assert t[i..][0] == t[i] && t[k..][0] == t[k] && t[k..][1] == t[k + 1];
    }
    PanicsExactly(t);
  }

  // ---------- the main results ----------

  /** Every hole is bound by a variable. */
  predicate AllBound(vars: map<string, Json>, segs: seq<Segment>) {
    forall i | 0 <= i < |segs| && segs[i].Hole? :: Inner(segs[i]) in vars
  }

  predicate TameInput(vars: map<string, Json>, segs: seq<Segment>) {
    && WellFormed(segs)
    && forall k | k in vars :: BraceFree(k) && (ToText(vars[k]).Some? ==> Safe(ToText(vars[k]).value))
  }

  /** The template with the bound holes filled in, all at once. */
  function Filled(vars: map<string, Json>, segs: seq<Segment>): seq<Segment> {
    Simultaneous(Whole, Texts(vars), vars.Keys, segs)
  }

  lemma FilledHoles(vars: map<string, Json>, segs: seq<Segment>)
    requires AllScalar(vars)
    ensures forall i | 0 <= i < |segs| ::
              Filled(vars, segs)[i].Hole? <==> segs[i].Hole? && Inner(segs[i]) !in vars
    ensures forall i | 0 <= i < |segs| :: Filled(vars, segs)[i].Hole? ==> Filled(vars, segs)[i] == segs[i]
    ensures AllBound(vars, segs) <==> !HasHole(Filled(vars, segs))
  {
    var f := Filled(vars, segs);
    if !HasHole(f) {
      forall i | 0 <= i < |segs| && segs[i].Hole? ensures Inner(segs[i]) in vars {
        assert !f[i].Hole?;
      }
    }
  }

  /** Whatever the iteration order, scalar variables give the simultaneous
      substitution, or name the leftmost hole it leaves open. */
  lemma RenderIsSubstitution(segs: seq<Segment>, vars: map<string, Json>, order: seq<string>)
    requires TameInput(vars, segs) && AllScalar(vars) && IsOrder(order, vars.Keys)
    ensures RenderInOrder(Flatten(segs), vars, order) ==
            if AllBound(vars, segs) then Ok(Flatten(Filled(vars, segs)))
            else (FilledHoles(vars, segs); Err(MissingVariable(Show(segs[FirstHole(Filled(vars, segs))]))))
  {
    forall k | k in order ensures k in vars {
      assert k in Elements(order);
    }
    assert order + [] == order;
    RenderSplit(Flatten(segs), vars, order, []);
    SequentialIsSimultaneous(Whole, Texts(vars), order, segs);
    SubstitutionKeepsForm(Whole, Texts(vars), vars.Keys, segs);
    FinishTemplate(Filled(vars, segs));
    FilledHoles(vars, segs);
  }

  /** An array or object among the variables makes every order fail, on such a key. */
  lemma {:induction false} RenderUnsupported(template: string, vars: map<string, Json>, order: seq<string>)
    requires forall k | k in order :: k in vars
    requires exists k :: k in order && ToText(vars[k]).None?
    ensures var r := RenderInOrder(template, vars, order);
            r.Err? && r.error.UnsupportedType? && r.error.key in vars && ToText(vars[r.error.key]).None?
    decreases order
  {
    if ToText(vars[order[0]]).Some? {
      var k :| k in order && ToText(vars[k]).None?;
      assert k in order[1..];
      RenderUnsupported(ReplaceAll(Exact(order[0]), ToText(vars[order[0]]).value, template), vars, order[1..]);
    }
  }

  /** The outcome of rendering, on every template and every iteration order:
      success exactly when all holes are bound and all variables are scalar, and never a panic. */
  lemma RenderOutcome(segs: seq<Segment>, vars: map<string, Json>, order: seq<string>)
    requires TameInput(vars, segs) && IsOrder(order, vars.Keys)
    ensures forall k | k in order :: k in vars
    ensures var r := RenderInOrder(Flatten(segs), vars, order);
            && (r.Ok? <==> AllBound(vars, segs) && AllScalar(vars))
            && (r.Ok? ==> r.value == Flatten(Filled(vars, segs)))
            && r != Err(Panic)
            && (!AllScalar(vars) ==> r.Err? && r.error.UnsupportedType? && r.error.key in vars
                                     && ToText(vars[r.error.key]).None?)
  {
    forall k | k in order ensures k in vars {
      assert k in Elements(order);
    }
    if AllScalar(vars) {
      RenderIsSubstitution(segs, vars, order);
    } else {
      var k :| k in vars && ToText(vars[k]).None?;
      assert k in Elements(order);
      RenderUnsupported(Flatten(segs), vars, order);
    }
  }

  /** The text `{{name}}` is reported as it stands. */
  lemma FinishName(name: string)
    requires IsName(name)
    ensures Finish("{{" + (name + "}}")) == Err(MissingVariable("{{" + (name + "}}")))
  {
    var h := Hole("", name, "");
    NameNotBlank(name[0]);
    NameNotBlank(name[|name| - 1]);
    assert Inner(h) == name;
    FinishAtHole("", h, "");
    assert "" + (Show(h) + "") == Show(h);
  }

  /** A pass over the text `{{name}}`. */
  lemma ReplaceName(name: string, key: string, v: string)
    requires IsName(name) && IsName(key)
    ensures ReplaceAll(Exact(key), v, "{{" + (name + "}}")) == if key == name then v else "{{" + (name + "}}")
  {
    var h := Hole("", name, "");
    NameNotBlank(name[0]);
    NameNotBlank(name[|name| - 1]);
    assert Inner(h) == name;
    ReplaceOverHole(Exact(key), v, h, "");
    assert Show(h) + "" == Show(h) && v + "" == v;
  }

  /** Values that hold placeholders themselves make the result depend on the order. */
  lemma OrderMattersForNestedValues()
    ensures var vars := map["a" := Text("{{b}}"), "b" := Text("x")];
            && RenderInOrder("{{a}}", vars, ["a", "b"]) == Ok("x")
            && RenderInOrder("{{a}}", vars, ["b", "a"]) == Err(MissingVariable("{{b}}"))
  {
    var vars := map["a" := Text("{{b}}"), "b" := Text("x")];
    assert "{{" + ("a" + "}}") == "{{a}}" && "{{" + ("b" + "}}") == "{{b}}";
    assert RenderInOrder("{{a}}", vars, ["a", "b"]) == Ok("x") by {
      ReplaceName("a", "a", "{{b}}");
      ReplaceName("b", "b", "x");
      FinishSafe("x");
      TwoPasses("{{a}}", vars, "a", "{{b}}", "b", "x");
    }
    assert RenderInOrder("{{a}}", vars, ["b", "a"]) == Err(MissingVariable("{{b}}")) by {
      ReplaceName("a", "b", "x");
      ReplaceName("a", "a", "{{b}}");
      FinishName("b");
      TwoPasses("{{a}}", vars, "b", "x", "a", "{{b}}");
    }
  }

  lemma TwoPasses(text: string, vars: map<string, Json>, k1: string, v1: string, k2: string, v2: string)
    requires k1 in vars && k2 in vars && vars[k1] == Text(v1) && vars[k2] == Text(v2)
    ensures RenderInOrder(text, vars, [k1, k2]) == Finish(ReplaceAll(Exact(k2), v2, ReplaceAll(Exact(k1), v1, text)))
  {
    assert [k1, k2][1..] == [k2] && [k2][1..] == [];
    var once := ReplaceAll(Exact(k1), v1, text);
    assert RenderInOrder(text, vars, [k1, k2]) == RenderInOrder(once, vars, [k2]);
    assert RenderInOrder(once, vars, [k2]) == RenderInOrder(ReplaceAll(Exact(k2), v2, once), vars, []);
  }

  // ---------- which values render as themselves ----------

  /** Whatever the template, the other variables and the order, `v` under key `k` comes out as it is. */
  ghost predicate RendersItself(k: string, v: string) {
    forall segs, vars, order: seq<string> ::
      && TameBut(k, v, segs, vars) && AllBound(vars, segs) && IsOrder(order, vars.Keys)
      && (forall x | x in order :: x in vars)
      ==> RenderInOrder(Flatten(segs), vars, order) == Ok(Flatten(Filled(vars, segs)))
  }

  /** A tame input but for the value under `k`. */
  predicate TameBut(k: string, v: string, segs: seq<Segment>, vars: map<string, Json>) {
    && WellFormed(segs) && AllScalar(vars) && k in vars && vars[k] == Text(v)
    && forall x | x in vars :: BraceFree(x) && (x != k ==> Safe(ToText(vars[x]).value))
  }

  lemma FinishFails(text: string, i: nat, j: nat)
    requires i <= |text| && j <= |text| && OccursAt(text, "{{", i) && OccursAt(text, "}}", j)
    ensures Finish(text).Err?
  {
  }

  /** An unsafe value before the literal `{n}}`. */
  lemma UnsafeFails(v: string)
    requires !Safe(v)
    ensures Finish(v + "{n}}").Err?
  {
    var t := v + "{n}}";
    var i :| 0 <= i < |v| && v[i] == '{' && !(i + 1 < |v| && v[i + 1] != '{');
    assert t[i..][0] == '{' && t[i..][1] == '{';
    assert t[|v| + 2..] == "}}";
    FinishFails(t, i, |v| + 2);
  }

  lemma KeyThenLiteral(k: string)
    requires BraceFree(k) && Trimmed(k)
    ensures var h := Hole("", k, "");
            && WellFormed([h, Lit("{n}}")]) && Inner(h) == k && Safe("{n}}")
            && Flatten([h, Lit("{n}}")]) == Show(h) + "{n}}"
  {
    var h := Hole("", k, "");
    assert [h, Lit("{n}}")][1..] == [Lit("{n}}")];
    assert Flatten([Lit("{n}}")]) == "{n}}" + Flatten([]);
  }

  lemma PassOverBoth(k: string, v: string)
    requires BraceFree(k) && Trimmed(k)
    ensures ReplaceAll(Exact(k), v, Flatten([Hole("", k, ""), Lit("{n}}")])) == v + "{n}}"
  {
    hide ReplaceAll, Flatten, WellFormed;
    KeyThenLiteral(k);
    ReplaceOverHole(Exact(k), v, Hole("", k, ""), "{n}}");
    ReplaceOverSafe(Exact(k), v, "{n}}", "");
    assert "{n}}" + "" == "{n}}";
    assert ReplaceAll(Exact(k), v, "") == "" by { NothingToReplace(Exact(k), v); }
  }

  lemma NothingToReplace(p: Pattern, v: string)
    ensures ReplaceAll(p, v, "") == ""
  {
  }

  lemma UnsafeIsSeen(k: string, v: string)
    requires BraceFree(k) && Trimmed(k) && !Safe(v)
    ensures var segs, vars := [Hole("", k, ""), Lit("{n}}")], map[k := Text(v)];
            TameBut(k, v, segs, vars) && AllBound(vars, segs) && RenderInOrder(Flatten(segs), vars, [k]).Err?
  {
    hide ReplaceAll, Flatten, WellFormed, Finish, Safe, Trimmed, BraceFree;
    var segs, vars := [Hole("", k, ""), Lit("{n}}")], map[k := Text(v)];
    KeyThenLiteral(k);
    PassOverBoth(k, v);
    UnsafeFails(v);
    assert [k][1..] == [];
    assert RenderInOrder(Flatten(segs), vars, [k]) == RenderInOrder(v + "{n}}", vars, []);
  }

  /** The exact condition, for every key: a value comes out as it is with every template, other safe
      values and order exactly when it is safe itself. */
  lemma SafeValuesExactly(k: string, v: string)
    requires BraceFree(k) && Trimmed(k)
    ensures RendersItself(k, v) <==> Safe(v)
  {
    if Safe(v) {
      forall segs, vars, order: seq<string> |
        && TameBut(k, v, segs, vars) && AllBound(vars, segs) && IsOrder(order, vars.Keys)
        && (forall x | x in order :: x in vars)
        ensures RenderInOrder(Flatten(segs), vars, order) == Ok(Flatten(Filled(vars, segs)))
      {
        RenderIsSubstitution(segs, vars, order);
      }
    } else {
      UnsafeIsSeen(k, v);
      var segs, vars := [Hole("", k, ""), Lit("{n}}")], map[k := Text(v)];
      assert IsOrder([k], vars.Keys);
    }
  }

  // ---------- render_template ----------

  datatype Content = Content(title: string, body: string)

  /** What rendering a content may give: each field from its own template, or an error of the title, or
      of the body once the title is rendered. */
  ghost predicate Renders(content: Content, variables: map<string, Json>, r: Result<Content, RenderError>) {
    match r
    case Ok(c) => Outcome(content.title, variables, Ok(c.title)) && Outcome(content.body, variables, Ok(c.body))
    case Err(e) =>
      || Outcome(content.title, variables, Err(e))
      || (Outcome(content.body, variables, Err(e)) && exists title :: Outcome(content.title, variables, Ok(title)))
  }

  method RenderTemplate(content: Content, variables: map<string, Json>) returns (r: Result<Content, RenderError>)
    ensures r.Ok? ==> Outcome(content.title, variables, Ok(r.value.title)) && Outcome(content.body, variables, Ok(r.value.body))
    ensures r.Err? ==>
              || Outcome(content.title, variables, Err(r.error))
              || (Outcome(content.body, variables, Err(r.error))
                  && exists title :: Outcome(content.title, variables, Ok(title)))
    ensures Renders(content, variables, r)
  {
    hide Outcome;
    var title :- ReplaceVariables(content.title, variables);
    assert Outcome(content.title, variables, Ok(title));
    var body :- ReplaceVariables(content.body, variables);
    return Ok(Content(title, body));
  }

  /** Every outcome on a tame template. */
  lemma OutcomeIs(segs: seq<Segment>, vars: map<string, Json>, r: Result<string, RenderError>)
    requires TameInput(vars, segs) && Outcome(Flatten(segs), vars, r)
    ensures r.Ok? <==> AllBound(vars, segs) && AllScalar(vars)
    ensures r.Ok? ==> r.value == Flatten(Filled(vars, segs))
    ensures r != Err(Panic)
  {
    var order :| IsOrder(order, vars.Keys) && r == RenderInOrder(Flatten(segs), vars, order);
    RenderOutcome(segs, vars, order);
  }

  /** A content of two templates is rendered exactly when both have all holes bound and all variables are
      scalar; each field is then the simultaneous substitution of its own template. */
  lemma ContentOutcome(title: seq<Segment>, body: seq<Segment>, vars: map<string, Json>, r: Result<Content, RenderError>)
    requires TameInput(vars, title) && TameInput(vars, body)
    requires Renders(Content(Flatten(title), Flatten(body)), vars, r)
    ensures r.Ok? <==> AllBound(vars, title) && AllBound(vars, body) && AllScalar(vars)
    ensures r.Ok? ==> r.value.title == Flatten(Filled(vars, title)) && r.value.body == Flatten(Filled(vars, body))
    ensures r != Err(Panic)
  {
    hide Outcome, TameInput, AllBound, AllScalar, Filled, Flatten;
    match r {
      case Ok(c) =>
        OutcomeIs(title, vars, Ok(c.title));
        OutcomeIs(body, vars, Ok(c.body));
      case Err(e) =>
        if Outcome(Flatten(title), vars, Err(e)) {
          OutcomeIs(title, vars, Err(e));
        } else {
          OutcomeIs(body, vars, Err(e));
        }
    }
  }

  // ---------- the text of each kind of variable ----------

  /** A template of one hole, by the kind of its variable. */
  lemma LoneVariable(key: string, v: Json)
    requires BraceFree(key) && Trimmed(key) && (v.Text? ==> Safe(v.s)) && (v.Number? ==> Safe(v.text))
    ensures RenderInOrder(Show(Hole("", key, "")), map[key := v], [key]) ==
            match v {
              case Null => Ok("")
              case Bool(b) => Ok(if b then "true" else "false")
              case Number(text) => Ok(text)
              case Text(s) => Ok(s)
              case Array(_) => Err(UnsupportedType(key))
              case Object(_) => Err(UnsupportedType(key))
            }
  {
    var h, vars := Hole("", key, ""), map[key := v];
    assert [key][1..] == [];
    hide ReplaceAll, Finish, Safe, Trimmed, BraceFree, Show;
    if ToText(v).Some? {
      var text := ToText(v).value;
      TextIsSafe(v);
      PassOverHole(key, text);
      FinishSafe(text);
      assert RenderInOrder(Show(h), vars, [key]) == RenderInOrder(text, vars, []);
    }
  }

  lemma TextIsSafe(v: Json)
    requires ToText(v).Some? && (v.Text? ==> Safe(v.s)) && (v.Number? ==> Safe(v.text))
    ensures Safe(ToText(v).value)
  {
  }

  lemma PassOverHole(key: string, text: string)
    requires BraceFree(key) && Trimmed(key)
    ensures ReplaceAll(Exact(key), text, Show(Hole("", key, ""))) == text
  {
    var h := Hole("", key, "");
    assert Inner(h) == key;
    hide ReplaceAll, Show;
    ReplaceOverHole(Exact(key), text, h, "");
    NothingToReplace(Exact(key), text);
    assert Show(h) + "" == Show(h) && text + "" == text;
  }
}
