/** Across services: what a template accepted by template-service means for the two
    services that render it. */
module RenderContract {
  import opened Common
  import opened Placeholders
  import opened Substitution
  import Extraction
  import PushTemplate
  import EmailTemplate
  import TemplateKeys
  import TemplateRace

  lemma NamesOfLeaf(content: Json, segs: seq<Segment>)
    requires WellFormed(segs) && Flatten(segs) in Extraction.Leaves(content)
    ensures HoleNames(segs) <= Extraction.NamesIn(content)
  {
    NamesOverTemplate(segs);
  }

  /** A validated text rendered by email-service with all declared variables supplied, dotted names
      included, holds no placeholder any more. */
  lemma EmailLeavesNoPlaceholder(
    content: Json, declared: seq<string>, segs: seq<Segment>, texts: map<string, string>, keys: seq<string>)
    requires WellFormed(segs) && Flatten(segs) in Extraction.Leaves(content)
    requires Extraction.Declared(content, declared)
    requires Elements(declared) <= texts.Keys
    requires (forall k | k in texts :: IsNameText(k) && Safe(texts[k])) && Elements(keys) == texts.Keys
    ensures forall k | k in keys :: k in texts
    ensures Names(Sequential(Spacious, texts, keys, Flatten(segs))) == {}
  {
    NamesOfLeaf(content, segs);
    EmailTemplate.NothingBoundIsLeft(texts, keys, segs);
  }

  /** A hole push-service and template-service read alike: no blanks, a proper name. */
  predicate Plain(seg: Segment) {
    seg.Hole? ==> seg.lead == "" && seg.trail == "" && IsName(seg.name)
  }

  /** A validated text with plain holes is rendered by push-service as soon as all
      declared variables are supplied as scalars, in every iteration order. */
  lemma PushRendersPlain(
    content: Json, declared: seq<string>, segs: seq<Segment>, vars: map<string, Json>, order: seq<string>)
    requires PushTemplate.TameInput(vars, segs) && Flatten(segs) in Extraction.Leaves(content)
    requires Extraction.Declared(content, declared)
    requires Elements(declared) <= vars.Keys && PushTemplate.AllScalar(vars)
    requires forall i | 0 <= i < |segs| :: Plain(segs[i])
    requires PushTemplate.IsOrder(order, vars.Keys)
    ensures forall k | k in order :: k in vars
    ensures PushTemplate.RenderInOrder(Flatten(segs), vars, order) ==
            Ok(Flatten(PushTemplate.Filled(vars, segs)))
  {
    NamesOfLeaf(content, segs);
    forall i | 0 <= i < |segs| && segs[i].Hole? ensures Inner(segs[i]) in vars {
      assert segs[i].name in HoleNames(segs);
      assert Inner(segs[i]) == segs[i].name;
    }
    PushTemplate.RenderOutcome(segs, vars, order);
  }

  /** The contract with push-service, exactly: given just the declared variables, as scalars under proper
      names, a validated text is rendered if and only if all of its holes are plain. */
  lemma PushRendersExactly(
    content: Json, declared: seq<string>, segs: seq<Segment>, vars: map<string, Json>, order: seq<string>)
    requires PushTemplate.TameInput(vars, segs) && Flatten(segs) in Extraction.Leaves(content)
    requires Extraction.Declared(content, declared)
    requires Elements(declared) == vars.Keys && PushTemplate.AllScalar(vars)
    requires forall d | d in declared :: IsName(d)
    requires PushTemplate.IsOrder(order, vars.Keys)
    ensures forall k | k in order :: k in vars
    ensures PushTemplate.RenderInOrder(Flatten(segs), vars, order).Ok? <==> forall i | 0 <= i < |segs| :: Plain(segs[i])
  {
    PushTemplate.RenderOutcome(segs, vars, order);
    NamesOfLeaf(content, segs);
    assert WellFormed(segs);
    hide PushTemplate.RenderInOrder, PushTemplate.TameInput, PushTemplate.AllScalar, PushTemplate.Filled,
         Extraction.Declared, Extraction.Leaves, Extraction.NamesIn, Flatten, IsName, WellFormedSegment, Plain;
    assert HoleNames(segs) <= Elements(declared) by { DeclaredNames(content, declared, segs); }
    forall i | 0 <= i < |segs| ensures Plain(segs[i]) <==> (segs[i].Hole? ==> Inner(segs[i]) in vars) {
      PlainIsBound(segs, declared, segs[i]);
    }
  }

  lemma DeclaredNames(content: Json, declared: seq<string>, segs: seq<Segment>)
    requires Extraction.Declared(content, declared) && HoleNames(segs) <= Extraction.NamesIn(content)
    ensures HoleNames(segs) <= Elements(declared)
  {
  }

  /** Among proper names that cover those of the holes, what a hole shows is one exactly when it is plain. */
  lemma PlainIsBound(segs: seq<Segment>, declared: seq<string>, seg: Segment)
    requires WellFormed(segs) && seg in segs && HoleNames(segs) <= Elements(declared)
    requires forall d | d in declared :: IsName(d)
    ensures Plain(seg) <==> (seg.Hole? ==> Inner(seg) in Elements(declared))
  {
    if seg.Hole? {
      InnerIsName(seg);
      if Plain(seg) {
        assert seg.name in HoleNames(segs) && Inner(seg) == seg.name;
      }
    }
  }

  /** What stands between the braces of a hole is a proper name only if the hole is plain. */
  lemma InnerIsName(h: Segment)
    requires h.Hole? && WellFormedSegment(h)
    ensures IsName(Inner(h)) <==> Plain(h)
  {
    var x := Inner(h);
    if IsName(x) {
      if h.lead != "" {
        assert x[0] == h.lead[0];
        NameNotBlank(x[0]);
      }
      if h.trail != "" {
        assert x[|x| - 1] == h.trail[|h.trail| - 1];
        NameNotBlank(x[|x| - 1]);
      }
      assert h.lead == "" && h.trail == "" ==> x == h.name;
    }
  }

  /** From end to end: however the requests to template-service interleaved, what `findOne` may
      answer with, stored or cached, leaves no placeholder once all its variables are supplied. */
  lemma ServedTemplatesMail(
    events: seq<TemplateRace.Event>, row: TemplateKeys.Row,
    segs: seq<Segment>, texts: map<string, string>, keys: seq<string>)
    requires var w := TemplateRace.Run(TemplateRace.START, events); row in w.rows || row in w.cache.Values
    requires WellFormed(segs) && Flatten(segs) in Extraction.Leaves(row.content)
    requires Elements(row.variables) <= texts.Keys
    requires (forall k | k in texts :: IsNameText(k) && Safe(texts[k])) && Elements(keys) == texts.Keys
    ensures forall k | k in keys :: k in texts
    ensures Names(Sequential(Spacious, texts, keys, Flatten(segs))) == {}
  {
    var w := TemplateRace.Run(TemplateRace.START, events);
    TemplateRace.InvariantRun(TemplateRace.START, events);
    assert TemplateRace.TrueCache(w.rows, w.cache);
    TemplateRace.StoredRowsAreDeclared(events, row);
    hide TemplateRace.Run;
    EmailLeavesNoPlaceholder(row.content, row.variables, segs, texts, keys);
  }

  const SPACED := Hole(" ", "name", " ")

  lemma SpacedText()
    ensures WellFormed([SPACED]) && HoleNames([SPACED]) == {"name"} && Inner(SPACED) != "name"
  {
    assert SPACED in [SPACED];
    assert Inner(SPACED)[0] != "name"[0];
  }

  lemma SpacedIsAccepted()
    ensures Extraction.NamesIn(Text(Flatten([SPACED]))) == {"name"}
  {
    SpacedText();
    NamesOverTemplate([SPACED]);
    assert Extraction.Leaves(Text(Flatten([SPACED]))) == {Flatten([SPACED])};
  }

  lemma SpacedIsMailed()
    ensures Sequential(Spacious, map["name" := "Ada"], ["name"], Flatten([SPACED])) == "Ada"
  {
    var texts := map["name" := "Ada"];
    SpacedText();
    assert Elements(["name"]) == texts.Keys;
    EmailTemplate.RenderOutcome([SPACED], texts, ["name"]);
    assert Simultaneous(Spacious, texts, texts.Keys, [SPACED]) == [Lit("Ada")];
    assert Flatten([Lit("Ada")]) == "Ada" + Flatten([]);
  }

  lemma SpacedIsNotPushed()
    ensures PushTemplate.RenderInOrder(Flatten([SPACED]), map["name" := Text("Ada")], ["name"])
            == Err(PushTemplate.MissingVariable(Show(SPACED)))
  {
    var vars := map["name" := Text("Ada")];
    SpacedText();
    assert Elements(["name"]) == vars.Keys;
    PushTemplate.RenderIsSubstitution([SPACED], vars, ["name"]);
    assert !PushTemplate.AllBound(vars, [SPACED]) by {
      assert [SPACED][0].Hole?;
    }
  }

  /** Blanks inside the braces break the agreement: `{{ name }}` is accepted as a use of
      `name`, email-service fills it in, push-service reports it as missing. */
  lemma BlanksDivideTheServices()
    ensures Extraction.NamesIn(Text(Flatten([SPACED]))) == {"name"}
    ensures Sequential(Spacious, map["name" := "Ada"], ["name"], Flatten([SPACED])) == "Ada"
    ensures PushTemplate.RenderInOrder(Flatten([SPACED]), map["name" := Text("Ada")], ["name"])
            == Err(PushTemplate.MissingVariable(Show(SPACED)))
  {
    SpacedIsAccepted();
    SpacedIsMailed();
    SpacedIsNotPushed();
  }
}
