/** The mutable index and the typed conversions, each proved against its function or relation. */
module IndexCode {
  import opened Text
  import opened Sorting
  import opened Deb822
  import opened Deb822RoundTrip
  import opened Deb822Shape
  import opened Deb822Code
  import opened Stanzas
  import opened StanzaRoundTrip
  import SF = StanzaFields
  import opened PackageIndex
  import opened IndexRoundTrip

  // ----- PackageStanza.ToParagraph -----

  /** A run of conditional Set calls. */
  method SetWritten(p: Paragraph, s: Stanza, fs: seq<Field>)
    modifies p
    ensures p.Value() == SetFields(old(p.Value()), s, fs)
  {
    ghost var start := p.Value();
    assert fs[0..] == fs;
    for i := 0 to |fs|
      invariant SetFields(p.Value(), s, fs[i..]) == SetFields(start, s, fs)
    {
      assert fs[i..][1..] == fs[i + 1..];
      if Written(s, fs[i]) {
        p.Set(Name(fs[i]), TextOf(s, fs[i]));
      }
    }
    assert fs[|fs|..] == [];
  }

  lemma {:induction false} SetCustomSnoc(p: Para, custom: map<string, string>, keys: seq<string>, k: string)
    requires k in custom && forall x :: x in keys ==> x in custom
    ensures SetCustom(p, custom, keys + [k]) == SetField(SetCustom(p, custom, keys), k, custom[k])
    decreases |keys|
  {
    var all := keys + [k];
    if keys == [] {
      assert all[1..] == [];
    } else {
      assert all[1..] == keys[1..] + [k];
      SetCustomSnoc(SetField(p, keys[0], custom[keys[0]]), custom, keys[1..], k);
    }
  }

  /** Ranging over the custom fields in whatever order the runtime picks; keys records it. */
  method SetCustomFields(p: Paragraph, custom: map<string, string>) returns (ghost keys: seq<string>)
    modifies p
    ensures Iterates(keys, custom) && p.Value() == SetCustom(old(p.Value()), custom, keys)
  {
    keys := [];
    ghost var start := p.Value();
    var left := custom.Keys;
    while left != {}
      invariant left <= custom.Keys && Distinct(keys)
      invariant forall k :: k in keys ==> k in custom && k !in left
      invariant forall k :: k in custom && k !in left ==> k in keys
      invariant p.Value() == SetCustom(start, custom, keys)
      decreases |left|
    {
      var k :| k in left;
      SetCustomSnoc(start, custom, keys, k);
      p.Set(k, custom[k]);
      keys := keys + [k];
      left := left - {k};
    }
  }

  method ToParagraph(s: Stanza) returns (p: Paragraph)
    ensures fresh(p) && IsParaOf(p.Value(), s) && WellFormed(p.Value())
    ensures (forall k :: k in s.control.custom ==> !SF.Standard(k)) ==> SF.Writes(p.Value(), s)
  {
    p := new Paragraph();
    ghost var keys := SetAll(p, s);
    ToParaIsGood(s, keys);
  }

  /** The chain of Set calls. */
  method SetAll(p: Paragraph, s: Stanza) returns (ghost keys: seq<string>)
    requires p.Value() == EMPTY
    modifies p
    ensures Iterates(keys, s.control.custom) && p.Value() == ToPara(s, keys)
  {
    SetWritten(p, s, HEAD);
    keys := SetCustomFields(p, s.control.custom);
    SetWritten(p, s, TAIL);
  }

  lemma ToParaIsGood(s: Stanza, keys: seq<string>)
    requires Iterates(keys, s.control.custom)
    ensures IsParaOf(ToPara(s, keys), s) && WellFormed(ToPara(s, keys))
    ensures (forall k :: k in s.control.custom ==> !SF.Standard(k)) ==> SF.Writes(ToPara(s, keys), s)
  {
    ToParaHolds(s, keys);
    if forall k :: k in s.control.custom ==> !SF.Standard(k) { SF.StanzaIsWritten(s, keys); }
  }

  // ----- ParagraphToStanza -----

  /** Get for every field of the struct. */
  method GetAll(p: Paragraph) returns (texts: map<Field, string>)
    ensures forall f: Field :: f in texts && CanGet(p.Value(), Name(f), texts[f])
  {
    texts := map[];
    var fs := HEAD + TAIL;
    for i := 0 to |fs|
      invariant forall j :: 0 <= j < i ==> fs[j] in texts
      invariant forall f :: f in texts ==> CanGet(p.Value(), Name(f), texts[f])
    {
      var v := p.Get(Name(fs[i]));
      texts := texts[fs[i] := v];
    }
    forall f: Field ensures f in texts {
      AllListed(f);
      assert f in fs;
    }
  }

  /** The loop over the field order that keeps every name that is not standard. */
  method CustomFields(p: Paragraph) returns (custom: map<string, string>)
    requires WellFormed(p.Value())
    ensures custom == CustomOf(p.Value())
  {
    custom := map[];
    for i := 0 to |p.order|
      invariant forall k :: k in custom <==> k in p.order[..i] && !IsStandard(k)
      invariant forall k :: k in custom ==> k in p.fields && custom[k] == p.fields[k]
    {
      var k := p.order[i];
      if !IsStandard(k) {
        var v := p.Get(k);
        custom := custom[k := v];
      }
    }
    SameMap(custom, CustomOf(p.Value()));
  }

  method ParagraphToStanza(p: Paragraph) returns (s: Stanza)
    requires WellFormed(p.Value())
    ensures IsStanzaOf(p.Value(), s) && SF.ReadsAs(p.Value(), s)
  {
    var texts := GetAll(p);
    var custom := CustomFields(p);
    s := Decode(texts, custom);
    DecodeReads(p.Value(), texts, custom);
    SF.StanzaIsRead(p.Value(), s);
  }

  lemma DecodeReads(p: Para, texts: map<Field, string>, custom: map<string, string>)
    requires custom == CustomOf(p) && forall f: Field :: f in texts && CanGet(p, Name(f), texts[f])
    ensures IsStanzaOf(p, Decode(texts, custom))
  {
    var g := (f: Field) => if f in texts then texts[f] else "";
    forall f: Field ensures CanRead(p, Decode(texts, custom), f) { TextsRead(g, custom, f); }
  }

  function Decode(texts: map<Field, string>, custom: map<string, string>): Stanza {
    FromTexts(f => if f in texts then texts[f] else "", custom)
  }

  // ----- the index -----

  lemma StanzasAreLegal()
    ensures Legal(CompareStanzas) && Legal(CompareCandidates)
  {
    forall a, b ensures CompareStanzas(a, b) <= 0 || CompareStanzas(b, a) <= 0 { StanzaSymmetry(a, b); }
    forall a, b ensures CompareCandidates(a, b) <= 0 || CompareCandidates(b, a) <= 0 { StanzaSymmetry(a, b); }
    forall a, b, c | CompareStanzas(a, b) <= 0 && CompareStanzas(b, c) <= 0 ensures CompareStanzas(a, c) <= 0 {
      StanzaChain(a, b, c);
    }
    forall a, b, c | CompareCandidates(a, b) <= 0 && CompareCandidates(b, c) <= 0 ensures CompareCandidates(a, c) <= 0 {
      StanzaChain(a, b, c);
    }
  }

  lemma ReplaceStep(idx: seq<Stanza>, i: nat, s: Stanza, replaced: bool)
    requires i < |idx|
    ensures ReplaceIn(idx[i..], s, replaced)
         == if NameOf(idx[i]) != NameOf(s) then [idx[i]] + ReplaceIn(idx[i + 1..], s, replaced)
            else if replaced then ReplaceIn(idx[i + 1..], s, true)
            else [s] + ReplaceIn(idx[i + 1..], s, true)
  {
    assert idx[i..][1..] == idx[i + 1..];
  }

  lemma WithoutStep(idx: seq<Stanza>, i: nat, name: string, version: string)
    requires i < |idx|
    ensures Without(idx[i..], name, version)
         == if idx[i].control.package == name && (version == "" || idx[i].control.version == version)
            then Without(idx[i + 1..], name, version) else [idx[i]] + Without(idx[i + 1..], name, version)
  {
    assert idx[i..][1..] == idx[i + 1..];
  }

  lemma SeqAssoc(a: seq<Stanza>, x: Stanza, b: seq<Stanza>)
    ensures a + ([x] + b) == a + [x] + b
  {
  }

  class Index {
    var packages: seq<Stanza>

    constructor ()
      ensures packages == []
    {
      packages := [];
    }

    method AddOrUpdate(stanza: Stanza, preserveVersions: bool)
      modifies this
      ensures packages == PackageIndex.AddOrUpdate(old(packages), stanza, preserveVersions)
    {
      if preserveVersions {
        for i := 0 to |packages|
          invariant packages == old(packages)
          invariant forall j :: 0 <= j < i ==> KeyOf(packages[j]) != KeyOf(stanza)
        {
          if packages[i].control.package == stanza.control.package
             && packages[i].control.architecture == stanza.control.architecture
             && packages[i].control.version == stanza.control.version {
            PositionIs(packages, KeyOf(stanza), i);
            packages := packages[i := stanza];
            return;
          }
        }
        PositionIs(packages, KeyOf(stanza), |packages|);
        packages := packages + [stanza];
        return;
      }
      var replaced := false;
      var updated: seq<Stanza> := [];
      assert packages[0..] == packages;
      for i := 0 to |packages|
        invariant packages == old(packages)
        invariant updated + ReplaceIn(packages[i..], stanza, replaced) == ReplaceIn(packages, stanza, false)
      {
        ReplaceStep(packages, i, stanza, replaced);
        SeqAssoc(updated, packages[i], ReplaceIn(packages[i + 1..], stanza, replaced));
        SeqAssoc(updated, stanza, ReplaceIn(packages[i + 1..], stanza, true));
        if packages[i].control.package == stanza.control.package
           && packages[i].control.architecture == stanza.control.architecture {
          if !replaced {
            updated := updated + [stanza];
            replaced := true;
          }
        } else {
          updated := updated + [packages[i]];
        }
      }
      if !replaced {
        updated := updated + [stanza];
      }
      packages := updated;
    }

    method Remove(name: string, version: string) returns (removed: bool)
      modifies this
      ensures packages == Without(old(packages), name, version)
      ensures removed <==> packages != old(packages)
    {
      var kept: seq<Stanza> := [];
      removed := false;
      assert packages[0..] == packages;
      for i := 0 to |packages|
        invariant packages == old(packages)
        invariant kept + Without(packages[i..], name, version) == Without(packages, name, version)
        invariant |kept| <= i && (removed <==> |kept| < i) && (!removed ==> kept == packages[..i])
      {
        WithoutStep(packages, i, name, version);
        SeqAssoc(kept, packages[i], Without(packages[i + 1..], name, version));
        if packages[i].control.package == name && (version == "" || packages[i].control.version == version) {
          removed := true;
        } else {
          kept := kept + [packages[i]];
        }
      }
      packages := kept;
    }

    method Sort()
      modifies this
      ensures IsSortOf(packages, old(packages))
    {
      StanzasAreLegal();
      packages := SortFunc(packages, CompareStanzas);
    }

    /** The text is one of those the map iteration allows for the sorted index. */
    method Serialize() returns (text: string, ghost paras: seq<Para>)
      modifies this
      ensures IsSortOf(packages, old(packages)) && Serializes(packages, paras, text)
    {
      Sort();
      text, paras := PrintAll(packages);
    }
  }

  /** The printing loop. */
  method PrintAll(packages: seq<Stanza>) returns (text: string, ghost paras: seq<Para>)
    ensures Serializes(packages, paras, text)
    ensures exists ps :: Serializes(packages, ps, text)
  {
    text, paras := "", [];
    for i := 0 to |packages|
      invariant Serializes(packages[..i], paras, text)
    {
      var para := ToParagraph(packages[i]);
      var lines := para.String();
      SerializesSnoc(packages[..i], paras, text, packages[i], para.Value());
      TakeOneMore(packages, i);
      text := text + (lines + "\n");
      paras := paras + [para.Value()];
    }
    assert packages[..|packages|] == packages;
  }

  lemma TakeOneMore(packages: seq<Stanza>, i: nat)
    requires i < |packages|
    ensures packages[..i + 1] == packages[..i] + [packages[i]]
  {
  }

  /** One more stanza is printed. */
  lemma SerializesSnoc(idx: seq<Stanza>, paras: seq<Para>, text: string, s: Stanza, p: Para)
    requires Serializes(idx, paras, text) && IsParaOf(p, s) && WellFormed(p)
    ensures Serializes(idx + [s], paras + [p], text + (PrintPara(p) + "\n"))
  {
    PrintSnoc(paras, p);
    ParasSnoc(paras, idx, p, s);
  }

  lemma ParasSnoc(paras: seq<Para>, idx: seq<Stanza>, p: Para, s: Stanza)
    requires AreParasOf(paras, idx) && IsParaOf(p, s)
    ensures AreParasOf(paras + [p], idx + [s])
  {
    forall i | 0 <= i < |idx| + 1 ensures IsParaOf((paras + [p])[i], (idx + [s])[i]) {
      if i < |idx| { assert IsParaOf(paras[i], idx[i]); }
    }
  }

  lemma LinesAssoc(a: seq<string>, b: seq<string>, c: seq<string>)
    ensures a + (b + c) == a + b + c
  {
  }

  lemma {:induction false} ParasLinesSnoc(ps: seq<Para>, p: Para)
    requires AllWellFormed(ps) && WellFormed(p)
    ensures AllWellFormed(ps + [p]) && ParasLines(ps + [p]) == ParasLines(ps) + (ParaLines(p) + [""])
  {
    var all := ps + [p];
    if ps == [] {
      assert all[1..] == [];
      assert ParasLines(all) == ParaLines(p) + [""] + ParasLines([]);
    } else {
      assert all[1..] == ps[1..] + [p];
      ParasLinesSnoc(ps[1..], p);
      LinesAssoc(ParaLines(ps[0]) + [""], ParasLines(ps[1..]), ParaLines(p) + [""]);
    }
  }

  lemma PrintSnoc(ps: seq<Para>, p: Para)
    requires AllWellFormed(ps) && WellFormed(p)
    ensures AllWellFormed(ps + [p]) && PrintParas(ps + [p]) == PrintParas(ps) + (PrintPara(p) + "\n")
  {
    ParasLinesSnoc(ps, p);
    UnlinesAppend(ParasLines(ps), ParaLines(p) + [""]);
    UnlinesEmpty(ParaLines(p));
  }

  // ----- ParseIndex -----

  lemma {:induction false} BlankLines(text: string)
    requires Blank(text)
    ensures forall i :: 0 <= i < |ScanLines(text)| ==> TrimSpace(ScanLines(text)[i]) == ""
  {
    if text != "" {
      var i := IndexOf(text, '\n');
      assert text[..i] == text || i < |text|;
      TrimEmptyIffBlank(DropCR(text[..i]));
      if i < |text| { BlankLines(text[i + 1..]); } else { assert text[..i] == text; }
    }
  }

  lemma {:induction false} BlankRun(lines: seq<string>)
    requires forall i :: 0 <= i < |lines| ==> TrimSpace(lines[i]) == ""
    ensures Run(START, lines) == START
  {
    if lines != [] {
      assert forall i :: 0 <= i < |lines| - 1 ==> lines[1..][i] == lines[i + 1];
      BlankRun(lines[1..]);
    }
  }

  /** A blank text holds no paragraph, so the early return changes nothing. */
  lemma BlankParses(text: string)
    requires TrimSpace(text) == ""
    ensures ParseText(text) == []
  {
    TrimEmptyIffBlank(text);
    BlankLines(text);
    BlankRun(ScanLines(text));
  }

  method StanzasOf(paragraphs: seq<Paragraph>) returns (packages: seq<Stanza>)
    requires AllWellFormed(Values(paragraphs))
    ensures AreStanzasOf(Values(paragraphs), packages)
  {
    packages := [];
    for i := 0 to |paragraphs|
      invariant AreStanzasOf(Values(paragraphs)[..i], packages)
    {
      assert Values(paragraphs)[i] == paragraphs[i].Value();
      var s := ParagraphToStanza(paragraphs[i]);
      StanzasSnoc(Values(paragraphs), packages, i, s);
      packages := packages + [s];
    }
    assert Values(paragraphs)[..|paragraphs|] == Values(paragraphs);
  }

  lemma StanzasSnoc(ps: seq<Para>, idx: seq<Stanza>, i: nat, s: Stanza)
    requires i < |ps| && AreStanzasOf(ps[..i], idx) && IsStanzaOf(ps[i], s)
    ensures AreStanzasOf(ps[..i + 1], idx + [s])
  {
    forall j | 0 <= j < i + 1 ensures IsStanzaOf(ps[..i + 1][j], (idx + [s])[j]) {
      if j < i { assert IsStanzaOf(ps[..i][j], idx[j]); }
    }
  }

  method ParseIndex(text: string) returns (idx: Index)
    ensures fresh(idx) && CanParseIndex(text, idx.packages)
  {
    idx := new Index();
    if TrimSpace(text) == "" {
      BlankParses(text);
      return;
    }
    var paragraphs := ParseParagraphs(text);
    ParsedIsPrintable(text);
    var packages := StanzasOf(paragraphs);
    idx.packages := packages;
  }
}
