/** The exact domain of the stateless database: written indexes come back as they were, for every
    order of their custom fields and every lookup, if and only if all stanzas are canonical. */
module IndexDomain {
  import opened Text
  import opened Deb822
  import opened Deb822RoundTrip
  import opened Deb822Canonical
  import opened Stanzas
  import opened StanzaRoundTrip
  import opened IndexRoundTrip
  import opened IndexSurvival

  ghost predicate AllInt64(idx: seq<Stanza>) {
    forall s :: s in idx ==> Int64Sizes(s)
  }

  /** Every text that may be written for idx is read as idx and as nothing else. */
  ghost predicate AlwaysComesBack(idx: seq<Stanza>) {
    forall paras, text, back | Serializes(idx, paras, text) && CanParseIndex(text, back) :: back == idx
  }

  lemma SomePara(s: Stanza) returns (p: Para)
    ensures IsParaOf(p, s) && WellFormed(p)
  {
    var keys := SomeOrder(s.control.custom);
    ToParaHolds(s, keys);
    p := ToPara(s, keys);
  }

  lemma {:induction false} SomeParas(idx: seq<Stanza>) returns (paras: seq<Para>)
    ensures AreParasOf(paras, idx) && AllWellFormed(paras)
  {
    paras := [];
    if idx != [] {
      var p := SomePara(idx[0]);
      var rest := SomeParas(idx[1..]);
      paras := [p] + rest;
      ConsParas(p, rest, idx);
    }
  }

  lemma ConsParas(p: Para, rest: seq<Para>, idx: seq<Stanza>)
    requires idx != [] && IsParaOf(p, idx[0]) && WellFormed(p) && AreParasOf(rest, idx[1..]) && AllWellFormed(rest)
    ensures AreParasOf([p] + rest, idx) && AllWellFormed([p] + rest)
  {
    var paras := [p] + rest;
    forall i | 0 <= i < |idx| ensures IsParaOf(paras[i], idx[i]) && WellFormed(paras[i]) {
      if i > 0 { assert paras[i] == rest[i - 1] && idx[i] == idx[1..][i - 1]; }
    }
  }

  /** What is read back is printable, so the stanzas are, and every paragraph comes back. */
  lemma ParasComeBack(idx: seq<Stanza>, paras: seq<Para>, text: string)
    requires AlwaysComesBack(idx) && Serializes(idx, paras, text)
    ensures AllPrintableStanzas(idx) && ParseText(text) == BackParas(paras)
    ensures forall i :: 0 <= i < |idx| ==> Printable(paras[i])
  {
    var back := SomeReading(ParseText(text));
    assert CanParseIndex(text, back);
    ReadingIsPrintable(text, back);
    forall i | 0 <= i < |idx| ensures Printable(paras[i]) {
      assert idx[i] in idx;
      PrintedIsPrintable(paras[i], idx[i]);
    }
    ReadBackParas(paras);
  }

  /** The stanza at i is the only reading of its own paragraph as it comes back. */
  lemma OnlyReading(idx: seq<Stanza>, paras: seq<Para>, text: string, i: nat, s: Stanza)
    requires AlwaysComesBack(idx) && Serializes(idx, paras, text) && i < |idx|
    requires ParseText(text) == BackParas(paras) && IsStanzaOf(BackPara(paras[i]), s)
    ensures s == idx[i]
  {
    var back := SomeReading(ParseText(text));
    OtherReading(ParseText(text), back, i, s);
    IsOnly(idx, paras, text, back[i := s]);
  }

  lemma IsOnly(idx: seq<Stanza>, paras: seq<Para>, text: string, back: seq<Stanza>)
    requires AlwaysComesBack(idx) && Serializes(idx, paras, text) && AreStanzasOf(ParseText(text), back)
    ensures back == idx
  {
    assert CanParseIndex(text, back);
  }

  lemma OtherReading(ps: seq<Para>, back: seq<Stanza>, i: nat, s: Stanza)
    requires AreStanzasOf(ps, back) && i < |ps| && IsStanzaOf(ps[i], s)
    ensures AreStanzasOf(ps, back[i := s])
  {
    forall j | 0 <= j < |ps| ensures IsStanzaOf(ps[j], back[i := s][j]) {
      if j != i { assert back[i := s][j] == back[j]; }
    }
  }

  lemma AnyReading(p: Para) returns (s: Stanza)
    ensures IsStanzaOf(p, s)
  {
    s := AnyChoiceIsRead(p, Choices(p, Package, AnyGet(p, Name(Package))), Package);
  }

  lemma ValueComesBack(p: Para, s: Stanza, f: Field)
    requires Printable(p) && Holds(p, s) && IsStanzaOf(BackPara(p), s) && Written(s, f)
    ensures CanonicalValue(TextOf(s, f))
  {
    var text := TextOf(s, f);
    assert CanRead(BackPara(p), s, f);
    var v :| CanGet(BackPara(p), Name(f), v) && Reads(s, f, v);
    assert v == ReadBack(text);
    ValueRoundTrip(text);
    if f == Size || f == InstalledSize {
      NumberIsCanonical(s.size);
      NumberIsCanonical(s.control.installedSize);
    }
  }

  lemma NumberIsCanonical(n: int)
    ensures CanonicalValue(FormatInt(n))
  {
    SplitNone(FormatInt(n), '\n');
  }

  lemma CustomComesBack(p: Para, s: Stanza, k: string)
    requires Printable(p) && Holds(p, s) && NoStandardCustom(s) && k in s.control.custom
    requires IsStanzaOf(BackPara(p), s)
    ensures PlainKey(k) && CanonicalValue(s.control.custom[k])
  {
    assert k in CustomOf(BackPara(p));
    ValueRoundTrip(s.control.custom[k]);
  }

  lemma CanonicalParaComesBack(p: Para, s: Stanza)
    requires Printable(p) && Holds(p, s) && NoStandardCustom(s)
    requires forall f :: Written(s, f) ==> CanonicalValue(TextOf(s, f))
    requires forall k :: k in s.control.custom ==> PlainKey(k) && CanonicalValue(s.control.custom[k])
    ensures BackPara(p) == p
  {
    forall k | k in p.fields ensures PlainKey(k) && CanonicalValue(p.fields[k]) {
      if k !in s.control.custom {
        var f: Field :| Written(s, f) && Name(f) == k;
      }
    }
    CanonicalIsPrintable(p);
  }

  /** paras with the paragraph at i replaced by another one of the same stanza. */
  lemma ReplaceParaAt(idx: seq<Stanza>, paras: seq<Para>, i: nat, p: Para)
    requires AreParasOf(paras, idx) && i < |idx| && IsParaOf(p, idx[i])
    ensures AreParasOf(paras[i := p], idx)
  {
    var paras' := paras[i := p];
    forall j | 0 <= j < |idx| ensures IsParaOf(paras'[j], idx[j]) {
      if j != i { assert paras'[j] == paras[j]; }
    }
  }

  lemma ReplaceWellFormed(paras: seq<Para>, i: nat, p: Para)
    requires AllWellFormed(paras) && i < |paras| && WellFormed(p)
    ensures AllWellFormed(paras[i := p])
  {
    var paras' := paras[i := p];
    forall j | 0 <= j < |paras'| ensures WellFormed(paras'[j]) {
      if j != i { assert paras'[j] == paras[j]; }
    }
  }

  lemma StanzaIsCanonical(idx: seq<Stanza>, paras: seq<Para>, i: nat)
    requires AlwaysComesBack(idx) && AllInt64(idx) && AreParasOf(paras, idx) && AllWellFormed(paras) && i < |idx|
    ensures CanonicalStanza(idx[i])
  {
    var s := idx[i];
    assert s in idx;
    forall keys, s' | Iterates(keys, s.control.custom) && IsStanzaOf(ToPara(s, keys), s')
      ensures s' == s && ValuesAreCanonical(s)
    {
      OrderComesBack(idx, paras, i, keys, s');
    }
    var keys := SomeOrder(s.control.custom);
    var s' := AnyReading(ToPara(s, keys));
    FaithfulIff(s);
  }

  ghost predicate ValuesAreCanonical(s: Stanza) {
    && (forall f :: Written(s, f) ==> CanonicalValue(TextOf(s, f)))
    && (forall k :: k in s.control.custom ==> PlainKey(k) && CanonicalValue(s.control.custom[k]))
  }

  lemma OrderComesBack(idx: seq<Stanza>, paras: seq<Para>, i: nat, keys: seq<string>, s': Stanza)
    requires AlwaysComesBack(idx) && AreParasOf(paras, idx) && AllWellFormed(paras) && i < |idx|
    requires Iterates(keys, idx[i].control.custom) && IsStanzaOf(ToPara(idx[i], keys), s')
    ensures s' == idx[i] && ValuesAreCanonical(idx[i])
  {
    ToParaHolds(idx[i], keys);
    ParaComesBack(idx, paras, i, ToPara(idx[i], keys), s');
  }

  lemma ParaComesBack(idx: seq<Stanza>, paras: seq<Para>, i: nat, p: Para, s': Stanza)
    requires AlwaysComesBack(idx) && AreParasOf(paras, idx) && AllWellFormed(paras) && i < |idx|
    requires IsParaOf(p, idx[i]) && WellFormed(p) && IsStanzaOf(p, s')
    ensures s' == idx[i] && ValuesAreCanonical(idx[i])
  {
    var s, paras' := idx[i], paras[i := p];
    ReplaceParaAt(idx, paras, i, p);
    ReplaceWellFormed(paras, i, p);
    var text := PrintParas(paras');
    ParasComeBack(idx, paras', text);
    assert s in idx && paras'[i] == p;
    ParaHolds(p, s);
    var x := AnyReading(BackPara(p));
    OnlyReading(idx, paras', text, i, x);
    forall f | Written(s, f) ensures CanonicalValue(TextOf(s, f)) { ValueComesBack(p, s, f); }
    forall k | k in s.control.custom ensures PlainKey(k) && CanonicalValue(s.control.custom[k]) {
      CustomComesBack(p, s, k);
    }
    CanonicalParaComesBack(p, s);
    OnlyReading(idx, paras', text, i, s');
  }

  /** The manifest is the database exactly on indexes of canonical stanzas. */
  lemma DatabaseExactly(idx: seq<Stanza>)
    requires AllInt64(idx)
    ensures AlwaysComesBack(idx) <==> AllCanonical(idx)
  {
    if AllCanonical(idx) {
      forall paras, text, back | Serializes(idx, paras, text) && CanParseIndex(text, back) ensures back == idx {
        SerializedComesBack(idx, paras, text, back);
      }
    }
    if AlwaysComesBack(idx) {
      var paras := SomeParas(idx);
      forall s | s in idx ensures CanonicalStanza(s) {
        var i :| 0 <= i < |idx| && idx[i] == s;
        StanzaIsCanonical(idx, paras, i);
      }
    }
  }
}
