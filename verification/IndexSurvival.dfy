/** What survives in a stored index even when descriptions do not come back exactly: every
    written field whose value fits on a line, for stanzas read from any text whatever. */
module IndexSurvival {
  import opened Text
  import opened Deb822
  import opened Deb822RoundTrip
  import opened Deb822Canonical
  import opened Deb822Shape
  import opened Stanzas
  import opened StanzaRoundTrip
  import opened IndexRoundTrip

  /** A stanza whose paragraph keeps its layout when it is printed. */
  ghost predicate PrintableStanza(s: Stanza) {
    && NoStandardCustom(s)
    && (forall f :: Written(s, f) ==> Breakless(TextOf(s, f)))
    && (forall k :: k in s.control.custom ==> PlainKey(k) && Breakless(s.control.custom[k]))
  }

  ghost predicate AllPrintableStanzas(idx: seq<Stanza>) {
    forall s :: s in idx ==> PrintableStanza(s)
  }

  lemma NoBreaks(s: string)
    requires NoChar(s, '\n')
    ensures Breakless(s)
  {
    SplitNone(s, '\n');
  }

  lemma NumberIsBreakless(n: int)
    ensures Breakless(FormatInt(n))
  {
    NoBreaks(FormatInt(n));
  }

  lemma LookupIsBreakless(p: Para, key: string, v: string)
    requires Printable(p) && CanGet(p, key, v)
    ensures Breakless(v)
  {
    NoBreaks("");
  }

  lemma ReadTextIsBreakless(s: Stanza, f: Field, v: string)
    requires Reads(s, f, v) && Breakless(v)
    ensures Breakless(TextOf(s, f))
  {
    match f
    case Size => NumberIsBreakless(s.size);
    case InstalledSize =>
      NumberIsBreakless(s.control.installedSize);
      NoBreaks("");
    case _ =>
  }

  /** Whatever is read from a printable paragraph is a printable stanza. */
  lemma ReadIsPrintable(p: Para, s: Stanza)
    requires Printable(p) && IsStanzaOf(p, s)
    ensures PrintableStanza(s)
  {
    forall f: Field ensures Breakless(TextOf(s, f)) {
      assert CanRead(p, s, f);
      var v :| CanGet(p, Name(f), v) && Reads(s, f, v);
      LookupIsBreakless(p, Name(f), v);
      ReadTextIsBreakless(s, f, v);
    }
  }

  /** So every reading of every text can be written again. */
  lemma ReadingIsPrintable(text: string, idx: seq<Stanza>)
    requires CanParseIndex(text, idx)
    ensures AllPrintableStanzas(idx)
  {
    ParsedIsPrintable(text);
    forall s | s in idx ensures PrintableStanza(s) {
      var i :| 0 <= i < |idx| && idx[i] == s;
      ReadIsPrintable(ParseText(text)[i], s);
    }
  }

  lemma PrintedIsPrintable(p: Para, s: Stanza)
    requires PrintableStanza(s) && IsParaOf(p, s)
    ensures Printable(p)
  {
    var keys :| Iterates(keys, s.control.custom) && p == ToPara(s, keys);
    ToParaHolds(s, keys);
    forall k | k in p.fields ensures PlainKey(k) && Breakless(p.fields[k]) {
      if k !in s.control.custom {
        var f: Field :| Written(s, f) && Name(f) == k;
        StandardIsPlain(f);
      }
    }
  }

  /** The field is written, and its text is read back as it is. */
  predicate Lasting(s: Stanza, f: Field) {
    && Written(s, f) && OneLine(TextOf(s, f))
    && (f == InstalledSize ==> IsInt64(s.control.installedSize))
    && (f == Size ==> IsInt64(s.size))
  }

  lemma ParaHolds(p: Para, s: Stanza)
    requires IsParaOf(p, s) && NoStandardCustom(s)
    ensures Holds(p, s)
  {
    var keys :| Iterates(keys, s.control.custom) && p == ToPara(s, keys);
    ToParaHolds(s, keys);
  }

  lemma BackLookup(p: Para, s: Stanza, f: Field, v: string)
    requires Name(f) in p.fields && p.fields[Name(f)] == TextOf(s, f) && OneLine(TextOf(s, f))
    requires CanGet(BackPara(p), Name(f), v)
    ensures v == TextOf(s, f)
  {
    SingleReadBack(TextOf(s, f));
  }

  lemma LastingSurvives(s: Stanza, p: Para, back: Stanza, f: Field)
    requires PrintableStanza(s) && IsParaOf(p, s) && IsStanzaOf(BackPara(p), back) && Lasting(s, f)
    ensures SameIn(s, back, f)
  {
    ParaHolds(p, s);
    assert CanRead(BackPara(p), back, f);
    var v :| CanGet(BackPara(p), Name(f), v) && Reads(back, f, v);
    BackLookup(p, s, f, v);
    ParseFormatBoth(s, f);
    ReadsBackSame(s, back, f, v);
  }

  lemma ParseFormatBoth(s: Stanza, f: Field)
    requires Lasting(s, f)
    ensures f == InstalledSize ==> ParseInt(FormatInt(s.control.installedSize)) == Some(s.control.installedSize)
    ensures f == Size ==> ParseInt(FormatInt(s.size)) == Some(s.size)
  {
    if f == InstalledSize { ParseFormat(s.control.installedSize); }
    if f == Size { ParseFormat(s.size); }
  }

  lemma ReadsBackSame(s: Stanza, back: Stanza, f: Field, v: string)
    requires Reads(back, f, v) && v == TextOf(s, f) && Written(s, f)
    requires f == InstalledSize ==> ParseInt(FormatInt(s.control.installedSize)) == Some(s.control.installedSize)
    requires f == Size ==> ParseInt(FormatInt(s.size)) == Some(s.size)
    ensures SameIn(s, back, f)
  {
  }

  /** Every lasting field of every stanza comes back at its place, in every reading of the
      written index. */
  lemma IndexSurvives(idx: seq<Stanza>, paras: seq<Para>, text: string, back: seq<Stanza>)
    requires AllPrintableStanzas(idx) && Serializes(idx, paras, text) && CanParseIndex(text, back)
    ensures |back| == |idx|
    ensures forall i, f :: 0 <= i < |idx| && Lasting(idx[i], f) ==> SameIn(idx[i], back[i], f)
  {
    forall i | 0 <= i < |idx| ensures Printable(paras[i]) {
      assert idx[i] in idx;
      PrintedIsPrintable(paras[i], idx[i]);
    }
    ReadBackParas(paras);
    forall i, f | 0 <= i < |idx| && Lasting(idx[i], f) ensures SameIn(idx[i], back[i], f) {
      assert idx[i] in idx;
      assert ParseText(text)[i] == BackPara(paras[i]);
      LastingSurvives(idx[i], paras[i], back[i], f);
    }
  }
}
