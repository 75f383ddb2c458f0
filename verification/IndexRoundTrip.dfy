/** The manifest is the database: a written index, parsed again, is exactly the sorted index. */
module IndexRoundTrip {
  import opened Deb822
  import opened Deb822RoundTrip
  import opened Deb822Canonical
  import opened Stanzas
  import opened StanzaRoundTrip
  import opened PackageIndex

  /** Faithful, with 64-bit sizes, plain custom names and canonical values. */
  ghost predicate CanonicalStanza(s: Stanza) {
    && Faithful(s) && Int64Sizes(s)
    && (forall f :: Written(s, f) ==> CanonicalValue(TextOf(s, f)))
    && (forall k :: k in s.control.custom ==> PlainKey(k) && CanonicalValue(s.control.custom[k]))
  }

  ghost predicate AllCanonical(idx: seq<Stanza>) {
    forall s :: s in idx ==> CanonicalStanza(s)
  }

  /** p is a possible result of ToParagraph, for some iteration order of the custom fields. */
  ghost predicate IsParaOf(p: Para, s: Stanza) {
    exists keys :: Iterates(keys, s.control.custom) && p == ToPara(s, keys)
  }

  ghost predicate AreParasOf(paras: seq<Para>, idx: seq<Stanza>) {
    |paras| == |idx| && forall i :: 0 <= i < |idx| ==> IsParaOf(paras[i], idx[i])
  }

  /** text is what Serialize may write for an index already in order. */
  ghost predicate Serializes(idx: seq<Stanza>, paras: seq<Para>, text: string) {
    AreParasOf(paras, idx) && AllWellFormed(paras) && text == PrintParas(paras)
  }

  ghost predicate AreStanzasOf(ps: seq<Para>, idx: seq<Stanza>) {
    |idx| == |ps| && forall i :: 0 <= i < |ps| ==> IsStanzaOf(ps[i], idx[i])
  }

  /** idx is a possible result of ParseIndex(text). */
  ghost predicate CanParseIndex(text: string, idx: seq<Stanza>) {
    AreStanzasOf(ParseText(text), idx)
  }

  /** The letters of a name are never separators. */
  predicate NameChar(c: char) {
    'A' <= c <= 'Z' || 'a' <= c <= 'z' || '0' <= c <= '9' || c == '-'
  }

  predicate NameChars(s: string) {
    s != "" && forall i :: 0 <= i < |s| ==> NameChar(s[i])
  }

  lemma NamesOfIdentity(f: Field)
    requires IdentityField(f)
    ensures NameChars(Name(f))
  {
  }

  lemma NamesOfRelations(f: Field)
    requires RelationField(f)
    ensures NameChars(Name(f))
  {
  }

  lemma NamesOfFile(f: Field)
    requires f.Homepage? || f.Description? || f.Filename? || f.Size? || f.SHA256? || f.SHA512? || f.SHA1? || f.MD5sum?
    ensures NameChars(Name(f))
  {
  }

  lemma StandardIsPlain(f: Field)
    ensures PlainKey(Name(f))
  {
    match f
    case Package | Version | Architecture | Maintainer | InstalledSize | Section | Priority | Essential =>
      NamesOfIdentity(f);
    case Depends | PreDepends | Recommends | Suggests | Conflicts | Breaks | Replaces | Provides =>
      NamesOfRelations(f);
    case _ =>
      NamesOfFile(f);
  }

  lemma CanonicalParaOf(p: Para, s: Stanza)
    requires CanonicalStanza(s) && IsParaOf(p, s)
    ensures CanonicalPara(p)
  {
    var keys :| Iterates(keys, s.control.custom) && p == ToPara(s, keys);
    ToParaHolds(s, keys);
    forall k | k in p.fields ensures PlainKey(k) && CanonicalValue(p.fields[k]) {
      if k !in s.control.custom {
        var f: Field :| Written(s, f) && Name(f) == k;
        StandardIsPlain(f);
      }
    }
  }

  lemma ReadFromPara(p: Para, s: Stanza, s': Stanza)
    requires CanonicalStanza(s) && IsParaOf(p, s) && IsStanzaOf(p, s')
    ensures s' == s
  {
    var keys :| Iterates(keys, s.control.custom) && p == ToPara(s, keys);
    FaithfulComesBack(s, keys, s');
  }

  /** Parsing the written index gives back the very paragraphs, and each is read as its stanza. */
  lemma SerializedComesBack(idx: seq<Stanza>, paras: seq<Para>, text: string, back: seq<Stanza>)
    requires AllCanonical(idx) && Serializes(idx, paras, text) && CanParseIndex(text, back)
    ensures back == idx
  {
    forall i | 0 <= i < |idx| ensures CanonicalPara(paras[i]) {
      assert idx[i] in idx;
      CanonicalParaOf(paras[i], idx[i]);
    }
    ParasRoundTrip(paras);
    forall i | 0 <= i < |idx| ensures back[i] == idx[i] {
      assert idx[i] in idx;
      ReadFromPara(paras[i], idx[i], back[i]);
    }
  }

  /** Some stanzas can always be read from a text. */
  lemma {:induction false} SomeReading(ps: seq<Para>) returns (idx: seq<Stanza>)
    ensures AreStanzasOf(ps, idx)
  {
    if ps == [] {
      idx := [];
    } else {
      var rest := SomeReading(ps[1..]);
      var s := AnyChoiceIsRead(ps[0], Choices(ps[0], Package, AnyGet(ps[0], Name(Package))), Package);
      idx := [s] + rest;
    }
  }

  /** What Sort may leave: the same stanzas in the written order. */
  ghost predicate IsSortOf(sorted: seq<Stanza>, idx: seq<Stanza>) {
    multiset(sorted) == multiset(idx) && IndexSorted(sorted)
  }

  lemma SameMembers(sorted: seq<Stanza>, idx: seq<Stanza>)
    requires multiset(sorted) == multiset(idx)
    ensures |sorted| == |idx| && forall s :: s in sorted <==> s in idx
  {
    forall s ensures s in sorted <==> s in idx {
      assert s in sorted <==> s in multiset(sorted);
      assert s in idx <==> s in multiset(idx);
    }
    assert |multiset(sorted)| == |sorted| && |multiset(idx)| == |idx|;
  }

  /** The stateless database: for every index of canonical stanzas, every legal outcome of the
      sort, every iteration order of the custom fields and every lookup, parsing the written index
      gives exactly the sorted permutation of the index. */
  lemma DatabaseRoundTrip(idx: seq<Stanza>, sorted: seq<Stanza>, paras: seq<Para>, text: string)
    requires AllCanonical(idx) && IsSortOf(sorted, idx) && Serializes(sorted, paras, text)
    ensures CanParseIndex(text, sorted)
    ensures forall back :: CanParseIndex(text, back) ==> back == sorted && IsSortOf(back, idx)
  {
    SameMembers(sorted, idx);
    forall back | CanParseIndex(text, back) ensures back == sorted {
      SerializedComesBack(sorted, paras, text, back);
    }
    var back := SomeReading(ParseText(text));
    assert CanParseIndex(text, back);
  }
}
