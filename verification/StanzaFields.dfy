/** What the typed conversions mean, field by field: every field of the record under its name, with
    the names, their order, and the sizes written out. */
module StanzaFields {
  import opened Text
  import opened Deb822
  import opened Deb822RoundTrip
  import opened Stanzas
  import opened StanzaRoundTrip

  /** The fields written before the custom ones, and those written after them, in this order. */
  const FRONT: seq<string> := [
    "Package", "Version", "Architecture", "Maintainer", "Installed-Size", "Section", "Priority", "Essential",
    "Depends", "Pre-Depends", "Recommends", "Suggests", "Conflicts", "Breaks", "Replaces", "Provides", "Homepage"]

  const BACK: seq<string> := ["Description", "Filename", "Size", "SHA256", "SHA512", "SHA1", "MD5sum"]

  predicate Standard(name: string) {
    name in FRONT || name in BACK
  }

  // ----- writing -----

  predicate WritesName(p: Para, c: Control) {
    && Has(p, "Package", c.package) && Has(p, "Version", c.version) && Has(p, "Architecture", c.architecture)
    && Has(p, "Maintainer", c.maintainer) && Has(p, "Description", c.description)
  }

  /** A size that is zero or less is left out. */
  predicate WritesDetails(p: Para, c: Control) {
    && (if c.installedSize > 0 then Has(p, "Installed-Size", FormatInt(c.installedSize))
        else "Installed-Size" !in p.fields)
    && HasUnlessEmpty(p, "Section", c.section) && HasUnlessEmpty(p, "Priority", c.priority)
    && HasUnlessEmpty(p, "Essential", c.essential) && HasUnlessEmpty(p, "Homepage", c.homepage)
  }

  predicate WritesNeeds(p: Para, c: Control) {
    && HasUnlessEmpty(p, "Depends", c.depends) && HasUnlessEmpty(p, "Pre-Depends", c.preDepends)
    && HasUnlessEmpty(p, "Recommends", c.recommends) && HasUnlessEmpty(p, "Suggests", c.suggests)
  }

  predicate WritesOthers(p: Para, c: Control) {
    && HasUnlessEmpty(p, "Conflicts", c.conflicts) && HasUnlessEmpty(p, "Breaks", c.breaks)
    && HasUnlessEmpty(p, "Replaces", c.replacing) && HasUnlessEmpty(p, "Provides", c.providing)
  }

  predicate WritesFile(p: Para, s: Stanza) {
    && Has(p, "Filename", s.filename) && Has(p, "Size", FormatInt(s.size)) && Has(p, "SHA256", s.sha256)
  }

  predicate WritesHashes(p: Para, s: Stanza) {
    && HasUnlessEmpty(p, "SHA512", s.sha512) && HasUnlessEmpty(p, "SHA1", s.sha1)
    && HasUnlessEmpty(p, "MD5sum", s.md5sum)
  }

  /** The custom fields, and no others. */
  predicate WritesCustom(p: Para, custom: map<string, string>) {
    && (forall k :: k in custom ==> Has(p, k, custom[k]))
    && (forall k :: k in p.fields ==> k in custom || Standard(k))
  }

  function Present(fields: map<string, string>, names: seq<string>): seq<string> {
    if names == [] then []
    else (if names[0] in fields then [names[0]] else []) + Present(fields, names[1..])
  }

  /** The fields in the order of FRONT, then the custom ones, then those of BACK. */
  ghost predicate InFieldOrder(p: Para, custom: map<string, string>) {
    exists keys :: Iterates(keys, custom) && p.order == Present(p.fields, FRONT) + keys + Present(p.fields, BACK)
  }

  /** p is s, written out. */
  ghost predicate Writes(p: Para, s: Stanza) {
    && WritesName(p, s.control) && WritesDetails(p, s.control) && WritesNeeds(p, s.control)
    && WritesOthers(p, s.control) && WritesFile(p, s) && WritesHashes(p, s)
    && WritesCustom(p, s.control.custom) && InFieldOrder(p, s.control.custom)
  }

  // ----- reading -----

  /** n is the number in a possible result of the lookup, and zero where that is none. */
  ghost predicate CanGetNumber(p: Para, name: string, n: int) {
    exists v :: CanGet(p, name, v) && n == match ParseInt(v) case Some(x) => x case None => 0
  }

  predicate ReadsName(p: Para, c: Control) {
    && CanGet(p, "Package", c.package) && CanGet(p, "Version", c.version) && CanGet(p, "Architecture", c.architecture)
    && CanGet(p, "Maintainer", c.maintainer) && CanGet(p, "Description", c.description)
  }

  ghost predicate ReadsDetails(p: Para, c: Control) {
    && CanGetNumber(p, "Installed-Size", c.installedSize)
    && CanGet(p, "Section", c.section) && CanGet(p, "Priority", c.priority)
    && CanGet(p, "Essential", c.essential) && CanGet(p, "Homepage", c.homepage)
  }

  predicate ReadsNeeds(p: Para, c: Control) {
    && CanGet(p, "Depends", c.depends) && CanGet(p, "Pre-Depends", c.preDepends)
    && CanGet(p, "Recommends", c.recommends) && CanGet(p, "Suggests", c.suggests)
  }

  predicate ReadsOthers(p: Para, c: Control) {
    && CanGet(p, "Conflicts", c.conflicts) && CanGet(p, "Breaks", c.breaks)
    && CanGet(p, "Replaces", c.replacing) && CanGet(p, "Provides", c.providing)
  }

  ghost predicate ReadsFile(p: Para, s: Stanza) {
    && CanGet(p, "Filename", s.filename) && CanGetNumber(p, "Size", s.size) && CanGet(p, "SHA256", s.sha256)
  }

  predicate ReadsHashes(p: Para, s: Stanza) {
    CanGet(p, "SHA512", s.sha512) && CanGet(p, "SHA1", s.sha1) && CanGet(p, "MD5sum", s.md5sum)
  }

  ghost predicate ReadsCustom(p: Para, custom: map<string, string>) {
    && (forall k :: k in custom <==> k in p.fields && !Standard(k))
    && (forall k :: k in custom ==> custom[k] == p.fields[k])
  }

  /** s is a possible reading of p. */
  ghost predicate ReadsAs(p: Para, s: Stanza) {
    && ReadsName(p, s.control) && ReadsDetails(p, s.control) && ReadsNeeds(p, s.control)
    && ReadsOthers(p, s.control) && ReadsFile(p, s) && ReadsHashes(p, s)
    && ReadsCustom(p, s.control.custom)
  }

  // ----- the names -----

  function NamesOf(fs: seq<Field>): (names: seq<string>)
    ensures |names| == |fs| && forall i :: 0 <= i < |fs| ==> names[i] == Name(fs[i])
  {
    if fs == [] then [] else [Name(fs[0])] + NamesOf(fs[1..])
  }

  predicate NamedAt(fs: seq<Field>, names: seq<string>, i: nat) {
    i < |fs| && i < |names| && Name(fs[i]) == names[i]
  }

  lemma FrontNamed(i: nat)
    requires i < 17
    ensures NamedAt(HEAD, FRONT, i)
  {
    if i < 6 {
      assert NamedAt(HEAD, FRONT, 0) && NamedAt(HEAD, FRONT, 1) && NamedAt(HEAD, FRONT, 2);
      assert NamedAt(HEAD, FRONT, 3) && NamedAt(HEAD, FRONT, 4) && NamedAt(HEAD, FRONT, 5);
    } else if i < 12 {
      assert NamedAt(HEAD, FRONT, 6) && NamedAt(HEAD, FRONT, 7) && NamedAt(HEAD, FRONT, 8);
      assert NamedAt(HEAD, FRONT, 9) && NamedAt(HEAD, FRONT, 10) && NamedAt(HEAD, FRONT, 11);
    } else {
      assert NamedAt(HEAD, FRONT, 12) && NamedAt(HEAD, FRONT, 13) && NamedAt(HEAD, FRONT, 14);
      assert NamedAt(HEAD, FRONT, 15) && NamedAt(HEAD, FRONT, 16);
    }
  }

  lemma BackNamed(i: nat)
    requires i < 7
    ensures NamedAt(TAIL, BACK, i)
  {
    assert NamedAt(TAIL, BACK, 0) && NamedAt(TAIL, BACK, 1) && NamedAt(TAIL, BACK, 2) && NamedAt(TAIL, BACK, 3);
    assert NamedAt(TAIL, BACK, 4) && NamedAt(TAIL, BACK, 5) && NamedAt(TAIL, BACK, 6);
  }

  lemma NamesAreNamed(fs: seq<Field>, names: seq<string>)
    requires |fs| == |names| && forall i :: 0 <= i < |fs| ==> NamedAt(fs, names, i)
    ensures NamesOf(fs) == names
  {
    forall i | 0 <= i < |fs| ensures NamesOf(fs)[i] == names[i] { assert NamedAt(fs, names, i); }
  }

  lemma TheNames()
    ensures NamesOf(HEAD) == FRONT && NamesOf(TAIL) == BACK
  {
    assert |HEAD| == |FRONT| == 17 && |TAIL| == |BACK| == 7;
    forall i | 0 <= i < |HEAD| ensures NamedAt(HEAD, FRONT, i) { FrontNamed(i); }
    forall i | 0 <= i < |TAIL| ensures NamedAt(TAIL, BACK, i) { BackNamed(i); }
    NamesAreNamed(HEAD, FRONT);
    NamesAreNamed(TAIL, BACK);
  }

  lemma NameIn(fs: seq<Field>, f: Field)
    requires f in fs
    ensures Name(f) in NamesOf(fs)
  {
    var i :| 0 <= i < |fs| && fs[i] == f;
    assert NamesOf(fs)[i] == Name(f);
  }

  lemma IsNamed(fs: seq<Field>, name: string)
    requires name in NamesOf(fs)
    ensures IsStandard(name)
  {
    var i :| 0 <= i < |fs| && NamesOf(fs)[i] == name;
    assert Name(fs[i]) == name;
  }

  lemma StandardIs(name: string)
    ensures IsStandard(name) <==> Standard(name)
  {
    TheNames();
    if IsStandard(name) {
      var f: Field :| Name(f) == name;
      AllListed(f);
      NameIn(if f in HEAD then HEAD else TAIL, f);
    }
    if name in FRONT { IsNamed(HEAD, name); }
    if name in BACK { IsNamed(TAIL, name); }
  }

  // ----- the order -----

  function WrittenNames(s: Stanza, fs: seq<Field>): seq<string> {
    if fs == [] then []
    else (if Written(s, fs[0]) then [Name(fs[0])] else []) + WrittenNames(s, fs[1..])
  }

  predicate DistinctFields(fs: seq<Field>) {
    forall i, j :: 0 <= i < j < |fs| ==> fs[i] != fs[j]
  }

  /** New names go to the end. */
  lemma {:induction false} SetFieldsOrder(p: Para, s: Stanza, fs: seq<Field>)
    requires DistinctFields(fs) && forall f :: f in fs ==> Name(f) !in p.fields
    ensures SetFields(p, s, fs).order == p.order + WrittenNames(s, fs)
    decreases |fs|
  {
    if fs == [] {
      assert p.order + [] == p.order;
    } else {
      var f0, rest := fs[0], fs[1..];
      var q := if Written(s, f0) then SetField(p, Name(f0), TextOf(s, f0)) else p;
      forall f | f in rest ensures Name(f) !in q.fields {
        var i :| 0 <= i < |rest| && rest[i] == f;
        assert fs[i + 1] == f && f in fs && f0 in fs;
        NamesDiffer(f, f0);
      }
      SetFieldsOrder(q, s, rest);
      OrderStep(p, s, fs);
    }
  }

  lemma OrderStep(p: Para, s: Stanza, fs: seq<Field>)
    requires fs != [] && Name(fs[0]) !in p.fields
    ensures (if Written(s, fs[0]) then SetField(p, Name(fs[0]), TextOf(s, fs[0])) else p).order
            + WrittenNames(s, fs[1..])
         == p.order + WrittenNames(s, fs)
  {
    var rest := WrittenNames(s, fs[1..]);
    if Written(s, fs[0]) {
      Reassociate(p.order, [Name(fs[0])], rest);
    } else {
      assert [] + rest == rest;
    }
  }

  lemma Reassociate(a: seq<string>, b: seq<string>, c: seq<string>)
    ensures a + b + c == a + (b + c)
  {
  }

  lemma {:induction false} SetCustomOrder(p: Para, custom: map<string, string>, keys: seq<string>)
    requires Distinct(keys) && forall k :: k in keys ==> k in custom && k !in p.fields
    ensures SetCustom(p, custom, keys).order == p.order + keys
    decreases |keys|
  {
    if keys == [] {
      assert p.order + [] == p.order;
    } else {
      var q := SetField(p, keys[0], custom[keys[0]]);
      assert keys == [keys[0]] + keys[1..];
      forall k | k in keys[1..] ensures k in custom && k !in q.fields { assert k in keys; }
      SetCustomOrder(q, custom, keys[1..]);
    }
  }

  lemma {:induction false} PresentIsWritten(p: Para, s: Stanza, fs: seq<Field>)
    requires forall f :: f in fs ==> (Name(f) in p.fields <==> Written(s, f))
    ensures Present(p.fields, NamesOf(fs)) == WrittenNames(s, fs)
  {
    if fs != [] {
      assert NamesOf(fs)[0] == Name(fs[0]) && fs[0] in fs;
      assert NamesOf(fs)[1..] == NamesOf(fs[1..]);
      PresentIsWritten(p, s, fs[1..]);
    }
  }

  lemma HeadDistinct()
    ensures DistinctFields(HEAD) && DistinctFields(TAIL) && forall f :: f in HEAD ==> f !in TAIL
  {
    forall f: Field ensures FieldRank(f) < 17 ==> f !in TAIL { }
    assert forall i :: 0 <= i < |HEAD| ==> FieldRank(HEAD[i]) == i;
    assert forall i :: 0 <= i < |TAIL| ==> FieldRank(TAIL[i]) == 17 + i;
  }

  function FieldRank(f: Field): nat {
    match f
    case Package => 0 case Version => 1 case Architecture => 2 case Maintainer => 3 case InstalledSize => 4
    case Section => 5 case Priority => 6 case Essential => 7 case Depends => 8 case PreDepends => 9
    case Recommends => 10 case Suggests => 11 case Conflicts => 12 case Breaks => 13 case Replaces => 14
    case Provides => 15 case Homepage => 16 case Description => 17 case Filename => 18 case Size => 19
    case SHA256 => 20 case SHA512 => 21 case SHA1 => 22 case MD5sum => 23
  }

  lemma ParaOrder(s: Stanza, keys: seq<string>)
    requires Iterates(keys, s.control.custom) && NoStandardCustom(s)
    ensures ToPara(s, keys).order == WrittenNames(s, HEAD) + keys + WrittenNames(s, TAIL)
  {
    var p1 := SetFields(EMPTY, s, HEAD);
    var p2 := SetCustom(p1, s.control.custom, keys);
    HeadDistinct();
    SetFieldsOrder(EMPTY, s, HEAD);
    SetFieldsHas(EMPTY, s, HEAD);
    assert p1.order == WrittenNames(s, HEAD);
    forall k | k in keys ensures k in s.control.custom && k !in p1.fields { WrittenIsStandard(s, HEAD, k); }
    SetCustomOrder(p1, s.control.custom, keys);
    SetCustomHas(p1, s.control.custom, keys);
    forall f | f in TAIL ensures Name(f) !in p2.fields {
      assert IsStandard(Name(f));
      if WrittenName(s, HEAD, Name(f)) {
        var g :| g in HEAD && Written(s, g) && Name(g) == Name(f);
        NamesDiffer(f, g);
      }
    }
    SetFieldsOrder(p2, s, TAIL);
  }

  // ----- what is written -----

  lemma FieldIsWritten(p: Para, s: Stanza, f: Field)
    requires Holds(p, s) && NoStandardCustom(s)
    ensures if Written(s, f) then Has(p, Name(f), TextOf(s, f)) else Name(f) !in p.fields
  {
    if !Written(s, f) { OmittedAbsent(p, s, f); }
  }

  lemma NameIsWritten(p: Para, s: Stanza)
    requires Holds(p, s) && NoStandardCustom(s)
    ensures WritesName(p, s.control)
  {
    FieldIsWritten(p, s, Package); FieldIsWritten(p, s, Version); FieldIsWritten(p, s, Architecture);
    FieldIsWritten(p, s, Maintainer); FieldIsWritten(p, s, Description);
  }

  lemma TextIsWritten(p: Para, s: Stanza, f: Field, name: string, value: string)
    requires Holds(p, s) && NoStandardCustom(s) && !Mandatory(f) && Name(f) == name && TextOf(s, f) == value
    ensures HasUnlessEmpty(p, name, value)
  {
    FieldIsWritten(p, s, f);
  }

  lemma DetailsAreWritten(p: Para, s: Stanza)
    requires Holds(p, s) && NoStandardCustom(s)
    ensures WritesDetails(p, s.control)
  {
    FieldIsWritten(p, s, InstalledSize);
    TextIsWritten(p, s, Section, "Section", s.control.section);
    TextIsWritten(p, s, Priority, "Priority", s.control.priority);
    TextIsWritten(p, s, Essential, "Essential", s.control.essential);
    TextIsWritten(p, s, Homepage, "Homepage", s.control.homepage);
  }

  lemma NeedsAreWritten(p: Para, s: Stanza)
    requires Holds(p, s) && NoStandardCustom(s)
    ensures WritesNeeds(p, s.control)
  {
    TextIsWritten(p, s, Depends, "Depends", s.control.depends);
    TextIsWritten(p, s, PreDepends, "Pre-Depends", s.control.preDepends);
    TextIsWritten(p, s, Recommends, "Recommends", s.control.recommends);
    TextIsWritten(p, s, Suggests, "Suggests", s.control.suggests);
  }

  lemma OthersAreWritten(p: Para, s: Stanza)
    requires Holds(p, s) && NoStandardCustom(s)
    ensures WritesOthers(p, s.control)
  {
    TextIsWritten(p, s, Conflicts, "Conflicts", s.control.conflicts);
    TextIsWritten(p, s, Breaks, "Breaks", s.control.breaks);
    TextIsWritten(p, s, Replaces, "Replaces", s.control.replacing);
    TextIsWritten(p, s, Provides, "Provides", s.control.providing);
  }

  lemma AlwaysWritten(p: Para, s: Stanza, f: Field, name: string, value: string)
    requires Holds(p, s) && NoStandardCustom(s) && Mandatory(f) && Name(f) == name && TextOf(s, f) == value
    ensures Has(p, name, value)
  {
    FieldIsWritten(p, s, f);
  }

  lemma SizeIsWritten(p: Para, s: Stanza)
    requires Holds(p, s) && NoStandardCustom(s)
    ensures Has(p, "Size", FormatInt(s.size))
  {
    FieldIsWritten(p, s, Size);
  }

  lemma FileIsWritten(p: Para, s: Stanza)
    requires Holds(p, s) && NoStandardCustom(s)
    ensures WritesFile(p, s)
  {
    AlwaysWritten(p, s, Filename, "Filename", s.filename);
    SizeIsWritten(p, s);
    AlwaysWritten(p, s, SHA256, "SHA256", s.sha256);
  }

  lemma HashesAreWritten(p: Para, s: Stanza)
    requires Holds(p, s) && NoStandardCustom(s)
    ensures WritesHashes(p, s)
  {
    TextIsWritten(p, s, SHA512, "SHA512", s.sha512);
    TextIsWritten(p, s, SHA1, "SHA1", s.sha1);
    TextIsWritten(p, s, MD5sum, "MD5sum", s.md5sum);
  }

  lemma CustomIsWritten(p: Para, s: Stanza)
    requires Holds(p, s)
    ensures WritesCustom(p, s.control.custom)
  {
    forall k | k in p.fields ensures k in s.control.custom || Standard(k) { StandardIs(k); }
  }

  lemma OrderIsWritten(s: Stanza, keys: seq<string>)
    requires Iterates(keys, s.control.custom) && NoStandardCustom(s) && Holds(ToPara(s, keys), s)
    ensures InFieldOrder(ToPara(s, keys), s.control.custom)
  {
    var p := ToPara(s, keys);
    ParaOrder(s, keys);
    TheNames();
    forall f: Field ensures Name(f) in p.fields <==> Written(s, f) { FieldIsWritten(p, s, f); }
    PresentIsWritten(p, s, HEAD);
    PresentIsWritten(p, s, TAIL);
  }

  lemma CustomIsNotStandard(s: Stanza)
    requires forall k :: k in s.control.custom ==> !Standard(k)
    ensures NoStandardCustom(s)
  {
    forall k | k in s.control.custom ensures !IsStandard(k) { StandardIs(k); }
  }

  /** Every paragraph made of a stanza without standard custom names holds each of its fields under
      its name, in this order, and nothing else. */
  lemma StanzaIsWritten(s: Stanza, keys: seq<string>)
    requires Iterates(keys, s.control.custom) && forall k :: k in s.control.custom ==> !Standard(k)
    ensures Writes(ToPara(s, keys), s)
  {
    var p := ToPara(s, keys);
    CustomIsNotStandard(s);
    ToParaHolds(s, keys);
    NameIsWritten(p, s);
    DetailsAreWritten(p, s);
    NeedsAreWritten(p, s);
    OthersAreWritten(p, s);
    FileIsWritten(p, s);
    HashesAreWritten(p, s);
    CustomIsWritten(p, s);
    OrderIsWritten(s, keys);
  }

  // ----- what is read -----

  lemma TextIsRead(p: Para, s: Stanza, f: Field, name: string, value: string)
    requires !f.Size? && !f.InstalledSize? && Name(f) == name && TextOf(s, f) == value
    ensures CanRead(p, s, f) <==> CanGet(p, name, value)
  {
    if CanGet(p, name, value) { assert Reads(s, f, value); }
  }

  lemma NumbersAreRead(p: Para, s: Stanza)
    ensures CanRead(p, s, Size) <==> CanGetNumber(p, "Size", s.size)
    ensures CanRead(p, s, InstalledSize) <==> CanGetNumber(p, "Installed-Size", s.control.installedSize)
  {
    forall v ensures Reads(s, Size, v) <==> s.size == match ParseInt(v) case Some(x) => x case None => 0 { }
    forall v
      ensures Reads(s, InstalledSize, v)
         <==> s.control.installedSize == match ParseInt(v) case Some(x) => x case None => 0 { }
  }

  ghost function Readable(p: Para, s: Stanza): Field -> bool {
    (f: Field) => CanRead(p, s, f)
  }

  predicate OfName(r: Field -> bool) {
    r(Package) && r(Version) && r(Architecture) && r(Maintainer) && r(Description)
  }

  predicate OfDetails(r: Field -> bool) {
    r(InstalledSize) && r(Section) && r(Priority) && r(Essential) && r(Homepage)
  }

  predicate OfNeeds(r: Field -> bool) {
    r(Depends) && r(PreDepends) && r(Recommends) && r(Suggests)
  }

  predicate OfOthers(r: Field -> bool) {
    r(Conflicts) && r(Breaks) && r(Replaces) && r(Provides)
  }

  predicate OfFile(r: Field -> bool) {
    r(Filename) && r(Size) && r(SHA256)
  }

  predicate OfHashes(r: Field -> bool) {
    r(SHA512) && r(SHA1) && r(MD5sum)
  }

  lemma ReadableIs(p: Para, s: Stanza)
    ensures (forall f: Field :: Readable(p, s)(f)) <==> (forall f: Field :: CanRead(p, s, f))
  {
    if forall f: Field :: Readable(p, s)(f) {
      forall f: Field ensures CanRead(p, s, f) { assert Readable(p, s)(f); }
    }
  }

  lemma AllFields(r: Field -> bool)
    ensures (forall f: Field :: r(f))
       <==> OfName(r) && OfDetails(r) && OfNeeds(r) && OfOthers(r) && OfFile(r) && OfHashes(r)
  {
    if OfName(r) && OfDetails(r) && OfNeeds(r) && OfOthers(r) && OfFile(r) && OfHashes(r) {
      forall f: Field ensures r(f) {
        match f
        case Package => case Version => case Architecture => case Maintainer => case InstalledSize =>
        case Section => case Priority => case Essential => case Depends => case PreDepends => case Recommends =>
        case Suggests => case Conflicts => case Breaks => case Replaces => case Provides => case Homepage =>
        case Description => case Filename => case Size => case SHA256 => case SHA512 => case SHA1 => case MD5sum =>
      }
    }
  }

  lemma NameIsRead(p: Para, s: Stanza)
    ensures ReadsName(p, s.control) <==> OfName(Readable(p, s))
  {
    TextIsRead(p, s, Package, "Package", s.control.package);
    TextIsRead(p, s, Version, "Version", s.control.version);
    TextIsRead(p, s, Architecture, "Architecture", s.control.architecture);
    TextIsRead(p, s, Maintainer, "Maintainer", s.control.maintainer);
    TextIsRead(p, s, Description, "Description", s.control.description);
  }

  lemma DetailsAreRead(p: Para, s: Stanza)
    ensures ReadsDetails(p, s.control) <==> OfDetails(Readable(p, s))
  {
    NumbersAreRead(p, s);
    TextIsRead(p, s, Section, "Section", s.control.section);
    TextIsRead(p, s, Priority, "Priority", s.control.priority);
    TextIsRead(p, s, Essential, "Essential", s.control.essential);
    TextIsRead(p, s, Homepage, "Homepage", s.control.homepage);
  }

  lemma NeedsAreRead(p: Para, s: Stanza)
    ensures ReadsNeeds(p, s.control) <==> OfNeeds(Readable(p, s))
  {
    TextIsRead(p, s, Depends, "Depends", s.control.depends);
    TextIsRead(p, s, PreDepends, "Pre-Depends", s.control.preDepends);
    TextIsRead(p, s, Recommends, "Recommends", s.control.recommends);
    TextIsRead(p, s, Suggests, "Suggests", s.control.suggests);
  }

  lemma OthersAreRead(p: Para, s: Stanza)
    ensures ReadsOthers(p, s.control) <==> OfOthers(Readable(p, s))
  {
    TextIsRead(p, s, Conflicts, "Conflicts", s.control.conflicts);
    TextIsRead(p, s, Breaks, "Breaks", s.control.breaks);
    TextIsRead(p, s, Replaces, "Replaces", s.control.replacing);
    TextIsRead(p, s, Provides, "Provides", s.control.providing);
  }

  lemma FileIsRead(p: Para, s: Stanza)
    ensures ReadsFile(p, s) <==> OfFile(Readable(p, s))
  {
    NumbersAreRead(p, s);
    TextIsRead(p, s, Filename, "Filename", s.filename);
    TextIsRead(p, s, SHA256, "SHA256", s.sha256);
  }

  lemma HashesAreRead(p: Para, s: Stanza)
    ensures ReadsHashes(p, s) <==> OfHashes(Readable(p, s))
  {
    TextIsRead(p, s, SHA512, "SHA512", s.sha512);
    TextIsRead(p, s, SHA1, "SHA1", s.sha1);
    TextIsRead(p, s, MD5sum, "MD5sum", s.md5sum);
  }

  lemma CustomIsRead(p: Para, s: Stanza)
    ensures ReadsCustom(p, s.control.custom) <==> s.control.custom == CustomOf(p)
  {
    forall k ensures IsStandard(k) <==> Standard(k) { StandardIs(k); }
    if ReadsCustom(p, s.control.custom) { SameMap(s.control.custom, CustomOf(p)); }
  }

  /** A stanza is a possible reading of a paragraph exactly when each of its fields is a possible
      result of the lookup of its name, and its custom fields are those with other names. */
  lemma StanzaIsRead(p: Para, s: Stanza)
    ensures IsStanzaOf(p, s) <==> ReadsAs(p, s)
  {
    NameIsRead(p, s);
    DetailsAreRead(p, s);
    NeedsAreRead(p, s);
    OthersAreRead(p, s);
    FileIsRead(p, s);
    HashesAreRead(p, s);
    CustomIsRead(p, s);
    AllFields(Readable(p, s));
    ReadableIs(p, s);
  }
}
