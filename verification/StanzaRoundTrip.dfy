/** Which stanzas survive ToParagraph and ParagraphToStanza, for every iteration order of the
    custom fields and every choice the case-insensitive lookup may make. */
module StanzaRoundTrip {
  import opened Text
  import opened Deb822
  import opened Deb822RoundTrip
  import opened Stanzas

  // ----- standard names are different, even without regard to case -----

  function FieldTag(f: Field): int {
    match f
    case Package => 0x7_7065          case Version => 0x7_766e
    case Architecture => 0xc_6165     case Maintainer => 0xa_6d72
    case InstalledSize => 0xe_6965    case Section => 0x7_736e
    case Priority => 0x8_7079         case Essential => 0x9_656c
    case Depends => 0x7_6473          case PreDepends => 0xb_7073
    case Recommends => 0xa_7273       case Suggests => 0x8_7373
    case Conflicts => 0x9_6373        case Breaks => 0x6_6273
    case Replaces => 0x8_7273         case Provides => 0x8_7073
    case Homepage => 0x8_6865         case Description => 0xb_646e
    case Filename => 0x8_6665         case Size => 0x4_7365
    case SHA256 => 0x6_7336           case SHA512 => 0x6_7332
    case SHA1 => 0x4_7331             case MD5sum => 0x6_6d6d
  }

  lemma NameTag(f: Field)
    ensures Tag(ToLower(Name(f))) == FieldTag(f)
  {
    if IdentityField(f) { IdentityTag(f); } else if RelationField(f) { RelationTag(f); } else { FileTag(f); }
  }

  predicate IdentityField(f: Field) {
    || f.Package? || f.Version? || f.Architecture? || f.Maintainer?
    || f.InstalledSize? || f.Section? || f.Priority? || f.Essential?
  }

  predicate RelationField(f: Field) {
    || f.Depends? || f.PreDepends? || f.Recommends? || f.Suggests?
    || f.Conflicts? || f.Breaks? || f.Replaces? || f.Provides?
  }

  lemma IdentityTag(f: Field)
    requires IdentityField(f)
    ensures Tag(ToLower(Name(f))) == FieldTag(f)
  {
  }

  lemma RelationTag(f: Field)
    requires RelationField(f)
    ensures Tag(ToLower(Name(f))) == FieldTag(f)
  {
  }

  lemma FileTag(f: Field)
    requires !IdentityField(f) && !RelationField(f)
    ensures Tag(ToLower(Name(f))) == FieldTag(f)
  {
  }

  lemma TagsDiffer(f: Field, g: Field)
    requires FieldTag(f) == FieldTag(g)
    ensures f == g
  {
  }

  lemma NamesDiffer(f: Field, g: Field)
    ensures SameName(Name(f), Name(g)) ==> f == g
  {
    NameTag(f);
    NameTag(g);
    if SameName(Name(f), Name(g)) { TagsDiffer(f, g); }
  }

  // ----- what the paragraph of a stanza holds -----

  lemma SetFieldWellFormed(p: Para, key: string, value: string)
    requires WellFormed(p)
    ensures WellFormed(SetField(p, key, value)) && SetField(p, key, value).order != []
  {
  }

  /** k is the name of a written field among fs. */
  predicate WrittenName(s: Stanza, fs: seq<Field>, k: string) {
    exists f :: f in fs && Written(s, f) && Name(f) == k
  }

  lemma {:induction false} SetFieldsWellFormed(p: Para, s: Stanza, fs: seq<Field>)
    requires WellFormed(p)
    ensures WellFormed(SetFields(p, s, fs)) && (p.order != [] ==> SetFields(p, s, fs).order != [])
    decreases |fs|
  {
    if fs != [] {
      SetFieldWellFormed(p, Name(fs[0]), TextOf(s, fs[0]));
      SetFieldsWellFormed(if Written(s, fs[0]) then SetField(p, Name(fs[0]), TextOf(s, fs[0])) else p, s, fs[1..]);
    }
  }

  lemma WrittenNameCons(s: Stanza, f0: Field, rest: seq<Field>, k: string)
    ensures WrittenName(s, [f0] + rest, k) <==> (Written(s, f0) && Name(f0) == k) || WrittenName(s, rest, k)
  {
    if WrittenName(s, rest, k) {
      var f :| f in rest && Written(s, f) && Name(f) == k;
      assert f in [f0] + rest;
    }
    if Written(s, f0) && Name(f0) == k { assert f0 in [f0] + rest; }
  }

  /** k is a field of r exactly when it was one of p or is set, and it holds the text set last. */
  predicate SetIn(p: Para, r: Para, s: Stanza, fs: seq<Field>, k: string) {
    && (k in r.fields <==> k in p.fields || WrittenName(s, fs, k))
    && (k in p.fields && !WrittenName(s, fs, k) ==> r.fields[k] == p.fields[k])
    && forall f :: f in fs && Written(s, f) && Name(f) == k ==> r.fields[k] == TextOf(s, f)
  }

  lemma {:induction false} SetFieldsSet(p: Para, s: Stanza, fs: seq<Field>, k: string)
    ensures SetIn(p, SetFields(p, s, fs), s, fs, k)
    decreases |fs|
  {
    if fs != [] {
      var f0, rest := fs[0], fs[1..];
      assert fs == [f0] + rest;
      var q := if Written(s, f0) then SetField(p, Name(f0), TextOf(s, f0)) else p;
      SetFieldsSet(q, s, rest, k);
      WrittenNameCons(s, f0, rest, k);
      forall f | f in fs && Written(s, f) && Name(f) == k ensures SetFields(p, s, fs).fields[k] == TextOf(s, f) {
        if f !in rest && WrittenName(s, rest, k) {
          var g :| g in rest && Written(s, g) && Name(g) == k;
          NamesDiffer(f, g);
        }
      }
    }
  }

  lemma SetFieldsHas(p: Para, s: Stanza, fs: seq<Field>)
    requires WellFormed(p)
    ensures var r := SetFields(p, s, fs);
      && WellFormed(r) && (p.order != [] ==> r.order != [])
      && (forall k :: k in r.fields <==> k in p.fields || WrittenName(s, fs, k))
      && (forall f :: f in fs && Written(s, f) ==> Name(f) in r.fields && r.fields[Name(f)] == TextOf(s, f))
      && (forall k :: k in p.fields && !WrittenName(s, fs, k) ==> r.fields[k] == p.fields[k])
  {
    SetFieldsWellFormed(p, s, fs);
    var r := SetFields(p, s, fs);
    forall k ensures k in r.fields <==> k in p.fields || WrittenName(s, fs, k) {
      SetFieldsSet(p, s, fs, k);
    }
    forall k | k in p.fields && !WrittenName(s, fs, k) ensures r.fields[k] == p.fields[k] {
      SetFieldsSet(p, s, fs, k);
    }
    forall f | f in fs && Written(s, f) ensures Name(f) in r.fields && r.fields[Name(f)] == TextOf(s, f) {
      SetFieldsSet(p, s, fs, Name(f));
      assert WrittenName(s, fs, Name(f));
    }
  }

  lemma {:induction false} SetCustomHas(p: Para, custom: map<string, string>, keys: seq<string>)
    requires WellFormed(p) && forall k :: k in keys ==> k in custom
    ensures var r := SetCustom(p, custom, keys);
      && WellFormed(r) && (p.order != [] ==> r.order != [])
      && (forall k :: k in r.fields <==> k in p.fields || k in keys)
      && (forall k :: k in keys ==> r.fields[k] == custom[k])
      && (forall k :: k in p.fields && k !in keys ==> r.fields[k] == p.fields[k])
    decreases |keys|
  {
    if keys != [] {
      assert keys == [keys[0]] + keys[1..];
      SetFieldWellFormed(p, keys[0], custom[keys[0]]);
      SetCustomHas(SetField(p, keys[0], custom[keys[0]]), custom, keys[1..]);
    }
  }

  lemma AllListed(f: Field)
    ensures f in HEAD || f in TAIL
  {
    match f
    case Package => assert f == HEAD[0];
    case Version => assert f == HEAD[1];
    case Architecture => assert f == HEAD[2];
    case Maintainer => assert f == HEAD[3];
    case InstalledSize => assert f == HEAD[4];
    case Section => assert f == HEAD[5];
    case Priority => assert f == HEAD[6];
    case Essential => assert f == HEAD[7];
    case Depends => assert f == HEAD[8];
    case PreDepends => assert f == HEAD[9];
    case Recommends => assert f == HEAD[10];
    case Suggests => assert f == HEAD[11];
    case Conflicts => assert f == HEAD[12];
    case Breaks => assert f == HEAD[13];
    case Replaces => assert f == HEAD[14];
    case Provides => assert f == HEAD[15];
    case Homepage => assert f == HEAD[16];
    case Description => assert f == TAIL[0];
    case Filename => assert f == TAIL[1];
    case Size => assert f == TAIL[2];
    case SHA256 => assert f == TAIL[3];
    case SHA512 => assert f == TAIL[4];
    case SHA1 => assert f == TAIL[5];
    case MD5sum => assert f == TAIL[6];
  }

  predicate NoStandardCustom(s: Stanza) {
    forall k :: k in s.control.custom ==> !IsStandard(k)
  }

  predicate WrittenStandard(s: Stanza, k: string) {
    exists f: Field :: Written(s, f) && Name(f) == k
  }

  /** The fields of a paragraph of s: the written standard ones and the custom ones. */
  predicate Holds(p: Para, s: Stanza) {
    && (forall k :: k in p.fields ==> k in s.control.custom || WrittenStandard(s, k))
    && (forall f :: Written(s, f) ==> Name(f) in p.fields && p.fields[Name(f)] == TextOf(s, f))
    && (forall k :: k in s.control.custom ==> k in p.fields && p.fields[k] == s.control.custom[k])
  }

  lemma WrittenIsStandard(s: Stanza, fs: seq<Field>, k: string)
    ensures WrittenName(s, fs, k) ==> WrittenStandard(s, k) && IsStandard(k)
  {
  }

  /** The name of a written field is set by that field only. */
  lemma SetByItself(s: Stanza, fs: seq<Field>, f: Field)
    requires Written(s, f)
    ensures WrittenName(s, fs, Name(f)) ==> f in fs
  {
    if WrittenName(s, fs, Name(f)) {
      var g :| g in fs && Written(s, g) && Name(g) == Name(f);
      NamesDiffer(f, g);
    }
  }

  lemma ParaOfHolds(s: Stanza, head: seq<Field>, keys: seq<string>, tail: seq<Field>)
    requires Iterates(keys, s.control.custom)
    requires forall f: Field :: f in head || f in tail
    ensures var p := ParaOf(s, head, keys, tail);
      WellFormed(p) && (NoStandardCustom(s) ==> Holds(p, s))
  {
    var p1 := SetFields(EMPTY, s, head);
    var p2 := SetCustom(p1, s.control.custom, keys);
    var p := SetFields(p2, s, tail);
    SetFieldsHas(EMPTY, s, head);
    SetCustomHas(p1, s.control.custom, keys);
    SetFieldsHas(p2, s, tail);
    if NoStandardCustom(s) {
      forall k | k in p.fields ensures k in s.control.custom || WrittenStandard(s, k) {
        WrittenIsStandard(s, head, k);
        WrittenIsStandard(s, tail, k);
      }
      forall k | k in s.control.custom ensures p.fields[k] == s.control.custom[k] {
        WrittenIsStandard(s, tail, k);
      }
      forall f | Written(s, f) ensures Name(f) in p.fields && p.fields[Name(f)] == TextOf(s, f) {
        SetByItself(s, tail, f);
        assert IsStandard(Name(f));
      }
    }
  }

  lemma ToParaHolds(s: Stanza, keys: seq<string>)
    requires Iterates(keys, s.control.custom)
    ensures WellFormed(ToPara(s, keys)) && ToPara(s, keys).order != []
    ensures NoStandardCustom(s) ==> Holds(ToPara(s, keys), s)
  {
    forall f: Field ensures f in HEAD || f in TAIL { AllListed(f); }
    ParaOfHolds(s, HEAD, keys, TAIL);
    PackageWritten(s, HEAD[1..], keys, TAIL);
  }

  lemma PackageWritten(s: Stanza, rest: seq<Field>, keys: seq<string>, tail: seq<Field>)
    requires Iterates(keys, s.control.custom)
    ensures ParaOf(s, [Package] + rest, keys, tail).order != []
  {
    var p1 := SetFields(EMPTY, s, [Package] + rest);
    SetFieldsHas(EMPTY, s, [Package] + rest);
    assert Package in [Package] + rest && Written(s, Package);
    SetCustomHas(p1, s.control.custom, keys);
    SetFieldsHas(SetCustom(p1, s.control.custom, keys), s, tail);
  }

  // ----- the exact domain -----

  /** A custom field that would be found in place of the omitted field f. */
  predicate Shadows(s: Stanza, f: Field, k: string) {
    !Written(s, f) && k in s.control.custom && SameName(k, Name(f))
  }

  /** No custom field has a standard name; one that differs from an omitted standard name only in
      case reads as the omitted value would; the installed size is not negative unless such a
      field says so. */
  ghost predicate Faithful(s: Stanza) {
    && NoStandardCustom(s)
    && (forall f, k :: Shadows(s, f, k) ==> Reads(s, f, s.control.custom[k]))
    && (s.control.installedSize < 0 ==> exists k :: Shadows(s, InstalledSize, k))
  }

  predicate Int64Sizes(s: Stanza) {
    IsInt64(s.control.installedSize) && IsInt64(s.size)
  }

  lemma WrittenReads(s: Stanza, f: Field)
    requires Int64Sizes(s) && Written(s, f)
    ensures Reads(s, f, TextOf(s, f))
  {
    ParseFormat(s.size);
    ParseFormat(s.control.installedSize);
  }

  lemma OmittedReads(s: Stanza, f: Field)
    requires !Written(s, f) && (f == InstalledSize ==> s.control.installedSize >= 0)
    ensures Reads(s, f, "")
  {
  }

  lemma OnlyCustomMatches(s: Stanza, f: Field, k: string)
    requires !Written(s, f) && SameName(k, Name(f)) && (k in s.control.custom || WrittenStandard(s, k))
    ensures Shadows(s, f, k)
  {
    if WrittenStandard(s, k) {
      var g :| Written(s, g) && Name(g) == k;
      NamesDiffer(g, f);
    }
  }

  lemma OmittedAbsent(p: Para, s: Stanza, f: Field)
    requires Holds(p, s) && NoStandardCustom(s) && !Written(s, f)
    ensures Name(f) !in p.fields
  {
    assert IsStandard(Name(f));
    if WrittenStandard(s, Name(f)) {
      var g :| Written(s, g) && Name(g) == Name(f);
      NamesDiffer(f, g);
    }
  }

  /** Under Faithful every possible lookup of f reads the value of s, and nothing else. */
  lemma LookupFaithful(p: Para, s: Stanza, f: Field, v: string)
    requires Holds(p, s) && Faithful(s) && Int64Sizes(s)
    requires CanGet(p, Name(f), v)
    ensures Reads(s, f, v)
  {
    if Written(s, f) {
      WrittenReads(s, f);
    } else {
      OmittedAbsent(p, s, f);
      if exists k :: k in p.fields && SameName(k, Name(f)) && v == p.fields[k] {
        var k :| k in p.fields && SameName(k, Name(f)) && v == p.fields[k];
        OnlyCustomMatches(s, f, k);
        assert v == s.control.custom[k];
      } else {
        assert forall k :: k in s.control.custom ==> !Shadows(s, f, k);
        OmittedReads(s, f);
      }
    }
  }

  predicate SameIn(s: Stanza, s': Stanza, f: Field) {
    match f
    case InstalledSize => s.control.installedSize == s'.control.installedSize
    case Size => s.size == s'.size
    case _ => TextOf(s, f) == TextOf(s', f)
  }

  lemma ReadsSame(s: Stanza, s': Stanza, f: Field, v: string)
    requires Reads(s, f, v) && Reads(s', f, v)
    ensures SameIn(s, s', f)
  {
  }

  lemma SameIdentity(s: Stanza, s': Stanza)
    requires forall f: Field :: SameIn(s, s', f)
    ensures s.control.package == s'.control.package
    ensures s.control.version == s'.control.version
    ensures s.control.architecture == s'.control.architecture
    ensures s.control.maintainer == s'.control.maintainer
    ensures s.control.installedSize == s'.control.installedSize
    ensures s.control.section == s'.control.section
  {
    assert SameIn(s, s', Package) && SameIn(s, s', Version) && SameIn(s, s', Architecture);
    assert SameIn(s, s', Maintainer) && SameIn(s, s', InstalledSize) && SameIn(s, s', Section);
  }

  lemma SameDependencies(s: Stanza, s': Stanza)
    requires forall f: Field :: SameIn(s, s', f)
    ensures s.control.priority == s'.control.priority
    ensures s.control.essential == s'.control.essential
    ensures s.control.depends == s'.control.depends
    ensures s.control.preDepends == s'.control.preDepends
    ensures s.control.recommends == s'.control.recommends
    ensures s.control.suggests == s'.control.suggests
  {
    assert SameIn(s, s', Priority) && SameIn(s, s', Essential) && SameIn(s, s', Depends);
    assert SameIn(s, s', PreDepends) && SameIn(s, s', Recommends) && SameIn(s, s', Suggests);
  }

  lemma SameOtherRelations(s: Stanza, s': Stanza)
    requires forall f: Field :: SameIn(s, s', f)
    ensures s.control.conflicts == s'.control.conflicts
    ensures s.control.breaks == s'.control.breaks
    ensures s.control.replacing == s'.control.replacing
    ensures s.control.providing == s'.control.providing
    ensures s.control.homepage == s'.control.homepage
    ensures s.control.description == s'.control.description
  {
    assert SameIn(s, s', Conflicts) && SameIn(s, s', Breaks) && SameIn(s, s', Replaces);
    assert SameIn(s, s', Provides) && SameIn(s, s', Homepage) && SameIn(s, s', Description);
  }

  lemma SameFile(s: Stanza, s': Stanza)
    requires forall f: Field :: SameIn(s, s', f)
    ensures s.filename == s'.filename && s.size == s'.size
    ensures s.sha256 == s'.sha256 && s.sha512 == s'.sha512 && s.sha1 == s'.sha1 && s.md5sum == s'.md5sum
  {
    SamePathAndSize(s, s');
    SameHashes(s, s');
  }

  lemma SamePathAndSize(s: Stanza, s': Stanza)
    requires SameIn(s, s', Filename) && SameIn(s, s', Size)
    ensures s.filename == s'.filename && s.size == s'.size
  {
  }

  lemma SameHashes(s: Stanza, s': Stanza)
    requires SameIn(s, s', SHA256) && SameIn(s, s', SHA512) && SameIn(s, s', SHA1) && SameIn(s, s', MD5sum)
    ensures s.sha256 == s'.sha256 && s.sha512 == s'.sha512 && s.sha1 == s'.sha1 && s.md5sum == s'.md5sum
  {
  }

  /** Stanzas that agree field by field are equal. */
  lemma SameStanza(s: Stanza, s': Stanza)
    requires s.control.custom == s'.control.custom && forall f: Field :: SameIn(s, s', f)
    ensures s == s'
  {
    SameIdentity(s, s');
    SameDependencies(s, s');
    SameOtherRelations(s, s');
    SameFile(s, s');
  }

  lemma CustomReadBack(p: Para, s: Stanza)
    requires Holds(p, s) && NoStandardCustom(s)
    ensures CustomOf(p) == s.control.custom
  {
    forall k | k in p.fields && !IsStandard(k) ensures k in s.control.custom {
      assert WrittenStandard(s, k) ==> IsStandard(k);
    }
    SameMap(CustomOf(p), s.control.custom);
  }

  /** A faithful stanza is the only possible reading of its own paragraph. */
  lemma FaithfulComesBack(s: Stanza, keys: seq<string>, s': Stanza)
    requires Iterates(keys, s.control.custom) && Faithful(s) && Int64Sizes(s)
    requires IsStanzaOf(ToPara(s, keys), s')
    ensures s' == s
  {
    var p := ToPara(s, keys);
    ToParaHolds(s, keys);
    CustomReadBack(p, s);
    forall f: Field ensures SameIn(s, s', f) {
      assert CanRead(p, s', f);
      var v :| CanGet(p, Name(f), v) && Reads(s', f, v);
      LookupFaithful(p, s, f, v);
      ReadsSame(s, s', f, v);
    }
    SameStanza(s, s');
  }

  // ----- outside the domain some reading differs -----

  ghost function AnyGet(p: Para, key: string): (v: string)
    ensures CanGet(p, key, v)
  {
    if key in p.fields then p.fields[key]
    else if exists k :: k in p.fields && SameName(k, key) then
      var k :| k in p.fields && SameName(k, key); p.fields[k]
    else ""
  }

  lemma TextsRead(g: Field -> string, custom: map<string, string>, f: Field)
    ensures Reads(FromTexts(g, custom), f, g(f))
  {
  }

  /** Every choice of lookups is a possible reading. */
  lemma AnyChoiceIsRead(p: Para, g: Field -> string, f: Field) returns (s': Stanza)
    requires forall x: Field :: CanGet(p, Name(x), g(x))
    ensures IsStanzaOf(p, s') && Reads(s', f, g(f))
  {
    s' := FromTexts(g, CustomOf(p));
    forall x: Field ensures CanRead(p, s', x) {
      TextsRead(g, CustomOf(p), x);
    }
    TextsRead(g, CustomOf(p), f);
  }

  lemma {:induction false} SomeOrder(m: map<string, string>) returns (keys: seq<string>)
    ensures Iterates(keys, m)
    decreases |m|
  {
    if m == map[] {
      keys := [];
    } else {
      var k :| k in m;
      var rest := SomeOrder(m - {k});
      keys := [k] + rest;
    }
  }

  ghost function Choice(p: Para, f: Field, v: string, x: Field): (r: string)
    requires CanGet(p, Name(f), v)
    ensures CanGet(p, Name(x), r) && (x == f ==> r == v)
  {
    if x == f then v else AnyGet(p, Name(x))
  }

  /** Lookups that give v for the field f. */
  ghost function Choices(p: Para, f: Field, v: string): (g: Field -> string)
    requires CanGet(p, Name(f), v)
    ensures g(f) == v && forall x: Field :: CanGet(p, Name(x), g(x))
  {
    (x: Field) => Choice(p, f, v, x)
  }

  lemma StandardCustomIsLost(p: Para, s: Stanza) returns (s': Stanza)
    requires !NoStandardCustom(s)
    ensures IsStanzaOf(p, s') && s' != s
  {
    s' := AnyChoiceIsRead(p, Choices(p, Package, AnyGet(p, Name(Package))), Package);
    var k :| k in s.control.custom && IsStandard(k);
    assert k !in CustomOf(p);
  }

  lemma ShadowIsRead(p: Para, s: Stanza, f: Field, k: string) returns (s': Stanza)
    requires Holds(p, s) && NoStandardCustom(s) && Shadows(s, f, k) && !Reads(s, f, s.control.custom[k])
    ensures IsStanzaOf(p, s') && s' != s
  {
    OmittedAbsent(p, s, f);
    s' := AnyChoiceIsRead(p, Choices(p, f, s.control.custom[k]), f);
  }

  lemma NegativeSizeIsLost(p: Para, s: Stanza) returns (s': Stanza)
    requires Holds(p, s) && NoStandardCustom(s) && s.control.installedSize < 0
    requires forall k :: k in s.control.custom ==> !Shadows(s, InstalledSize, k)
    ensures IsStanzaOf(p, s') && s' != s
  {
    OmittedAbsent(p, s, InstalledSize);
    forall k | k in p.fields ensures !SameName(k, Name(InstalledSize)) {
      if SameName(k, Name(InstalledSize)) { OnlyCustomMatches(s, InstalledSize, k); }
    }
    s' := AnyChoiceIsRead(p, Choices(p, InstalledSize, ""), InstalledSize);
  }

  /** Without Faithful some iteration order and some lookup give another stanza. */
  lemma UnfaithfulDiffers(s: Stanza) returns (keys: seq<string>, s': Stanza)
    requires !Faithful(s)
    ensures Iterates(keys, s.control.custom) && IsStanzaOf(ToPara(s, keys), s') && s' != s
  {
    keys := SomeOrder(s.control.custom);
    ToParaHolds(s, keys);
    if !NoStandardCustom(s) {
      s' := StandardCustomIsLost(ToPara(s, keys), s);
    } else if exists f, k :: Shadows(s, f, k) && !Reads(s, f, s.control.custom[k]) {
      var f, k :| Shadows(s, f, k) && !Reads(s, f, s.control.custom[k]);
      s' := ShadowIsRead(ToPara(s, keys), s, f, k);
    } else {
      s' := NegativeSizeIsLost(ToPara(s, keys), s);
    }
  }

  /** Typed encoding and decoding undo each other, for every iteration order and every lookup,
      if and only if the stanza is faithful. */
  lemma FaithfulIff(s: Stanza)
    requires Int64Sizes(s)
    ensures Faithful(s) <==>
      forall keys, s' :: Iterates(keys, s.control.custom) && IsStanzaOf(ToPara(s, keys), s') ==> s' == s
  {
    if Faithful(s) {
      forall keys, s' | Iterates(keys, s.control.custom) && IsStanzaOf(ToPara(s, keys), s') ensures s' == s {
        FaithfulComesBack(s, keys, s');
      }
    } else {
      var keys, s' := UnfaithfulDiffers(s);
    }
  }
}
