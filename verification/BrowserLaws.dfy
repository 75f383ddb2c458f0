/** Where the browser files what is published, what a view selects, and what a query finds: on the
    texts themselves, from the paths that publishers write. */
module BrowserLaws {
  import opened Text
  import opened Stanzas
  import opened PackageIndex
  import opened BrowserCache
  import opened BrowserViews
  import opened BrowserCards
  import opened Paths

  // ----- where a stanza is filed -----

  lemma FirstPart(a: string, rest: string)
    requires NoChar(a, '/')
    ensures Split(a + "/" + rest, '/') == [a] + Split(rest, '/') && |Split(rest, '/')| >= 1
  {
    SplitSep(a, rest, '/');
    SplitNone(a, '/');
  }

  /** A component directory is not taken for one of an architecture, or for an index. */
  predicate NamesComponent(comp: string) {
    NoChar(comp, '/') && comp != "" && !("binary-" <= comp) && !("Packages" <= comp)
  }

  lemma DirOfPublished(codename: string, comp: string, rest: string)
    requires codename != "" && NamesComponent(comp)
    ensures DirComponent(codename, "dists" + "/" + (codename + "/" + (comp + "/" + rest))) == comp
  {
    var path := "dists" + "/" + (codename + "/" + (comp + "/" + rest));
    var dir := "dists/" + codename + "/";
    assert path == dir + (comp + "/" + rest);
    assert path[..|dir|] == dir && path[|dir|..] == comp + "/" + rest;
    FirstPart(comp, rest);
  }

  lemma KeyIs(codename: string, comp: string, arch: string, path: string, s: Stanza, default: string)
    requires ComponentFor(codename, path, s, default) == comp && ArchFor(path, s) == arch
    ensures KeyFor(codename, path, s, default) == codename + "/" + comp + "/" + arch
  {
  }

  /** A stanza read from a published index, of whatever variant, is filed under the codename and the
      component of that index and under its own architecture. */
  lemma PublishedIsFiled(codename: string, comp: string, arch: string, e: Ext, s: Stanza, default: string)
    requires Legal(Index(codename, comp, arch, e)) && NamesComponent(comp) && s.control.architecture != ""
    ensures KeyFor(codename, PathOf(Index(codename, comp, arch, e)), s, default)
         == codename + "/" + comp + "/" + s.control.architecture
  {
    DistsPaths(codename, comp, arch);
    var path := PathOf(Index(codename, comp, arch, e));
    assert path == "dists" + "/" + (codename + "/" + (comp + "/" + ("binary-" + arch + "/" + "Packages"))) + Suffix(e);
    Regroup(codename, comp, "binary-" + arch + "/" + "Packages", Suffix(e));
    DirOfPublished(codename, comp, "binary-" + arch + "/" + "Packages" + Suffix(e));
    KeyIs(codename, comp, s.control.architecture, path, s, default);
  }

  lemma Regroup(codename: string, comp: string, rest: string, suffix: string)
    ensures "dists" + "/" + (codename + "/" + (comp + "/" + rest)) + suffix
         == "dists" + "/" + (codename + "/" + (comp + "/" + (rest + suffix)))
  {
  }

  lemma FlatPath(codename: string, suffix: string)
    requires codename != "" && NoChar(suffix, '/')
    ensures DirComponent(codename, "dists/" + codename + "/" + ("Packages" + suffix)) == ""
  {
    var path, dir := "dists/" + codename + "/" + ("Packages" + suffix), "dists/" + codename + "/";
    assert path[..|dir|] == dir && path[|dir|..] == "Packages" + suffix;
    SplitNone("Packages" + suffix, '/');
  }

  /** In a flat layout the pool path of the file tells the component. */
  lemma FlatIsFiledByPool(codename: string, suffix: string, comp: string, rest: string, s: Stanza, default: string)
    requires codename != "" && NoChar(suffix, '/') && NoChar(comp, '/') && comp != "" && s.control.architecture != ""
    requires s.filename == "pool/" + (comp + "/" + rest)
    ensures KeyFor(codename, "dists/" + codename + "/" + ("Packages" + suffix), s, default)
         == codename + "/" + comp + "/" + s.control.architecture
  {
    FlatPath(codename, suffix);
    assert s.filename[..5] == "pool/" && s.filename[5..] == comp + "/" + rest;
    FirstPart(comp, rest);
    KeyIs(codename, comp, s.control.architecture, "dists/" + codename + "/" + ("Packages" + suffix), s, default);
  }

  /** For other files the first part of their section tells it. */
  lemma FlatIsFiledBySection(codename: string, suffix: string, comp: string, rest: string, s: Stanza, default: string)
    requires codename != "" && NoChar(suffix, '/') && NoChar(comp, '/') && comp != "" && s.control.architecture != ""
    requires !("pool/" <= s.filename) && s.control.section == comp + "/" + rest
    ensures KeyFor(codename, "dists/" + codename + "/" + ("Packages" + suffix), s, default)
         == codename + "/" + comp + "/" + s.control.architecture
  {
    FlatPath(codename, suffix);
    FirstPart(comp, rest);
    assert s.control.section[|comp|] == '/';
    KeyIs(codename, comp, s.control.architecture, "dists/" + codename + "/" + ("Packages" + suffix), s, default);
  }

  /** A section without a slash leaves the default. */
  lemma FlatIsFiledByDefault(codename: string, suffix: string, s: Stanza, default: string)
    requires codename != "" && NoChar(suffix, '/') && default != "" && s.control.architecture != ""
    requires !("pool/" <= s.filename) && NoChar(s.control.section, '/')
    ensures KeyFor(codename, "dists/" + codename + "/" + ("Packages" + suffix), s, default)
         == codename + "/" + default + "/" + s.control.architecture
  {
    FlatPath(codename, suffix);
    KeyIs(codename, default, s.control.architecture, "dists/" + codename + "/" + ("Packages" + suffix), s, default);
  }

  /** A stanza without an architecture is filed under that of its directory, or under all. */
  lemma ArchOfPath(dir: string, arch: string, file: string, s: Stanza)
    requires NoChar(dir, '/') && NoChar(arch, '/') && NoChar(file, '/')
    requires !("binary-" <= dir) && !("binary-" <= file) && s.control.architecture == ""
    ensures arch != "" ==> ArchFor(dir + "/" + ("binary-" + arch + "/" + file), s) == arch
    ensures ArchFor(dir + "/" + file, s) == "all"
  {
    var binary := "binary-" + arch;
    assert NoChar("binary-", '/');
    assert binary[..7] == "binary-" && binary[7..] == arch;
    FirstPart(dir, binary + "/" + file);
    FirstPart(binary, file);
    FirstPart(dir, file);
    SplitNone(file, '/');
    assert ([dir] + ([binary] + [file]))[1..] == [binary] + [file];
    assert ([dir] + [file])[1..] == [file] && [file][1..] == [];
    assert BinaryArch([binary] + [file]) == arch;
    assert BinaryArch([file]) == BinaryArch([]) == "";
    assert BinaryArch([dir] + [file]) == BinaryArch([file]);
    assert BinaryArch([dir] + ([binary] + [file])) == BinaryArch([binary] + [file]);
  }

  // ----- what a view selects -----

  lemma FirstSlash(a: string, rest: string, b: string, rest': string)
    requires a + "/" + rest == b + "/" + rest' && NoChar(a, '/') && NoChar(b, '/')
    ensures a == b && rest == rest'
  {
    var s := a + "/" + rest;
    assert s[..|a|] == a && s[..|b|] == b;
    IndexOfIs(s, '/', |a|);
    IndexOfIs(s, '/', |b|);
    assert rest == s[|a| + 1..] && rest' == s[|b| + 1..];
  }

  lemma BeginsWith(key: string, front: string, rest: string)
    requires key == front + rest
    ensures front <= key && key[|front|..] == rest
  {
  }

  lemma PrefixSplit(key: string, front: string)
    requires front <= key
    ensures key == front + key[|front|..]
  {
  }

  /** A view of a codename and a component selects its indexes and no others: all of them, or the one
      of the architecture asked for. */
  lemma SelectsComponent(c: string, m: string, arch: string, c': string, m': string, a': string)
    requires NoChar(c, '/') && NoChar(m, '/') && c != "" && m != ""
    requires NoChar(c', '/') && NoChar(m', '/')
    ensures Selected(c' + "/" + m' + "/" + a', PrefixFor(c, m), arch)
       <==> c' == c && m' == m && (arch == "" || arch == a')
  {
    var key, front := c' + "/" + m' + "/" + a', c + "/" + m + "/";
    assert key == c' + "/" + (m' + "/" + a');
    if front <= key {
      PrefixSplit(key, front);
      var rest := key[|front|..];
      assert key == c + "/" + (m + "/" + rest);
      FirstSlash(c', m' + "/" + a', c, m + "/" + rest);
      FirstSlash(m', a', m, rest);
    }
    if c' == c && m' == m { BeginsWith(key, front, a'); }
  }

  /** A view of a codename selects all its indexes; one without a codename selects all there are. */
  lemma SelectsCodename(c: string, c': string, m': string, a': string)
    requires NoChar(c, '/') && c != "" && NoChar(c', '/')
    ensures Selected(c' + "/" + m' + "/" + a', PrefixFor(c, ""), "") <==> c' == c
    ensures forall m :: Selected(c' + "/" + m' + "/" + a', PrefixFor("", m), "")
  {
    var key, front := c' + "/" + m' + "/" + a', c + "/";
    assert key == c' + "/" + (m' + "/" + a');
    if front <= key {
      PrefixSplit(key, front);
      FirstSlash(c', m' + "/" + a', c, key[|front|..]);
    }
    if c' == c { BeginsWith(key, front, m' + "/" + a'); }
  }

  // ----- what is published is seen -----

  lemma {:induction false} FiledTogether(codename: string, path: string, stanzas: seq<Stanza>, default: string,
                                         key: string, s: Stanza)
    requires s in stanzas && KeyFor(codename, path, s, default) == key
    ensures s in ForKey(codename, path, stanzas, default, key)
  {
    if s != stanzas[0] {
      assert s in stanzas[1..];
      FiledTogether(codename, path, stanzas[1..], default, key, s);
    }
  }

  /** Whatever was cached: after the ingest of a published index, the view of its codename and
      component holds, for every stanza of the index, one with its package, version and architecture. */
  lemma PublishedIsSeen(cache: Cache, codename: string, comp: string, arch: string, e: Ext, stanzas: seq<Stanza>,
                        default: string, s: Stanza)
    returns (x: Stanza)
    requires Legal(Index(codename, comp, arch, e)) && NamesComponent(comp)
    requires s in stanzas && s.control.architecture != ""
    ensures InView(Ingest(cache, codename, PathOf(Index(codename, comp, arch, e)), stanzas, default),
                   PrefixFor(codename, comp), s.control.architecture, x)
    ensures x.control.package == s.control.package && x.control.version == s.control.version
    ensures x.control.architecture == s.control.architecture
  {
    var path, key := PathOf(Index(codename, comp, arch, e)), codename + "/" + comp + "/" + s.control.architecture;
    PublishedIsFiled(codename, comp, arch, e, s, default);
    FiledTogether(codename, path, stanzas, default, key, s);
    var mine := ForKey(codename, path, stanzas, default, key);
    IngestIsAddAll(cache, codename, path, stanzas, default, key);
    AddAllKeys(IndexAt(cache, key), mine);
    assert KeyOf(s) in Keys(mine);
    var after := Ingest(cache, codename, path, stanzas, default);
    x :| x in after[key] && KeyOf(x) == KeyOf(s);
    SelectsComponent(codename, comp, s.control.architecture, codename, comp, s.control.architecture);
  }

  // ----- what a query finds -----

  predicate SameLetter(c: char, d: char) {
    || c == d
    || ('A' <= c <= 'Z' && d as int == c as int + 32)
    || ('A' <= d <= 'Z' && c as int == d as int + 32)
  }

  /** The query stands somewhere in the text, but for the case of letters. */
  predicate Mentions(text: string, query: string) {
    exists i :: 0 <= i <= |text| - |query| && StandsAt(text, i, query)
  }

  predicate StandsAt(text: string, i: nat, query: string)
    requires i + |query| <= |text|
  {
    forall j :: 0 <= j < |query| ==> SameLetter(text[i + j], query[j])
  }

  lemma LettersLower(c: char, d: char)
    ensures SameLetter(c, d) <==> LowerChar(c) == LowerChar(d)
  {
  }

  lemma StandsLower(text: string, i: nat, query: string)
    requires i + |query| <= |text|
    ensures StandsAt(text, i, query) <==> ToLower(text)[i..i + |query|] == ToLower(query)
  {
    forall j | 0 <= j < |query|
      ensures SameLetter(text[i + j], query[j]) <==> ToLower(text)[i + j] == ToLower(query)[j]
    {
      LettersLower(text[i + j], query[j]);
    }
    if ToLower(text)[i..i + |query|] == ToLower(query) {
      forall j | 0 <= j < |query| ensures SameLetter(text[i + j], query[j]) {
        assert ToLower(text)[i..i + |query|][j] == ToLower(query)[j];
      }
    }
  }

  predicate Occurs(s: string, i: nat, sub: string) {
    i + |sub| <= |s| && s[i..i + |sub|] == sub
  }

  lemma OccursLater(s: string, i: nat, sub: string)
    requires s != ""
    ensures Occurs(s, i + 1, sub) <==> Occurs(s[1..], i, sub)
  {
    if i + 1 + |sub| <= |s| { assert s[1..][i..i + |sub|] == s[i + 1..i + 1 + |sub|]; }
  }

  lemma {:induction false} ContainsAt(s: string, sub: string) returns (i: nat)
    ensures Contains(s, sub) <==> Occurs(s, i, sub)
  {
    if sub <= s {
      i := 0;
    } else if s != "" {
      var k := ContainsAt(s[1..], sub);
      OccursLater(s, k, sub);
      i := k + 1;
    } else {
      i := 0;
    }
  }

  lemma {:induction false} OccurrenceCounts(s: string, sub: string, i: nat)
    requires Occurs(s, i, sub)
    ensures Contains(s, sub)
  {
    if i == 0 {
      assert sub <= s;
    } else {
      OccursLater(s, i - 1, sub);
      OccurrenceCounts(s[1..], sub, i - 1);
    }
  }

  lemma MentionsLower(text: string, query: string)
    ensures Contains(ToLower(text), ToLower(query)) <==> Mentions(text, query)
  {
    if Mentions(text, query) {
      var i :| 0 <= i <= |text| - |query| && StandsAt(text, i, query);
      StandsLower(text, i, query);
      OccurrenceCounts(ToLower(text), ToLower(query), i);
    }
    var k := ContainsAt(ToLower(text), ToLower(query));
    if Contains(ToLower(text), ToLower(query)) { StandsLower(text, k, query); }
  }

  /** A query without blanks around it selects the packages whose name mentions it, or a description
      of whose versions does; the empty one selects all. */
  lemma QuerySelects(name: string, list: seq<Stanza>, query: string)
    ensures Matches(name, list, ToLower(query))
       <==> query == "" || Mentions(name, query) || exists s :: s in list && Mentions(s.control.description, query)
  {
    MentionsLower(name, query);
    forall s: Stanza
      ensures Contains(ToLower(s.control.description), ToLower(query)) <==> Mentions(s.control.description, query)
    {
      MentionsLower(s.control.description, query);
    }
    if exists s :: s in list && Mentions(s.control.description, query) {
      var s :| s in list && Mentions(s.control.description, query);
      var i :| 0 <= i < |list| && list[i] == s;
      assert Contains(ToLower(list[i].control.description), ToLower(query));
    }
  }

  /** The versions of a card are those of its package, each as often as it was collected. */
  lemma {:induction false} OfPackageIs(all: seq<Stanza>, name: string, s: Stanza)
    ensures multiset(OfPackage(all, name))[s] == if s.control.package == name then multiset(all)[s] else 0
  {
    if all != [] {
      var front, last := all[..|all| - 1], all[|all| - 1];
      assert all == front + [last];
      OfPackageIs(front, name, s);
    }
  }
}
