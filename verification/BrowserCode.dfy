/** The repository manager of the browser: its fields change with every sync, and its views build
    maps and slices of their own. The order of every map iteration is left open. */
module BrowserCode {
  import opened Text
  import opened Sorting
  import opened VersionOrder
  import opened Stanzas
  import opened PackageIndex
  import opened BrowserCache
  import opened BrowserViews
  import opened BrowserCards
  import opened BrowserRelease
  import opened Words
  import opened Deb822
  import DC = Deb822Code
  import R = Release

  /** known with the word put behind if it is missing. */
  function Remembered(known: seq<string>, word: string): seq<string> {
    if word in known then known else known + [word]
  }

  predicate NoRepeats(known: seq<string>) {
    forall i, j :: 0 <= i < j < |known| ==> known[i] != known[j]
  }

  lemma RememberedKeeps(known: seq<string>, word: string)
    requires NoRepeats(known)
    ensures NoRepeats(Remembered(known, word))
  {
  }

  /** What is known after the words, given what was known before. */
  ghost predicate Knows(known: seq<string>, before: seq<string>, words: seq<string>) {
    forall w :: w in known <==> w in before || w in words
  }

  lemma KnowsMore(known: seq<string>, before: seq<string>, words: seq<string>, word: string)
    requires Knows(known, before, words)
    ensures Knows(Remembered(known, word), before, words + [word])
  {
  }

  function ArchsMet(path: string, stanzas: seq<Stanza>): seq<string> {
    seq(|stanzas|, i requires 0 <= i < |stanzas| => ArchFor(path, stanzas[i]))
  }

  function ComponentsMet(codename: string, path: string, stanzas: seq<Stanza>, default: string): seq<string> {
    seq(|stanzas|, i requires 0 <= i < |stanzas| => ComponentFor(codename, path, stanzas[i], default))
  }

  lemma MetStep(codename: string, path: string, stanzas: seq<Stanza>, i: nat, default: string)
    requires i < |stanzas|
    ensures ArchsMet(path, stanzas[..i + 1]) == ArchsMet(path, stanzas[..i]) + [ArchFor(path, stanzas[i])]
    ensures ComponentsMet(codename, path, stanzas[..i + 1], default)
         == ComponentsMet(codename, path, stanzas[..i], default) + [ComponentFor(codename, path, stanzas[i], default)]
  {
    assert stanzas[..i + 1] == stanzas[..i] + [stanzas[i]];
    ArchsSnoc(path, stanzas[..i], stanzas[i]);
    ComponentsSnoc(codename, path, stanzas[..i], stanzas[i], default);
  }

  lemma ArchsSnoc(path: string, front: seq<Stanza>, s: Stanza)
    ensures ArchsMet(path, front + [s]) == ArchsMet(path, front) + [ArchFor(path, s)]
  {
  }

  lemma ComponentsSnoc(codename: string, path: string, front: seq<Stanza>, s: Stanza, default: string)
    ensures ComponentsMet(codename, path, front + [s], default)
         == ComponentsMet(codename, path, front, default) + [ComponentFor(codename, path, s, default)]
  {
  }

  lemma IngestOneIs(cache: Cache, codename: string, path: string, s: Stanza, default: string, key: string,
                    idx: seq<Stanza>)
    requires key == KeyFor(codename, path, s, default) && idx == IndexAt(cache, key)
    ensures cache[key := Upsert(idx, s)] == IngestOne(cache, codename, path, s, default)
  {
  }

  /** strings.HasPrefix over the directories of a path, up to the first match. */
  method FindBinaryArch(path: string) returns (arch: string)
    ensures arch == BinaryArch(Split(path, '/'))
  {
    var parts := Split(path, '/');
    assert parts[0..] == parts;
    for i := 0 to |parts|
      invariant BinaryArch(parts[i..]) == BinaryArch(parts)
    {
      assert parts[i..][0] == parts[i] && parts[i..][1..] == parts[i + 1..];
      if HasPrefix(parts[i], BINARY) { return TrimPrefix(parts[i], BINARY); }
    }
    assert parts[|parts|..] == [];
    return "";
  }

  /** The component from the path, else from the Filename, else from the Section. */
  method FindComponent(codename: string, path: string, s: Stanza, default: string) returns (comp: string)
    ensures comp == ComponentFor(codename, path, s, default)
  {
    comp := "";
    var parts := Split(TrimPrefix(path, DistsDir(codename)), '/');
    if |parts| >= 2 && !HasPrefix(parts[0], BINARY) && !HasPrefix(parts[0], "Packages") {
      comp := parts[0];
    }
    if comp == "" {
      if HasPrefix(s.filename, "pool/") {
        var poolParts := Split(TrimPrefix(s.filename, "pool/"), '/');
        if |poolParts| > 1 && poolParts[0] != "" {
          comp := poolParts[0];
        }
      } else if !NoChar(s.control.section, '/') {
        comp := Split(s.control.section, '/')[0];
      }
    }
    if comp == "" {
      comp := default;
    }
  }

  lemma IngestStep(cache: Cache, codename: string, path: string, stanzas: seq<Stanza>, i: nat, default: string)
    requires i < |stanzas|
    ensures Ingest(cache, codename, path, stanzas[i..], default)
         == Ingest(IngestOne(cache, codename, path, stanzas[i], default), codename, path, stanzas[i + 1..], default)
  {
    assert stanzas[i..][0] == stanzas[i] && stanzas[i..][1..] == stanzas[i + 1..];
  }

  method RememberAll(known: seq<string>, words: seq<string>) returns (known': seq<string>)
    requires NoRepeats(known)
    ensures NoRepeats(known') && Knows(known', known, words)
  {
    known' := known;
    for i := 0 to |words|
      invariant NoRepeats(known') && Knows(known', known, words[..i])
    {
      assert words[..i + 1] == words[..i] + [words[i]];
      RememberedKeeps(known', words[i]);
      KnowsMore(known', known, words[..i], words[i]);
      if words[i] !in known' { known' := known' + [words[i]]; }
    }
    assert words[..|words|] == words;
  }

  method MetaOf(p: DC.Paragraph, codename: string) returns (m: Meta)
    ensures IsMeta(p.Value(), codename, m)
  {
    var origin, labelText, suite, date, description := TextsOf(p);
    var name, archs, comps := NamesOf(p, codename);
    m := Meta(origin, labelText, suite, name, date, description, archs, comps);
  }

  method TextsOf(p: DC.Paragraph)
    returns (origin: string, labelText: string, suite: string, date: string, description: string)
    ensures TextsRead(p.Value(), origin, labelText, suite, date, description)
  {
    origin := p.Get("Origin");
    labelText := p.Get("Label");
    suite := p.Get("Suite");
    date := p.Get("Date");
    description := p.Get("Description");
  }

  method NamesOf(p: DC.Paragraph, codename: string) returns (name: string, archs: seq<string>, comps: seq<string>)
    ensures NamesRead(p.Value(), codename, name, archs, comps)
  {
    var c := p.Get("Codename");
    name := if c == "" then codename else c;
    var a := p.Get("Architectures");
    archs := Fields(a);
    var b := p.Get("Components");
    comps := Fields(b);
  }

  method FirstMeta(text: string, codename: string) returns (some: bool, m: Meta)
    ensures some <==> ParseText(text) != []
    ensures some ==> IsMeta(ParseText(text)[0], codename, m)
  {
    var paras := DC.ParseParagraphs(text);
    some := |paras| > 0;
    if some {
      m := MetaOf(paras[0], codename);
    } else {
      m := Meta("", "", "", codename, "", "", [], []);
    }
  }

  function ListAt(grouped: map<string, seq<Stanza>>, name: string): seq<Stanza> {
    if name in grouped then grouped[name] else []
  }

  ghost predicate GroupsMatch(grouped: map<string, seq<Stanza>>, all: seq<Stanza>) {
    grouped.Keys == PackageNames(all) && forall name :: ListAt(grouped, name) == OfPackage(all, name)
  }

  lemma PackageNamesSnoc(all: seq<Stanza>, s: Stanza)
    ensures PackageNames(all + [s]) == PackageNames(all) + {s.control.package}
  {
    assert s in all + [s];
  }

  lemma OfPackageSnoc(all: seq<Stanza>, s: Stanza, name: string)
    ensures OfPackage(all + [s], name) == OfPackage(all, name) + if s.control.package == name then [s] else []
  {
    assert (all + [s])[..|all|] == all;
  }

  lemma GroupsSnoc(grouped: map<string, seq<Stanza>>, all: seq<Stanza>, s: Stanza)
    requires GroupsMatch(grouped, all)
    ensures GroupsMatch(grouped[s.control.package := ListAt(grouped, s.control.package) + [s]], all + [s])
  {
    var grouped', all' := grouped[s.control.package := ListAt(grouped, s.control.package) + [s]], all + [s];
    PackageNamesSnoc(all, s);
    forall name ensures ListAt(grouped', name) == OfPackage(all', name) {
      OfPackageSnoc(all, s, name);
      assert ListAt(grouped, name) == OfPackage(all, name);
    }
  }

  lemma PrefixSnoc(all: seq<Stanza>, i: nat)
    requires i < |all|
    ensures all[..i + 1] == all[..i] + [all[i]]
  {
  }

  /** Stanzas by package name, each group in the order given. */
  method GroupByName(all: seq<Stanza>) returns (grouped: map<string, seq<Stanza>>)
    ensures GroupsMatch(grouped, all)
  {
    grouped := map[];
    for i := 0 to |all|
      invariant GroupsMatch(grouped, all[..i])
    {
      PrefixSnoc(all, i);
      GroupsSnoc(grouped, all[..i], all[i]);
      grouped := grouped[all[i].control.package := ListAt(grouped, all[i].control.package) + [all[i]]];
    }
    assert all[..|all|] == all;
  }

  /** The architectures of a list, in order of appearance. */
  method ArchsOf(list: seq<Stanza>) returns (archs: seq<string>)
    ensures Lists(archs, list)
  {
    archs := [];
    for i := 0 to |list|
      invariant forall j, k :: 0 <= j < k < |archs| ==> archs[j] != archs[k]
      invariant forall j :: 0 <= j < i ==> list[j].control.architecture in archs
      invariant forall a :: a in archs ==> exists j :: 0 <= j < i && list[j].control.architecture == a
    {
      if list[i].control.architecture !in archs { archs := archs + [list[i].control.architecture]; }
    }
  }

  lemma SameArchs(archs: seq<string>, sorted: seq<Stanza>, list: seq<Stanza>)
    requires multiset(sorted) == multiset(list) && Lists(archs, sorted)
    ensures Lists(archs, list)
  {
    forall s ensures s in sorted <==> s in list {
      assert s in sorted <==> s in multiset(sorted);
      assert s in list <==> s in multiset(list);
    }
  }

  lemma FirstIsLatest(sorted: seq<Stanza>, list: seq<Stanza>)
    requires multiset(sorted) == multiset(list) && SortedBy(sorted, LatestFirst) && list != []
    ensures |sorted| == |list| && sorted[0] in list
    ensures forall s :: s in list ==> CompareVersions(s.control.version, sorted[0].control.version) <= 0
  {
    assert |multiset(sorted)| == |sorted| && |multiset(list)| == |list|;
    assert sorted[0] in multiset(sorted);
    forall s | s in list ensures CompareVersions(s.control.version, sorted[0].control.version) <= 0 {
      assert s in multiset(list);
      var i :| 0 <= i < |sorted| && sorted[i] == s;
      TotalPreorder(s.control.version, s.control.version, s.control.version);
      if i > 0 { assert LatestFirst(sorted[0], sorted[i]) <= 0; }
    }
  }

  method MakeCard(name: string, list: seq<Stanza>) returns (card: Card)
    requires list != []
    ensures card.name == name && IsCard(card, list)
  {
    LatestFirstIsLegal();
    var sorted := SortFunc(list, LatestFirst);
    FirstIsLatest(sorted, list);
    var latest := sorted[0];
    var archs := ArchsOf(sorted);
    SameArchs(archs, sorted, list);
    card := Card(name, latest.control.version, archs, |sorted|, latest.control.description,
                 latest.control.maintainer, latest.size, latest.filename, latest.sha256);
  }

  function CompareNames(a: Card, b: Card): int {
    Compare(a.name, b.name)
  }

  lemma NamesAreLegal()
    ensures Legal(CompareNames)
  {
    R.StringsAreLegal();
    forall a: Card, b: Card ensures CompareNames(a, b) <= 0 || CompareNames(b, a) <= 0 { CompareLaws(a.name, b.name); }
    forall a, b, c | CompareNames(a, b) <= 0 && CompareNames(b, c) <= 0 ensures CompareNames(a, c) <= 0 {
      CompareTransitive(a.name, b.name, c.name);
    }
  }

  /** Cards of different names, sorted by name, are strictly sorted. */
  lemma SortedStrictly(sorted: seq<Card>, cards: seq<Card>)
    requires multiset(sorted) == multiset(cards) && SortedBy(sorted, CompareNames)
    requires forall i, j :: 0 <= i < j < |cards| ==> cards[i].name != cards[j].name
    ensures StrictlyByName(sorted) && forall c :: c in sorted <==> c in cards
  {
    PermutationIsDistinct(sorted, cards);
    forall i, j | 0 <= i < j < |sorted| ensures Compare(sorted[i].name, sorted[j].name) < 0 {
      assert CompareNames(sorted[i], sorted[j]) <= 0;
      assert sorted[i] in cards && sorted[j] in cards && sorted[i] != sorted[j];
      var a :| 0 <= a < |cards| && cards[a] == sorted[i];
      var b :| 0 <= b < |cards| && cards[b] == sorted[j];
      CompareLaws(sorted[i].name, sorted[j].name);
    }
  }

  class RepositoryManager {
    const codename: string
    const component: string
    var indexes: Cache
    var knownCodenames: seq<string>
    var knownComponents: seq<string>
    var knownArchs: seq<string>
    var releaseMeta: map<string, Meta>

    constructor (codename: string, component: string)
      ensures Valid() && this.codename == codename && this.component == component && indexes == map[]
    {
      this.codename, this.component := codename, component;
      indexes := map[];
      knownCodenames, knownComponents, knownArchs := [], [], [];
      releaseMeta := map[];
    }

    /** What every sync keeps. */
    ghost predicate Valid()
      reads this
    {
      GoodCache(indexes) && NoRepeats(knownComponents) && NoRepeats(knownArchs)
    }

    function DefaultComponent(given: string): string
      reads this
    {
      OrElse(OrElse(given, component), "main")
    }

    /** The component of last resort: what is given, what is configured, main. */
    lemma DefaultIs(given: string)
      ensures given != "" ==> DefaultComponent(given) == given
      ensures given == "" && component != "" ==> DefaultComponent(given) == component
      ensures given == "" && component == "" ==> DefaultComponent(given) == "main"
    {
    }

    /** One stanza: its architecture, its component, its index. */
    method IngestStanza(curCodename: string, targetPath: string, stanza: Stanza, default: string)
      requires Valid()
      modifies this
      ensures Valid() && knownCodenames == old(knownCodenames)
      ensures indexes == IngestOne(old(indexes), curCodename, targetPath, stanza, default)
      ensures knownArchs == Remembered(old(knownArchs), ArchFor(targetPath, stanza))
      ensures knownComponents
          == Remembered(old(knownComponents), ComponentFor(curCodename, targetPath, stanza, default))
    {
      var arch := stanza.control.architecture;
      if arch == "" { arch := FindBinaryArch(targetPath); }
      if arch == "" { arch := "all"; }
      var comp := FindComponent(curCodename, targetPath, stanza, default);
      RememberedKeeps(knownComponents, comp);
      RememberedKeeps(knownArchs, arch);
      if comp !in knownComponents { knownComponents := knownComponents + [comp]; }
      if arch !in knownArchs { knownArchs := knownArchs + [arch]; }
      var key := curCodename + "/" + comp + "/" + arch;
      IngestOneKeeps(indexes, curCodename, targetPath, stanza, default);
      var idx := if key in indexes then indexes[key] else [];
      IngestOneIs(indexes, curCodename, targetPath, stanza, default, key, idx);
      indexes := indexes[key := Upsert(idx, stanza)];
    }

    /** All stanzas of one index file; every architecture and component met is known afterwards. */
    method IngestIndex(curCodename: string, targetPath: string, parsed: seq<Stanza>, defaultComp: string)
      requires Valid()
      modifies this
      ensures Valid() && knownCodenames == old(knownCodenames)
      ensures indexes == Ingest(old(indexes), curCodename, targetPath, parsed, DefaultComponent(defaultComp))
      ensures Knows(knownArchs, old(knownArchs), ArchsMet(targetPath, parsed))
      ensures Knows(knownComponents, old(knownComponents),
                    ComponentsMet(curCodename, targetPath, parsed, DefaultComponent(defaultComp)))
    {
      var default := DefaultComponent(defaultComp);
      assert parsed[0..] == parsed;
      for i := 0 to |parsed|
        invariant Valid() && knownCodenames == old(knownCodenames)
        invariant Ingest(indexes, curCodename, targetPath, parsed[i..], default)
               == Ingest(old(indexes), curCodename, targetPath, parsed, default)
        invariant Knows(knownArchs, old(knownArchs), ArchsMet(targetPath, parsed[..i]))
        invariant Knows(knownComponents, old(knownComponents),
                        ComponentsMet(curCodename, targetPath, parsed[..i], default))
      {
        IngestStep(indexes, curCodename, targetPath, parsed, i, default);
        MetStep(curCodename, targetPath, parsed, i, default);
        KnowsMore(knownArchs, old(knownArchs), ArchsMet(targetPath, parsed[..i]), ArchFor(targetPath, parsed[i]));
        KnowsMore(knownComponents, old(knownComponents), ComponentsMet(curCodename, targetPath, parsed[..i], default),
                  ComponentFor(curCodename, targetPath, parsed[i], default));
        IngestStanza(curCodename, targetPath, parsed[i], default);
      }
      assert parsed[|parsed|..] == [] && parsed[..|parsed|] == parsed;
    }

    /** What one manifest adds. */
    method Learn(curCodename: string, meta: Meta)
      requires Valid()
      modifies this
      ensures Valid() && indexes == old(indexes) && knownCodenames == old(knownCodenames)
      ensures releaseMeta == old(releaseMeta)[curCodename := meta]
      ensures Knows(knownArchs, old(knownArchs), meta.architectures)
      ensures Knows(knownComponents, old(knownComponents), meta.components)
    {
      releaseMeta := releaseMeta[curCodename := meta];
      knownComponents := RememberAll(knownComponents, meta.components);
      knownArchs := RememberAll(knownArchs, meta.architectures);
    }

    /** Reading a Release file: its first paragraph, and the architectures and components it names. */
    method ReadRelease(curCodename: string, text: string) returns (learned: bool, meta: Meta)
      requires Valid()
      modifies this
      ensures Valid() && indexes == old(indexes) && knownCodenames == Remembered(old(knownCodenames), curCodename)
      ensures learned <==> ParseText(text) != []
      ensures !learned ==> releaseMeta == old(releaseMeta)
      ensures !learned ==> knownArchs == old(knownArchs) && knownComponents == old(knownComponents)
      ensures learned ==>
          IsMeta(ParseText(text)[0], curCodename, meta) && releaseMeta == old(releaseMeta)[curCodename := meta]
      ensures learned ==> Knows(knownArchs, old(knownArchs), meta.architectures)
      ensures learned ==> Knows(knownComponents, old(knownComponents), meta.components)
    {
      if curCodename !in knownCodenames { knownCodenames := knownCodenames + [curCodename]; }
      learned, meta := FirstMeta(text, curCodename);
      if learned { Learn(curCodename, meta); }
    }

    function CodenameFor(given: string): string
      reads this
    {
      var c := OrElse(given, codename);
      if c == "" && |knownCodenames| > 0 then knownCodenames[0] else c
    }

    function ViewPrefix(givenCodename: string, givenComponent: string): string
      reads this
    {
      PrefixFor(CodenameFor(givenCodename), OrElse(givenComponent, component))
    }

    /** What is asked for: what is not given is what is configured, then the first codename known. */
    lemma ViewIs(c: string, m: string)
      ensures c != "" && m != "" ==> ViewPrefix(c, m) == c + "/" + m + "/"
      ensures c != "" && m == "" && component == "" ==> ViewPrefix(c, m) == c + "/"
      ensures m == "" ==> ViewPrefix(c, m) == ViewPrefix(c, component)
      ensures c == "" && codename != "" ==> ViewPrefix(c, m) == ViewPrefix(codename, m)
      ensures c == "" && codename == "" && knownCodenames != [] && knownCodenames[0] != "" ==>
        ViewPrefix(c, m) == ViewPrefix(knownCodenames[0], m)
      ensures c == "" && codename == "" && knownCodenames == [] ==> ViewPrefix(c, m) == ""
    {
    }

    /** One stanza for every identifier in the selected indexes, in whatever order they come. */
    method CollectStanzas(givenCodename: string, givenComponent: string, arch: string) returns (results: seq<Stanza>)
      ensures IsCollection(indexes, ViewPrefix(givenCodename, givenComponent), arch, results)
    {
      var prefix := ViewPrefix(givenCodename, givenComponent);
      results := [];
      var seen: set<string> := {};
      var left := indexes.Keys;
      while left != {}
        invariant left <= indexes.Keys && Collected(indexes, prefix, arch, results, seen)
        invariant forall key, s ::
            key in indexes && key !in left && Selected(key, prefix, arch) && s in indexes[key] ==>
            HasIdent(results, Ident(s))
        decreases |left|
      {
        var key :| key in left;
        left := left - {key};
        if Selected(key, prefix, arch) {
          results, seen := CollectIndex(key, prefix, arch, results, seen);
        }
      }
    }

    /** The stanzas of one index whose identifiers are new. */
    method CollectIndex(key: string, prefix: string, arch: string, before: seq<Stanza>, seenBefore: set<string>)
      returns (results: seq<Stanza>, seen: set<string>)
      requires key in indexes && Selected(key, prefix, arch) && Collected(indexes, prefix, arch, before, seenBefore)
      ensures Collected(indexes, prefix, arch, results, seen)
      ensures forall x :: HasIdent(before, x) ==> HasIdent(results, x)
      ensures forall s :: s in indexes[key] ==> HasIdent(results, Ident(s))
    {
      results, seen := before, seenBefore;
      var packages := indexes[key];
      for i := 0 to |packages|
        invariant Collected(indexes, prefix, arch, results, seen)
        invariant forall x :: HasIdent(before, x) ==> HasIdent(results, x)
        invariant forall j :: 0 <= j < i ==> HasIdent(results, Ident(packages[j]))
      {
        var s := packages[i];
        assert InView(indexes, prefix, arch, s);
        if Ident(s) !in seen {
          CollectOne(indexes, prefix, arch, results, seen, s);
          seen := seen + {Ident(s)};
          results := results + [s];
        }
      }
    }

    /** How many packages and versions there are. */
    method GetRepoInfo(givenCodename: string, givenComponent: string)
      returns (packages: nat, versions: nat)
      ensures exists all :: IsCollection(indexes, ViewPrefix(givenCodename, givenComponent), "", all)
                            && packages == |PackageNames(all)| && versions == |all|
    {
      var stanzas := CollectStanzas(givenCodename, givenComponent, "");
      var names: set<string> := {};
      for i := 0 to |stanzas|
        invariant names == PackageNames(stanzas[..i])
      {
        PrefixSnoc(stanzas, i);
        PackageNamesSnoc(stanzas[..i], stanzas[i]);
        names := names + {stanzas[i].control.package};
      }
      assert stanzas[..|stanzas|] == stanzas;
      packages, versions := |names|, |stanzas|;
    }

    /** One card for every package that matches, sorted by name. */
    method ListPackages(givenCodename: string, givenComponent: string, arch: string, query: string)
      returns (cards: seq<Card>)
      ensures exists all :: IsCollection(indexes, ViewPrefix(givenCodename, givenComponent), arch, all)
                            && AreCards(cards, all, ToLower(TrimSpace(query)))
    {
      var stanzas := CollectStanzas(givenCodename, givenComponent, arch);
      var grouped := GroupByName(stanzas);
      var q := ToLower(TrimSpace(query));
      var unsorted := MakeCards(stanzas, grouped, q);
      NamesAreLegal();
      cards := SortFunc(unsorted, CompareNames);
      SortedStrictly(cards, unsorted);
      assert CardNames(cards) == CardNames(unsorted);
      assert AreCards(cards, stanzas, q);
    }

    /** Ranging over the groups in whatever order they come. */
    method MakeCards(ghost all: seq<Stanza>, grouped: map<string, seq<Stanza>>, query: string)
      returns (cards: seq<Card>)
      requires GroupsMatch(grouped, all)
      ensures forall i, j :: 0 <= i < j < |cards| ==> cards[i].name != cards[j].name
      ensures forall c :: c in cards ==> GoodCard(c, all, query)
      ensures forall name :: name in PackageNames(all) && Matches(name, OfPackage(all, name), query) ==>
          name in CardNames(cards)
    {
      cards := [];
      var left := grouped.Keys;
      while left != {}
        invariant left <= grouped.Keys && CardsSoFar(cards, left, all, query)
        decreases |left|
      {
        var name :| name in left;
        assert left == left - {name} + {name};
        left := left - {name};
        var list := grouped[name];
        assert list == ListAt(grouped, name);
        if Matches(name, list, query) {
          SomeOfPackage(all, name);
          var card := MakeCard(name, list);
          CardsStep(cards, card, left, all, query);
          cards := cards + [card];
        }
      }
    }
  }

  /** The cards of all matching packages but those in left. */
  ghost predicate CardsSoFar(cards: seq<Card>, left: set<string>, all: seq<Stanza>, query: string) {
    && (forall i, j :: 0 <= i < j < |cards| ==> cards[i].name != cards[j].name)
    && (forall c :: c in cards ==> c.name !in left && GoodCard(c, all, query))
    && (forall name :: name in PackageNames(all) && name !in left && Matches(name, OfPackage(all, name), query) ==>
        name in CardNames(cards))
  }

  lemma DistinctSnoc(cards: seq<Card>, c: Card)
    requires forall i, j :: 0 <= i < j < |cards| ==> cards[i].name != cards[j].name
    requires forall i :: 0 <= i < |cards| ==> cards[i].name != c.name
    ensures forall i, j :: 0 <= i < j < |cards + [c]| ==> (cards + [c])[i].name != (cards + [c])[j].name
  {
  }

  lemma CardsStep(cards: seq<Card>, c: Card, left: set<string>, all: seq<Stanza>, query: string)
    requires c.name !in left && GoodCard(c, all, query) && CardsSoFar(cards, left + {c.name}, all, query)
    ensures CardsSoFar(cards + [c], left, all, query)
  {
    AddCard(cards, c);
    forall i | 0 <= i < |cards| ensures cards[i].name != c.name {
      assert cards[i] in cards && cards[i].name !in left + {c.name};
    }
    DistinctSnoc(cards, c);
    forall x | x in cards + [c] ensures x.name !in left && GoodCard(x, all, query) {
      assert x in cards || x == c;
    }
  }

  lemma AddCard(cards: seq<Card>, c: Card)
    ensures CardNames(cards + [c]) == CardNames(cards) + {c.name}
  {
    assert c in cards + [c];
    forall x | x in cards ensures x in cards + [c] { }
  }

  lemma {:induction false} SomeOfPackage(all: seq<Stanza>, name: string)
    requires name in PackageNames(all)
    ensures OfPackage(all, name) != []
  {
    var front, last := all[..|all| - 1], all[|all| - 1];
    assert all == front + [last];
    if last.control.package != name {
      var s :| s in all && s.control.package == name;
      assert s in front;
      SomeOfPackage(front, name);
    }
  }

  /** A collection under way: its identifiers are the ones seen. */
  ghost predicate Collected(cache: Cache, prefix: string, arch: string, results: seq<Stanza>, seen: set<string>) {
    && DistinctIdents(results)
    && (forall s :: s in results ==> InView(cache, prefix, arch, s))
    && (forall x :: x in seen <==> HasIdent(results, x))
  }

  lemma CollectOne(cache: Cache, prefix: string, arch: string, results: seq<Stanza>, seen: set<string>, s: Stanza)
    requires Collected(cache, prefix, arch, results, seen) && InView(cache, prefix, arch, s) && Ident(s) !in seen
    ensures Collected(cache, prefix, arch, results + [s], seen + {Ident(s)})
    ensures forall x :: HasIdent(results + [s], x) <==> HasIdent(results, x) || x == Ident(s)
  {
    forall x ensures HasIdent(results + [s], x) <==> HasIdent(results, x) || x == Ident(s) {
      IdentSnoc(results, s, x);
    }
    forall i | 0 <= i < |results| ensures Ident(results[i]) != Ident(s) {
      if Ident(results[i]) == Ident(s) { assert results[i] in results; assert HasIdent(results, Ident(s)); }
    }
  }

  lemma IdentSnoc(results: seq<Stanza>, s: Stanza, x: string)
    ensures HasIdent(results + [s], x) <==> HasIdent(results, x) || x == Ident(s)
  {
    assert s in results + [s];
    if HasIdent(results, x) {
      var y :| y in results && Ident(y) == x;
      assert y in results + [s];
    }
  }
}
