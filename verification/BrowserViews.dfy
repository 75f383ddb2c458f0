/** What the browser shows of the cache. The runtime may range over the cache in any order, so a
    view is any collection with one stanza for every identifier; package lists and repository
    information agree when names hold no underscores, and need not agree otherwise. */
module BrowserViews {
  import opened Text
  import opened Stanzas
  import opened PackageIndex
  import opened BrowserCache
  import Paths

  /** The identifier by which stanzas of several indexes are told apart. */
  function Ident(s: Stanza): string {
    s.control.package + "_" + s.control.version + "_" + s.control.architecture
  }

  function PrefixFor(codename: string, component: string): string {
    if codename == "" then "" else if component == "" then codename + "/" else codename + "/" + component + "/"
  }

  predicate Selected(key: string, prefix: string, arch: string) {
    HasPrefix(key, prefix) && (arch == "" || TrimPrefix(key, prefix) == arch)
  }

  predicate InView(cache: Cache, prefix: string, arch: string, s: Stanza) {
    exists key :: key in cache && Selected(key, prefix, arch) && s in cache[key]
  }

  predicate DistinctIdents(all: seq<Stanza>) {
    forall i, j :: 0 <= i < j < |all| ==> Ident(all[i]) != Ident(all[j])
  }

  predicate HasIdent(all: seq<Stanza>, ident: string) {
    exists s :: s in all && Ident(s) == ident
  }

  /** A possible result of collectStanzas. */
  ghost predicate IsCollection(cache: Cache, prefix: string, arch: string, all: seq<Stanza>) {
    && DistinctIdents(all)
    && (forall s :: s in all ==> InView(cache, prefix, arch, s))
    && (forall s :: InView(cache, prefix, arch, s) ==> HasIdent(all, Ident(s)))
  }

  function PackageNames(all: seq<Stanza>): set<string> {
    set s | s in all :: s.control.package
  }

  function Idents(all: seq<Stanza>): set<string> {
    set s | s in all :: Ident(s)
  }

  lemma {:induction false} IdentCount(all: seq<Stanza>)
    requires DistinctIdents(all)
    ensures |Idents(all)| == |all|
  {
    if all != [] {
      var front, last := all[..|all| - 1], all[|all| - 1];
      assert all == front + [last];
      IdentCount(front);
      assert Idents(all) == Idents(front) + {Ident(last)};
      assert Ident(last) !in Idents(front);
    }
  }

  /** All collections of a view have the same identifiers. */
  lemma SameIdents(cache: Cache, prefix: string, arch: string, a: seq<Stanza>, b: seq<Stanza>)
    requires IsCollection(cache, prefix, arch, a) && IsCollection(cache, prefix, arch, b)
    ensures Idents(a) == Idents(b) && |a| == |b|
  {
    IdentsWithin(cache, prefix, arch, a, b);
    IdentsWithin(cache, prefix, arch, b, a);
    IdentCount(a);
    IdentCount(b);
  }

  lemma IdentsWithin(cache: Cache, prefix: string, arch: string, a: seq<Stanza>, b: seq<Stanza>)
    requires IsCollection(cache, prefix, arch, a) && IsCollection(cache, prefix, arch, b)
    ensures Idents(a) <= Idents(b)
  {
    forall x | x in Idents(a) ensures x in Idents(b) {
      var s :| s in a && Ident(s) == x;
      assert InView(cache, prefix, arch, s);
      assert HasIdent(b, Ident(s));
    }
  }

  // ----- names without underscores -----

  predicate PlainNames(s: Stanza) {
    NoChar(s.control.package, '_') && NoChar(s.control.architecture, '_')
  }

  lemma FirstUnderscore(p: string, rest: string, p': string, rest': string)
    requires p + "_" + rest == p' + "_" + rest' && NoChar(p, '_') && NoChar(p', '_')
    ensures p == p' && rest == rest'
  {
    var s := p + "_" + rest;
    assert s[..|p|] == p && s[..|p'|] == p';
    IndexOfIs(s, '_', |p|);
    IndexOfIs(s, '_', |p'|);
    assert rest == s[|p| + 1..] && rest' == s[|p'| + 1..];
  }

  lemma IdentIsKey(s: Stanza, x: Stanza)
    requires PlainNames(s) && PlainNames(x) && Ident(s) == Ident(x)
    ensures KeyOf(s) == KeyOf(x)
  {
    var a, b := s.control, x.control;
    assert Ident(s) == a.package + "_" + (a.version + "_" + a.architecture);
    assert Ident(x) == b.package + "_" + (b.version + "_" + b.architecture);
    FirstUnderscore(a.package, a.version + "_" + a.architecture, b.package, b.version + "_" + b.architecture);
    Paths.LastUnderscore(a.version, a.architecture, b.version, b.architecture);
  }

  ghost predicate PlainView(cache: Cache, prefix: string, arch: string) {
    forall s :: InView(cache, prefix, arch, s) ==> PlainNames(s)
  }

  lemma KeysWithin(cache: Cache, prefix: string, arch: string, a: seq<Stanza>, b: seq<Stanza>)
    requires PlainView(cache, prefix, arch)
    requires IsCollection(cache, prefix, arch, a) && IsCollection(cache, prefix, arch, b)
    ensures Keys(a) <= Keys(b)
  {
    forall k | k in Keys(a) ensures k in Keys(b) {
      var s :| s in a && KeyOf(s) == k;
      assert InView(cache, prefix, arch, s) && HasIdent(b, Ident(s));
      var x :| x in b && Ident(x) == Ident(s);
      IdentIsKey(s, x);
    }
  }

  lemma NamesOfKeys(all: seq<Stanza>)
    ensures PackageNames(all) == set k | k in Keys(all) :: k.package
  {
    forall n | n in PackageNames(all) ensures n in set k | k in Keys(all) :: k.package {
      var s :| s in all && s.control.package == n;
      assert KeyOf(s) in Keys(all);
    }
  }

  /** Without underscores, all collections of a view have the same keys, so the same packages. */
  lemma CollectionsAgree(cache: Cache, prefix: string, arch: string, a: seq<Stanza>, b: seq<Stanza>)
    requires PlainView(cache, prefix, arch)
    requires IsCollection(cache, prefix, arch, a) && IsCollection(cache, prefix, arch, b)
    ensures |a| == |b| && Keys(a) == Keys(b) && PackageNames(a) == PackageNames(b)
  {
    SameIdents(cache, prefix, arch, a, b);
    KeysWithin(cache, prefix, arch, a, b);
    KeysWithin(cache, prefix, arch, b, a);
    NamesOfKeys(a);
    NamesOfKeys(b);
  }

  // ----- with underscores -----

  function Example(package: string, version: string): Stanza {
    Stanza(Control(package, version, "x", "", 0, "", "", "", "", "", "", "", "", "", "", "", "", "", map[]),
           "", 0, "", "", "", "")
  }

  /** Of two stanzas with one identifier, in different indexes, either may be the one collected. */
  lemma EitherIsCollected(s: Stanza, x: Stanza, y: Stanza, one: string, two: string, prefix: string)
    requires Ident(s) == Ident(x) && Ident(y) != Ident(s)
    requires one != two && Selected(one, prefix, "") && Selected(two, prefix, "")
    ensures IsCollection(map[one := [s, y], two := [x]], prefix, "", [s, y])
    ensures IsCollection(map[one := [s, y], two := [x]], prefix, "", [x, y])
  {
    var cache := map[one := [s, y], two := [x]];
    assert one in cache && two in cache && cache[one] == [s, y] && cache[two] == [x];
    assert s in [s, y] && y in [s, y] && x in [x] && x in [x, y] && y in [x, y];
    assert s in cache[one] && y in cache[one] && x in cache[two];
    forall z | InView(cache, prefix, "", z) ensures HasIdent([s, y], Ident(z)) && HasIdent([x, y], Ident(z)) {
      assert z == s || z == x || z == y;
    }
  }

  /** With underscores two collections of one view may differ in their packages: one call can count
      two packages where the next one lists one. */
  lemma UnderscoresDisagree() returns (cache: Cache, a: seq<Stanza>, b: seq<Stanza>)
    ensures IsCollection(cache, "c/", "", a) && IsCollection(cache, "c/", "", b)
    ensures |PackageNames(a)| == 2 && |PackageNames(b)| == 1
  {
    var s, x, y := Example("a_b", "1"), Example("a", "b_1"), Example("a", "9");
    cache := map["c/m/x" := [s, y], "c/n/x" := [x]];
    a, b := [s, y], [x, y];
    assert Ident(s) == "a_b_1_x" && Ident(x) == "a_b_1_x" && Ident(y) == "a_9_x";
    assert |Ident(s)| != |Ident(y)|;
    assert "c/m/x"[2] != "c/n/x"[2];
    EitherIsCollected(s, x, y, "c/m/x", "c/n/x", "c/");
    TwoNames(s, x, y);
  }

  lemma TwoNames(s: Stanza, x: Stanza, y: Stanza)
    requires s.control.package != y.control.package && x.control.package == y.control.package
    ensures |PackageNames([s, y])| == 2 && |PackageNames([x, y])| == 1
  {
    assert s in [s, y] && y in [s, y] && y in [x, y];
    assert PackageNames([s, y]) == {s.control.package, y.control.package};
    assert PackageNames([x, y]) == {y.control.package};
  }

  // ----- exactly when views agree -----

  /** All collections of the view name the same packages. */
  ghost predicate NamesAgree(cache: Cache, prefix: string, arch: string) {
    forall a, b | IsCollection(cache, prefix, arch, a) && IsCollection(cache, prefix, arch, b) ::
      PackageNames(a) == PackageNames(b)
  }

  /** Every stanza of the view with the identifier of x belongs to the package of x. */
  ghost predicate OwnsIdent(cache: Cache, prefix: string, arch: string, x: Stanza) {
    forall s | InView(cache, prefix, arch, s) && Ident(s) == Ident(x) :: s.control.package == x.control.package
  }

  ghost predicate HasOwn(cache: Cache, prefix: string, arch: string, name: string) {
    exists x :: InView(cache, prefix, arch, x) && x.control.package == name && OwnsIdent(cache, prefix, arch, x)
  }

  /** Every package of the view has an identifier of its own. */
  ghost predicate PackagesOwnIdents(cache: Cache, prefix: string, arch: string) {
    forall s | InView(cache, prefix, arch, s) :: HasOwn(cache, prefix, arch, s.control.package)
  }

  lemma OwnNamesWithin(cache: Cache, prefix: string, arch: string, a: seq<Stanza>, b: seq<Stanza>)
    requires PackagesOwnIdents(cache, prefix, arch)
    requires IsCollection(cache, prefix, arch, a) && IsCollection(cache, prefix, arch, b)
    ensures PackageNames(a) <= PackageNames(b)
  {
    forall n | n in PackageNames(a) ensures n in PackageNames(b) {
      var s :| s in a && s.control.package == n;
      assert InView(cache, prefix, arch, s) && HasOwn(cache, prefix, arch, n);
      var x :| InView(cache, prefix, arch, x) && x.control.package == n && OwnsIdent(cache, prefix, arch, x);
      assert HasIdent(b, Ident(x));
      var y :| y in b && Ident(y) == Ident(x);
      assert InView(cache, prefix, arch, y);
    }
  }

  function ViewSet(cache: Cache, prefix: string, arch: string): set<Stanza> {
    set key, s | key in cache && s in cache[key] && Selected(key, prefix, arch) :: s
  }

  lemma ViewSetIs(cache: Cache, prefix: string, arch: string)
    ensures forall s :: s in ViewSet(cache, prefix, arch) <==> InView(cache, prefix, arch, s)
  {
  }

  lemma AddIdent(base: seq<Stanza>, s: Stanza)
    requires DistinctIdents(base) && !HasIdent(base, Ident(s))
    ensures DistinctIdents(base + [s]) && forall x :: HasIdent(base + [s], x) <==> HasIdent(base, x) || x == Ident(s)
  {
    forall i | 0 <= i < |base| ensures Ident(base[i]) != Ident(s) { assert base[i] in base; }
    forall x ensures HasIdent(base + [s], x) <==> HasIdent(base, x) || x == Ident(s) {
      assert s in base + [s];
      if HasIdent(base, x) {
        var y :| y in base && Ident(y) == x;
        assert y in base + [s];
      }
    }
  }

  /** base with stanzas of v put behind until every identifier of v is there. */
  lemma {:induction false} Complete(base: seq<Stanza>, v: set<Stanza>) returns (all: seq<Stanza>)
    requires DistinctIdents(base)
    ensures DistinctIdents(all) && forall s :: s in base ==> s in all
    ensures forall s :: s in all ==> s in base || s in v
    ensures forall s :: s in v ==> HasIdent(all, Ident(s))
    ensures forall x :: HasIdent(base, x) ==> HasIdent(all, x)
    decreases |v|
  {
    if v == {} {
      all := base;
    } else {
      var s :| s in v;
      if HasIdent(base, Ident(s)) {
        all := Complete(base, v - {s});
      } else {
        AddIdent(base, s);
        all := Complete(base + [s], v - {s});
      }
    }
  }

  /** Without an identifier of its own, a package may be listed or not. */
  lemma MayBeHidden(cache: Cache, prefix: string, arch: string, s: Stanza) returns (a: seq<Stanza>, b: seq<Stanza>)
    requires InView(cache, prefix, arch, s) && !HasOwn(cache, prefix, arch, s.control.package)
    ensures IsCollection(cache, prefix, arch, a) && IsCollection(cache, prefix, arch, b)
    ensures s.control.package in PackageNames(a) && s.control.package !in PackageNames(b)
  {
    var v := ViewSet(cache, prefix, arch);
    var others := set x | x in v && x.control.package != s.control.package;
    ViewSetIs(cache, prefix, arch);
    a := Complete([s], v);
    assert s in [s];
    b := Complete([], others);
    forall x | InView(cache, prefix, arch, x) ensures HasIdent(b, Ident(x)) {
      if x.control.package == s.control.package {
        assert !OwnsIdent(cache, prefix, arch, x);
        var y :| InView(cache, prefix, arch, y) && Ident(y) == Ident(x) && y.control.package != x.control.package;
        assert y in others;
      } else {
        assert x in others;
      }
    }
  }

  /** All collections of a view name the same packages if and only if every package of the view has
      an identifier all of whose stanzas in the view belong to it. */
  lemma AgreeExactly(cache: Cache, prefix: string, arch: string)
    ensures NamesAgree(cache, prefix, arch) <==> PackagesOwnIdents(cache, prefix, arch)
  {
    if PackagesOwnIdents(cache, prefix, arch) {
      forall a, b | IsCollection(cache, prefix, arch, a) && IsCollection(cache, prefix, arch, b)
        ensures PackageNames(a) == PackageNames(b)
      {
        OwnNamesWithin(cache, prefix, arch, a, b);
        OwnNamesWithin(cache, prefix, arch, b, a);
      }
    } else {
      var s :| InView(cache, prefix, arch, s) && !HasOwn(cache, prefix, arch, s.control.package);
      var a, b := MayBeHidden(cache, prefix, arch, s);
      assert PackageNames(a) != PackageNames(b);
    }
  }
}
