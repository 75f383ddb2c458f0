/** Where things are stored: pool files, indexes in four variants, and the Release file. On legal
    names different places have different paths, so the store can be indexed by places. */
module Paths {
  import opened Text

  /** A compression variant of an index. */
  datatype Ext = Plain | Gz | Bz2 | Xz

  function Suffix(e: Ext): string {
    match e
    case Plain => ""
    case Gz => ".gz"
    case Bz2 => ".bz2"
    case Xz => ".xz"
  }

  datatype Place =
    | Pool(component: string, package: string, version: string, architecture: string)
    | Index(codename: string, component: string, architecture: string, ext: Ext)
    | ReleaseFile(codename: string)

  /** The directory letter: the first letter, or four letters for libraries. */
  function Prefix(package: string): string
    requires package != ""
  {
    if |package| > 3 && package[..3] == "lib" then package[..4] else package[..1]
  }

  /** The letter as an element of a path; path.Join drops the letter of a name that starts with a dot. */
  function Letter(package: string): seq<string>
    requires package != ""
  {
    if Prefix(package) == "." then [] else [Prefix(package)]
  }

  function DebName(package: string, version: string, architecture: string): string {
    package + "_" + version + "_" + architecture + ".deb"
  }

  function Slashed(parts: seq<string>): string
    requires parts != []
  {
    Join(parts, '/')
  }

  /** An element that path.Join keeps as it is. */
  predicate Element(s: string) {
    OneLine(s) && NoChar(s, '/') && s != "" && s != "." && s != ".."
  }

  predicate Legal(p: Place) {
    match p
    case Pool(component, package, version, architecture) =>
      && Element(component) && Element(package)
      && OneLine(version) && NoChar(version, '/') && version != ""
      && OneLine(architecture) && NoChar(architecture, '/') && NoChar(architecture, '_') && architecture != ""
    case Index(codename, component, architecture, _) =>
      Element(codename) && Element(component) && OneLine(architecture) && NoChar(architecture, '/')
    case ReleaseFile(codename) => Element(codename)
  }

  function Parts(p: Place): (r: seq<string>)
    requires Legal(p)
    ensures r != []
  {
    match p
    case Pool(component, package, version, architecture) =>
      ["pool", component] + Letter(package) + [package, DebName(package, version, architecture)]
    case Index(codename, component, architecture, ext) =>
      ["dists", codename, component, "binary-" + architecture, "Packages" + Suffix(ext)]
    case ReleaseFile(codename) => ["dists", codename, "Release"]
  }

  /** computePoolPath, and the paths of indexes and manifests. */
  function PathOf(p: Place): string
    requires Legal(p)
  {
    Slashed(Parts(p))
  }

  lemma PartsHaveNoSlash(p: Place)
    requires Legal(p)
    ensures forall i :: 0 <= i < |Parts(p)| ==> NoChar(Parts(p)[i], '/')
  {
    match p
    case Pool(component, package, version, architecture) =>
      NoSlashInName(package, version, architecture);
      forall i | 0 <= i < |Parts(p)| ensures NoChar(Parts(p)[i], '/') {
        assert i > 0 ==> Parts(p)[i] in [component, Prefix(package), package, DebName(package, version, architecture)];
      }
    case Index(_, _, _, ext) =>
      assert NoChar("Packages" + Suffix(ext), '/');
    case ReleaseFile(_) =>
  }

  lemma NoSlashInName(package: string, version: string, architecture: string)
    requires NoChar(package, '/') && NoChar(version, '/') && NoChar(architecture, '/') && package != ""
    ensures NoChar(DebName(package, version, architecture), '/') && NoChar(Prefix(package), '/')
  {
  }

  lemma SamePathSameParts(a: Place, b: Place)
    requires Legal(a) && Legal(b) && PathOf(a) == PathOf(b)
    ensures Parts(a) == Parts(b)
  {
    PartsHaveNoSlash(a);
    PartsHaveNoSlash(b);
    SplitJoin(Parts(a), '/');
    SplitJoin(Parts(b), '/');
  }

  /** A version may hold underscores, an architecture may not: the last one separates them. */
  lemma LastUnderscore(v: string, a: string, v': string, a': string)
    requires v + "_" + a == v' + "_" + a' && NoChar(a, '_') && NoChar(a', '_')
    ensures v == v' && a == a'
  {
    var s := v + "_" + a;
    assert s[|v|] == '_' && s[|v'|] == '_';
    assert forall i :: |v| < i < |s| ==> s[i] == a[i - |v| - 1];
    assert forall i :: |v'| < i < |s| ==> s[i] == a'[i - |v'| - 1];
    assert v == s[..|v|] && v' == s[..|v'|];
    assert a == s[|v| + 1..] && a' == s[|v'| + 1..];
  }

  lemma SameDebName(package: string, v: string, a: string, v': string, a': string)
    requires DebName(package, v, a) == DebName(package, v', a') && NoChar(a, '_') && NoChar(a', '_')
    ensures v == v' && a == a'
  {
    var s, s' := v + "_" + a, v' + "_" + a';
    assert DebName(package, v, a) == package + "_" + s + ".deb";
    assert DebName(package, v', a') == package + "_" + s' + ".deb";
    var n := |package| + 1;
    assert s == DebName(package, v, a)[n..n + |s|] && s' == DebName(package, v', a')[n..n + |s'|];
    LastUnderscore(v, a, v', a');
  }

  lemma SuffixesDiffer(e: Ext, f: Ext)
    requires "Packages" + Suffix(e) == "Packages" + Suffix(f)
    ensures e == f
  {
    var n := |"Packages"|;
    assert ("Packages" + Suffix(e))[n..] == Suffix(e) && ("Packages" + Suffix(f))[n..] == Suffix(f);
    assert |Suffix(Gz)| == 3 && |Suffix(Xz)| == 3 && Suffix(Gz)[1] != Suffix(Xz)[1];
  }

  /** Different legal places have different paths. */
  lemma PathsDiffer(a: Place, b: Place)
    requires Legal(a) && Legal(b) && PathOf(a) == PathOf(b)
    ensures a == b
  {
    SamePathSameParts(a, b);
    var p, q := Parts(a), Parts(b);
    assert p[0] == q[0] && "pool"[0] != "dists"[0];
    match a
    case Pool(_, package, v, x) =>
      assert b.Pool?;
      assert p[1] == q[1] && p[|p| - 2] == q[|q| - 2] && p[|p| - 1] == q[|q| - 1];
      SameDebName(package, v, x, b.version, b.architecture);
    case Index(_, _, x, e) =>
      assert b.Index?;
      assert p[1] == q[1] && p[2] == q[2] && p[3] == q[3] && p[4] == q[4];
      assert ("binary-" + x)[7..] == x && ("binary-" + b.architecture)[7..] == b.architecture;
      SuffixesDiffer(e, b.ext);
    case ReleaseFile(_) =>
      assert b.ReleaseFile?;
      assert p[1] == q[1];
  }

  lemma {:induction false} JoinEnds(parts: seq<string>)
    requires parts != [] && forall i :: 0 <= i < |parts| ==> parts[i] != "" && NoChar(parts[i], '\n')
    ensures var s := Join(parts, '/'); var last := parts[|parts| - 1];
      s != "" && NoChar(s, '\n') && s[0] == parts[0][0] && s[|s| - 1] == last[|last| - 1]
  {
    if |parts| > 1 {
      JoinEnds(parts[1..]);
      assert Join(parts, '/') == parts[0] + ['/'] + Join(parts[1..], '/');
    }
  }

  /** A pool path fits in a Filename field and comes back from it. */
  lemma PoolPathIsOneLine(p: Place)
    requires Legal(p) && p.Pool?
    ensures OneLine(PathOf(p)) && PathOf(p) != ""
  {
    var file := DebName(p.package, p.version, p.architecture);
    assert file[|file| - 1] == 'b' && NoChar(file, '\n');
    JoinEnds(Parts(p));
  }

  // ----- the paths, written out -----

  lemma JoinTwo(a: string, b: string)
    ensures Join([a, b], '/') == a + "/" + b
  {
    assert [a, b][1..] == [b];
    assert Join([b], '/') == b;
  }

  lemma JoinMore(a: string, rest: seq<string>)
    requires rest != []
    ensures Join([a] + rest, '/') == a + "/" + Join(rest, '/')
  {
    assert ([a] + rest)[1..] == rest;
  }

  lemma JoinFive(a: string, b: string, c: string, d: string, e: string)
    ensures Join([a, b, c, d, e], '/') == a + "/" + (b + "/" + (c + "/" + (d + "/" + e)))
  {
    assert [a] + [b, c, d, e] == [a, b, c, d, e] && [b] + [c, d, e] == [b, c, d, e] && [c] + [d, e] == [c, d, e];
    JoinMore(a, [b, c, d, e]);
    JoinMore(b, [c, d, e]);
    JoinMore(c, [d, e]);
    JoinTwo(d, e);
  }

  lemma PoolPathWith(component: string, letter: string, package: string, version: string, architecture: string)
    requires Legal(Pool(component, package, version, architecture)) && Letter(package) == [letter]
    ensures PathOf(Pool(component, package, version, architecture))
         == "pool" + "/" + (component + "/" + (letter + "/" + (package + "/"
            + (package + "_" + version + "_" + architecture + ".deb"))))
  {
    assert Parts(Pool(component, package, version, architecture))
        == ["pool", component, letter, package, DebName(package, version, architecture)];
    JoinFive("pool", component, letter, package, DebName(package, version, architecture));
  }

  /** A library goes under the four letters of its name. */
  lemma LibraryPath(component: string, package: string, version: string, architecture: string)
    requires Legal(Pool(component, package, version, architecture)) && "lib" < package
    ensures PathOf(Pool(component, package, version, architecture))
         == "pool" + "/" + (component + "/" + ("lib" + [package[3]] + "/" + (package + "/"
            + (package + "_" + version + "_" + architecture + ".deb"))))
  {
    assert package[..4] == package[..3] + [package[3]];
    PoolPathWith(component, "lib" + [package[3]], package, version, architecture);
  }

  /** Any other package goes under its first letter, lib itself too. */
  lemma PackagePath(component: string, package: string, version: string, architecture: string)
    requires Legal(Pool(component, package, version, architecture)) && !("lib" < package) && package[0] != '.'
    ensures PathOf(Pool(component, package, version, architecture))
         == "pool" + "/" + (component + "/" + ([package[0]] + "/" + (package + "/"
            + (package + "_" + version + "_" + architecture + ".deb"))))
  {
    assert package[..1] == [package[0]];
    PoolPathWith(component, [package[0]], package, version, architecture);
  }

  /** The four variants of an index, and the Release file. */
  lemma DistsPaths(codename: string, component: string, architecture: string)
    requires Legal(Index(codename, component, architecture, Plain))
    ensures var packages := "dists" + "/" + (codename + "/" + (component + "/" + ("binary-" + architecture + "/"
      + "Packages")));
      && PathOf(Index(codename, component, architecture, Plain)) == packages
      && PathOf(Index(codename, component, architecture, Gz)) == packages + ".gz"
      && PathOf(Index(codename, component, architecture, Bz2)) == packages + ".bz2"
      && PathOf(Index(codename, component, architecture, Xz)) == packages + ".xz"
      && PathOf(ReleaseFile(codename)) == "dists" + "/" + (codename + "/" + "Release")
  {
    var arch := "binary-" + architecture;
    forall ext ensures PathOf(Index(codename, component, architecture, ext))
                    == "dists" + "/" + (codename + "/" + (component + "/" + (arch + "/" + "Packages"))) + Suffix(ext)
    {
      JoinFive("dists", codename, component, arch, "Packages" + Suffix(ext));
      Behind(codename, component, arch, Suffix(ext));
    }
    assert ["dists"] + [codename, "Release"] == ["dists", codename, "Release"];
    JoinMore("dists", [codename, "Release"]);
    JoinTwo(codename, "Release");
  }

  lemma Behind(codename: string, component: string, arch: string, suffix: string)
    ensures "dists" + "/" + (codename + "/" + (component + "/" + (arch + "/" + ("Packages" + suffix))))
         == "dists" + "/" + (codename + "/" + (component + "/" + (arch + "/" + "Packages"))) + suffix
  {
  }
}
