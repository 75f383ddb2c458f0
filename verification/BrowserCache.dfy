/** The browser's cache of indexes: where a stanza is filed, what a series of ingested indexes
    leaves, and what does not depend on how many copies are read. */
module BrowserCache {
  import opened Text
  import opened Stanzas
  import opened PackageIndex

  // ----- where a stanza is filed -----

  predicate HasPrefix(s: string, p: string) { p <= s }

  function TrimPrefix(s: string, p: string): string {
    if p <= s then s[|p|..] else s
  }

  const BINARY: string := "binary-"

  /** The architecture named by the first directory binary-<arch>. */
  function BinaryArch(parts: seq<string>): string {
    if parts == [] then ""
    else if HasPrefix(parts[0], BINARY) then TrimPrefix(parts[0], BINARY)
    else BinaryArch(parts[1..])
  }

  function OrElse(s: string, other: string): string {
    if s == "" then other else s
  }

  function ArchFor(path: string, s: Stanza): string {
    OrElse(OrElse(s.control.architecture, BinaryArch(Split(path, '/'))), "all")
  }

  /** The directory of a codename; without one it is that of all codenames. */
  function DistsDir(codename: string): string {
    if codename == "" then "dists/" else "dists/" + codename + "/"
  }

  /** The component directory under the codename, in a hierarchical layout. */
  function DirComponent(codename: string, path: string): string {
    var parts := Split(TrimPrefix(path, DistsDir(codename)), '/');
    if |parts| >= 2 && !HasPrefix(parts[0], BINARY) && !HasPrefix(parts[0], "Packages") then parts[0] else ""
  }

  /** The component a stanza tells by its Filename or its Section. */
  function StanzaComponent(s: Stanza): string {
    if HasPrefix(s.filename, "pool/") then
      var parts := Split(TrimPrefix(s.filename, "pool/"), '/');
      if |parts| > 1 then parts[0] else ""
    else if !NoChar(s.control.section, '/') then Split(s.control.section, '/')[0]
    else ""
  }

  function ComponentFor(codename: string, path: string, s: Stanza, default: string): string {
    OrElse(OrElse(DirComponent(codename, path), StanzaComponent(s)), default)
  }

  function KeyFor(codename: string, path: string, s: Stanza, default: string): string {
    codename + "/" + ComponentFor(codename, path, s, default) + "/" + ArchFor(path, s)
  }

  // ----- ingesting -----

  type Cache = map<string, seq<Stanza>>

  function IndexAt(cache: Cache, key: string): seq<Stanza> {
    if key in cache then cache[key] else []
  }

  function IngestOne(cache: Cache, codename: string, path: string, s: Stanza, default: string): Cache {
    var key := KeyFor(codename, path, s, default);
    cache[key := Upsert(IndexAt(cache, key), s)]
  }

  function Ingest(cache: Cache, codename: string, path: string, stanzas: seq<Stanza>, default: string): Cache
    decreases |stanzas|
  {
    if stanzas == [] then cache
    else Ingest(IngestOne(cache, codename, path, stanzas[0], default), codename, path, stanzas[1..], default)
  }

  /** One index file met by a sync. */
  datatype File = File(codename: string, path: string, stanzas: seq<Stanza>, default: string)

  function IngestAll(cache: Cache, files: seq<File>): Cache
    decreases |files|
  {
    if files == [] then cache
    else IngestAll(Ingest(cache, files[0].codename, files[0].path, files[0].stanzas, files[0].default), files[1..])
  }

  // ----- what every sync keeps -----

  predicate EndsWith(s: string, tail: string) {
    |tail| <= |s| && s[|s| - |tail|..] == tail
  }

  /** A stanza with an architecture is filed under a key of that architecture. */
  predicate Filed(key: string, s: Stanza) {
    s.control.architecture != "" ==> EndsWith(key, "/" + s.control.architecture)
  }

  predicate GoodIndex(key: string, idx: seq<Stanza>) {
    UniqueKeys(idx) && forall s :: s in idx ==> Filed(key, s)
  }

  predicate GoodCache(cache: Cache) {
    forall key :: key in cache ==> GoodIndex(key, cache[key])
  }

  lemma KeyIsFiled(codename: string, path: string, s: Stanza, default: string)
    ensures Filed(KeyFor(codename, path, s, default), s)
  {
    if s.control.architecture != "" {
      var key := KeyFor(codename, path, s, default);
      var tail := "/" + s.control.architecture;
      assert key == codename + "/" + ComponentFor(codename, path, s, default) + tail;
    }
  }

  lemma UpsertMembers(idx: seq<Stanza>, s: Stanza)
    ensures forall x :: x in Upsert(idx, s) ==> x in idx || x == s
  {
  }

  lemma IngestOneKeeps(cache: Cache, codename: string, path: string, s: Stanza, default: string)
    requires GoodCache(cache)
    ensures GoodCache(IngestOne(cache, codename, path, s, default))
  {
    var key := KeyFor(codename, path, s, default);
    KeyIsFiled(codename, path, s, default);
    UpsertKeys(IndexAt(cache, key), s);
    UpsertMembers(IndexAt(cache, key), s);
    assert GoodIndex(key, IndexAt(cache, key));
  }

  lemma {:induction false} IngestKeeps(cache: Cache, codename: string, path: string, stanzas: seq<Stanza>,
                                       default: string)
    requires GoodCache(cache)
    ensures GoodCache(Ingest(cache, codename, path, stanzas, default))
    decreases |stanzas|
  {
    if stanzas != [] {
      IngestOneKeeps(cache, codename, path, stanzas[0], default);
      IngestKeeps(IngestOne(cache, codename, path, stanzas[0], default), codename, path, stanzas[1..], default);
    }
  }

  /** Over every sequence of syncs: unique keys, and every stanza under its own architecture. */
  lemma {:induction false} SyncsKeep(cache: Cache, files: seq<File>)
    requires GoodCache(cache)
    ensures GoodCache(IngestAll(cache, files))
    decreases |files|
  {
    if files != [] {
      IngestKeeps(cache, files[0].codename, files[0].path, files[0].stanzas, files[0].default);
      SyncsKeep(Ingest(cache, files[0].codename, files[0].path, files[0].stanzas, files[0].default), files[1..]);
    }
  }

  // ----- ingesting as keyed updates -----

  /** The stanzas of a file that go to one key. */
  function ForKey(codename: string, path: string, stanzas: seq<Stanza>, default: string, key: string): seq<Stanza> {
    if stanzas == [] then []
    else (if KeyFor(codename, path, stanzas[0], default) == key then [stanzas[0]] else [])
         + ForKey(codename, path, stanzas[1..], default, key)
  }

  lemma ConsRest(s: Stanza, rest: seq<Stanza>)
    ensures ([s] + rest)[0] == s && ([s] + rest)[1..] == rest && [] + rest == rest
  {
  }

  /** Ingesting a file is, key by key, a series of updates of one index. */
  lemma {:induction false} IngestIsAddAll(cache: Cache, codename: string, path: string, stanzas: seq<Stanza>,
                                          default: string, key: string)
    ensures var r := Ingest(cache, codename, path, stanzas, default);
            var mine := ForKey(codename, path, stanzas, default, key);
      && IndexAt(r, key) == AddAll(IndexAt(cache, key), mine, true)
      && (key in r <==> key in cache || mine != [])
    decreases |stanzas|
  {
    if stanzas != [] {
      IngestIsAddAll(IngestOne(cache, codename, path, stanzas[0], default), codename, path, stanzas[1..], default, key);
      ConsRest(stanzas[0], ForKey(codename, path, stanzas[1..], default, key));
    }
  }

  lemma SameCache(a: Cache, b: Cache)
    requires forall key :: (key in a <==> key in b) && IndexAt(a, key) == IndexAt(b, key)
    ensures a == b
  {
    forall key | key in a ensures a[key] == b[key] { assert IndexAt(a, key) == IndexAt(b, key); }
  }

  lemma {:induction false} SameForKey(codename: string, path: string, path': string, stanzas: seq<Stanza>,
                                      default: string, key: string)
    requires forall s :: s in stanzas ==> KeyFor(codename, path', s, default) == KeyFor(codename, path, s, default)
    ensures ForKey(codename, path', stanzas, default, key) == ForKey(codename, path, stanzas, default, key)
  {
    if stanzas != [] {
      assert stanzas == [stanzas[0]] + stanzas[1..];
      SameForKey(codename, path, path', stanzas[1..], default, key);
    }
  }

  /** A second copy of a file, filed the same way, changes nothing. */
  lemma SecondCopy(cache: Cache, codename: string, path: string, path': string, stanzas: seq<Stanza>, default: string)
    requires forall s :: s in stanzas ==> KeyFor(codename, path', s, default) == KeyFor(codename, path, s, default)
    ensures var once := Ingest(cache, codename, path, stanzas, default);
      Ingest(once, codename, path', stanzas, default) == once
  {
    var once := Ingest(cache, codename, path, stanzas, default);
    var twice := Ingest(once, codename, path', stanzas, default);
    forall key ensures (key in twice <==> key in once) && IndexAt(twice, key) == IndexAt(once, key) {
      SameForKey(codename, path, path', stanzas, default, key);
      IngestIsAddAll(cache, codename, path, stanzas, default, key);
      IngestIsAddAll(once, codename, path', stanzas, default, key);
      Replay(IndexAt(cache, key), ForKey(codename, path, stanzas, default, key));
    }
    SameCache(twice, once);
  }

  // ----- the variants of one index are filed the same way -----

  /** The file name of a variant: Packages, Packages.gz and so on. */
  predicate VariantName(file: string) {
    HasPrefix(file, "Packages") && NoChar(file, '/')
  }

  lemma PathParts(dir: string, file: string)
    requires VariantName(file)
    ensures Split(dir + "/" + file, '/') == Split(dir, '/') + [file]
  {
    SplitSep(dir, file, '/');
    SplitNone(file, '/');
  }

  lemma {:induction false} ArchOfDir(parts: seq<string>, file: string)
    requires VariantName(file)
    ensures BinaryArch(parts + [file]) == BinaryArch(parts)
  {
    if parts == [] {
      assert [] + [file] == [file];
      assert !HasPrefix(file, BINARY) by { assert file[0] == 'P'; }
    } else {
      assert (parts + [file])[1..] == parts[1..] + [file];
      ArchOfDir(parts[1..], file);
    }
  }

  /** Stripping dists/<codename>/ never reaches into the file name. */
  lemma StripDir(dir: string, file: string, prefix: string) returns (rest: string)
    requires VariantName(file) && prefix != "" && prefix[|prefix| - 1] == '/'
    ensures rest == "" || EndsWith(rest, "/")
    ensures TrimPrefix(dir + "/" + file, prefix) == rest + file
    ensures HasPrefix(dir + "/", prefix) ==> rest == (dir + "/")[|prefix|..]
    ensures !HasPrefix(dir + "/", prefix) ==> rest == dir + "/"
  {
    var front, path := dir + "/", dir + "/" + file;
    assert path == front + file;
    assert forall i :: |front| <= i < |path| ==> path[i] == file[i - |front|];
    assert HasPrefix(path, prefix) ==> path[|prefix| - 1] == '/';
    assert HasPrefix(path, prefix) ==> |prefix| <= |front| && path[..|prefix|] == front[..|prefix|];
    if HasPrefix(front, prefix) {
      rest := front[|prefix|..];
      assert HasPrefix(path, prefix) && path[|prefix|..] == rest + file;
    } else {
      rest := front;
    }
  }

  lemma DirOfVariant(codename: string, dir: string, file: string, file': string)
    requires VariantName(file) && VariantName(file')
    ensures DirComponent(codename, dir + "/" + file) == DirComponent(codename, dir + "/" + file')
  {
    var prefix := DistsDir(codename);
    var rest := StripDir(dir, file, prefix);
    var rest' := StripDir(dir, file', prefix);
    assert rest == rest';
    if rest == "" {
      assert rest + file == file && rest + file' == file';
      SplitNone(file, '/');
      SplitNone(file', '/');
    } else {
      var base := rest[..|rest| - 1];
      assert rest == base + "/";
      PathParts(base, file);
      PathParts(base, file');
    }
  }

  lemma VariantsFiledAlike(codename: string, dir: string, file: string, file': string, s: Stanza, default: string)
    requires VariantName(file) && VariantName(file')
    ensures KeyFor(codename, dir + "/" + file, s, default) == KeyFor(codename, dir + "/" + file', s, default)
  {
    PathParts(dir, file);
    PathParts(dir, file');
    ArchOfDir(Split(dir, '/'), file);
    ArchOfDir(Split(dir, '/'), file');
    DirOfVariant(codename, dir, file, file');
  }

  lemma AnotherVariant(cache: Cache, codename: string, dir: string, base: string, file: string, stanzas: seq<Stanza>,
                       default: string)
    requires VariantName(base) && VariantName(file)
    ensures var one := Ingest(cache, codename, dir + "/" + base, stanzas, default);
      Ingest(one, codename, dir + "/" + file, stanzas, default) == one
  {
    forall s | s in stanzas
      ensures KeyFor(codename, dir + "/" + file, s, default) == KeyFor(codename, dir + "/" + base, s, default)
    {
      VariantsFiledAlike(codename, dir, file, base, s, default);
    }
    SecondCopy(cache, codename, dir + "/" + base, dir + "/" + file, stanzas, default);
  }

  /** Copies of one index under the names of its variants. */
  function Copies(codename: string, dir: string, names: seq<string>, stanzas: seq<Stanza>, default: string): seq<File> {
    if names == [] then []
    else [File(codename, dir + "/" + names[0], stanzas, default)] + Copies(codename, dir, names[1..], stanzas, default)
  }

  lemma {:induction false} MoreCopies(cache: Cache, codename: string, dir: string, base: string, names: seq<string>,
                                      stanzas: seq<Stanza>, default: string)
    requires VariantName(base) && forall i :: 0 <= i < |names| ==> VariantName(names[i])
    ensures var one := Ingest(cache, codename, dir + "/" + base, stanzas, default);
      IngestAll(one, Copies(codename, dir, names, stanzas, default)) == one
    decreases |names|
  {
    if names != [] {
      AnotherVariant(cache, codename, dir, base, names[0], stanzas, default);
      MoreCopies(cache, codename, dir, base, names[1..], stanzas, default);
      var first, rest := File(codename, dir + "/" + names[0], stanzas, default),
        Copies(codename, dir, names[1..], stanzas, default);
      assert ([first] + rest)[1..] == rest;
    }
  }

  /** The copies of one index, plain, gz, xz and bz2 in any order, leave the cache that the first
      one alone leaves. */
  lemma CopiesAreOne(cache: Cache, codename: string, dir: string, base: string, names: seq<string>,
                     stanzas: seq<Stanza>, default: string)
    requires VariantName(base) && forall i :: 0 <= i < |names| ==> VariantName(names[i])
    ensures IngestAll(cache, [File(codename, dir + "/" + base, stanzas, default)]
                      + Copies(codename, dir, names, stanzas, default))
         == Ingest(cache, codename, dir + "/" + base, stanzas, default)
  {
    var first, rest := File(codename, dir + "/" + base, stanzas, default),
      Copies(codename, dir, names, stanzas, default);
    assert ([first] + rest)[1..] == rest;
    MoreCopies(cache, codename, dir, base, names, stanzas, default);
  }
}
