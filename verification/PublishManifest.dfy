/** The Release file of a completed publish, as a reader finds it: the four variants of every
    architecture of the batch exactly once, sorted by path, with the sizes and hashes of the
    objects stored at those paths. */
module PublishManifest {
  import opened Text
  import opened Sorting
  import opened Deb822
  import R = Release
  import RR = ReleaseReading
  import W = Words
  import opened Paths
  import opened PublishProtocol
  import opened PublishProgress

  // ----- what is listed -----

  /** The checksum of a stored variant. */
  function Stored(t: Tools, job: Job, store: Store, arch: string, e: Ext): R.Checksum {
    ChecksumOf(t, job.component, arch, e, At(store, IndexPlace(job, arch, e)))
  }

  ghost predicate IsStored(t: Tools, job: Job, store: Store, order: seq<string>, k: nat, c: R.Checksum)
    requires k <= |order|
  {
    exists i, e :: 0 <= i < k && c == Stored(t, job, store, order[i], e)
  }

  lemma FourVariants(t: Tools, job: Job, store: Store, arch: string)
    ensures SumsOf(t, job, store, arch, 4)
         == [Stored(t, job, store, arch, Plain), Stored(t, job, store, arch, Gz), Stored(t, job, store, arch, Bz2),
             Stored(t, job, store, arch, Xz)]
  {
    assert SumsOf(t, job, store, arch, 1) == [Stored(t, job, store, arch, Plain)];
    assert SumsOf(t, job, store, arch, 2) == SumsOf(t, job, store, arch, 1) + [Stored(t, job, store, arch, Gz)];
    assert SumsOf(t, job, store, arch, 3) == SumsOf(t, job, store, arch, 2) + [Stored(t, job, store, arch, Bz2)];
  }

  /** Position j lists variant j % 4 of architecture j / 4. */
  function EntryAt(t: Tools, job: Job, store: Store, order: seq<string>, j: nat): R.Checksum
    requires j < 4 * |order|
  {
    Stored(t, job, store, order[j / 4], ExtAt(j % 4))
  }

  lemma LastFour(t: Tools, job: Job, store: Store, order: seq<string>, k: nat, j: nat)
    requires k < |order| && 4 * k <= j < 4 * k + 4
    ensures |SumsOf(t, job, store, order[k], 4)| == 4
    ensures EntryAt(t, job, store, order, j) == SumsOf(t, job, store, order[k], 4)[j - 4 * k]
  {
    FourVariants(t, job, store, order[k]);
    assert j / 4 == k && j % 4 == j - 4 * k;
  }

  lemma {:induction false} SumsPosition(t: Tools, job: Job, store: Store, order: seq<string>, k: nat)
    requires k <= |order|
    ensures |SumsFor(t, job, store, order, k)| == 4 * k
    ensures forall j :: 0 <= j < 4 * k ==> SumsFor(t, job, store, order, k)[j] == EntryAt(t, job, store, order, j)
  {
    if k > 0 {
      SumsPosition(t, job, store, order, k - 1);
      SumsNext(t, job, store, order, k - 1, SumsFor(t, job, store, order, k - 1));
    }
  }

  lemma SumsNext(t: Tools, job: Job, store: Store, order: seq<string>, k: nat, front: seq<R.Checksum>)
    requires k < |order| && |front| == 4 * k
    requires forall i :: 0 <= i < 4 * k ==> front[i] == EntryAt(t, job, store, order, i)
    ensures var sums := front + SumsOf(t, job, store, order[k], 4);
      |sums| == 4 * k + 4 && forall j :: 0 <= j < 4 * k + 4 ==> sums[j] == EntryAt(t, job, store, order, j)
  {
    FourVariants(t, job, store, order[k]);
    var sums := front + SumsOf(t, job, store, order[k], 4);
    forall j | 0 <= j < 4 * k + 4 ensures sums[j] == EntryAt(t, job, store, order, j) {
      PositionAt(t, job, store, order, k, front, j);
    }
  }

  lemma PositionAt(t: Tools, job: Job, store: Store, order: seq<string>, k: nat, front: seq<R.Checksum>, j: nat)
    requires k < |order| && |front| == 4 * k && j < 4 * k + 4
    requires forall i :: 0 <= i < 4 * k ==> front[i] == EntryAt(t, job, store, order, i)
    ensures |SumsOf(t, job, store, order[k], 4)| == 4
    ensures (front + SumsOf(t, job, store, order[k], 4))[j] == EntryAt(t, job, store, order, j)
  {
    FourVariants(t, job, store, order[k]);
    FrontOrBack(front, SumsOf(t, job, store, order[k], 4), j);
    if j >= 4 * k { LastFour(t, job, store, order, k, j); }
  }

  lemma FrontOrBack(front: seq<R.Checksum>, back: seq<R.Checksum>, j: nat)
    requires j < |front| + |back|
    ensures (front + back)[j] == if j < |front| then front[j] else back[j - |front|]
  {
  }

  lemma ExtNumbers(e: Ext, i: nat)
    ensures ExtAt(ExtNumber(e)) == e && (4 * i + ExtNumber(e)) / 4 == i && (4 * i + ExtNumber(e)) % 4 == ExtNumber(e)
  {
  }

  lemma SumsMember(t: Tools, job: Job, store: Store, order: seq<string>, c: R.Checksum)
    ensures c in SumsFor(t, job, store, order, |order|) <==> IsStored(t, job, store, order, |order|, c)
  {
    var sums := SumsFor(t, job, store, order, |order|);
    SumsPosition(t, job, store, order, |order|);
    if c in sums {
      var j :| 0 <= j < |sums| && sums[j] == c;
      assert c == Stored(t, job, store, order[j / 4], ExtAt(j % 4));
    }
    if IsStored(t, job, store, order, |order|, c) {
      var i, e :| 0 <= i < |order| && c == Stored(t, job, store, order[i], e);
      ExtNumbers(e, i);
      assert sums[4 * i + ExtNumber(e)] == EntryAt(t, job, store, order, 4 * i + ExtNumber(e));
    }
  }

  // ----- paths -----

  lemma RelPathIsTail(codename: string, component: string, arch: string, ext: Ext)
    requires Paths.Legal(Index(codename, component, arch, ext))
    ensures PathOf(Index(codename, component, arch, ext)) == "dists/" + codename + "/" + RelPath(component, arch, ext)
  {
    var parts := Parts(Index(codename, component, arch, ext));
    assert parts[1..][1..] == parts[2..];
    assert parts[2..][1..] == parts[3..];
    assert parts[3..][1..] == parts[4..];
    assert Join(parts[4..], '/') == parts[4];
    assert Join(parts[3..], '/') == parts[3] + "/" + parts[4];
    assert Join(parts[2..], '/') == RelPath(component, arch, ext);
    assert Join(parts[1..], '/') == codename + "/" + RelPath(component, arch, ext);
  }

  lemma RelPathsDiffer(codename: string, component: string, a: string, e: Ext, b: string, f: Ext)
    requires Paths.Legal(Index(codename, component, a, e)) && Paths.Legal(Index(codename, component, b, f))
    requires RelPath(component, a, e) == RelPath(component, b, f)
    ensures a == b && e == f
  {
    RelPathIsTail(codename, component, a, e);
    RelPathIsTail(codename, component, b, f);
    PathsDiffer(Index(codename, component, a, e), Index(codename, component, b, f));
  }

  lemma OrderIsLegal(job: Job, order: seq<string>, i: nat, e: Ext)
    requires GoodJob(job) && ArchOrder(job, order) && i < |order|
    ensures Paths.Legal(IndexPlace(job, order[i], e))
  {
    assert order[i] in order;
    var c :| c in job.batch && c.control.architecture == order[i];
    assert GoodCandidate(job.component, c);
  }

  lemma SumsDiffer(t: Tools, job: Job, store: Store, order: seq<string>, i: nat, j: nat)
    requires GoodJob(job) && ArchOrder(job, order) && i < j < 4 * |order|
    ensures |SumsFor(t, job, store, order, |order|)| == 4 * |order|
    ensures SumsFor(t, job, store, order, |order|)[i].path != SumsFor(t, job, store, order, |order|)[j].path
  {
    SumsPosition(t, job, store, order, |order|);
    OrderIsLegal(job, order, i / 4, ExtAt(i % 4));
    OrderIsLegal(job, order, j / 4, ExtAt(j % 4));
    if EntryAt(t, job, store, order, i).path == EntryAt(t, job, store, order, j).path {
      RelPathsDiffer(job.codename, job.component, order[i / 4], ExtAt(i % 4), order[j / 4], ExtAt(j % 4));
      SamePosition(order, i, j);
    }
  }

  lemma SamePosition(order: seq<string>, i: nat, j: nat)
    requires Distinct(order) && i < 4 * |order| && j < 4 * |order|
    requires order[i / 4] == order[j / 4] && ExtAt(i % 4) == ExtAt(j % 4)
    ensures i == j
  {
    assert i % 4 == j % 4;
    assert i / 4 == j / 4;
  }

  predicate StrictlyByPath(listed: seq<R.Checksum>) {
    forall i, j :: 0 <= i < j < |listed| ==> Compare(listed[i].path, listed[j].path) < 0
  }

  lemma ListedOnce(t: Tools, job: Job, store: Store, order: seq<string>, listed: seq<R.Checksum>)
    requires GoodJob(job) && ArchOrder(job, order)
    requires R.SortedIndices(listed, SumsFor(t, job, store, order, |order|))
    ensures |listed| == 4 * |order| && StrictlyByPath(listed)
    ensures forall c :: c in listed <==> IsStored(t, job, store, order, |order|, c)
  {
    var sums := SumsFor(t, job, store, order, |order|);
    SumsPosition(t, job, store, order, |order|);
    forall i, j | 0 <= i < j < |sums| ensures sums[i] != sums[j] { SumsDiffer(t, job, store, order, i, j); }
    PermutationIsDistinct(listed, sums);
    forall c ensures c in listed <==> IsStored(t, job, store, order, |order|, c) {
      SumsMember(t, job, store, order, c);
    }
    forall i, j | 0 <= i < j < |listed| ensures Compare(listed[i].path, listed[j].path) < 0 {
      assert R.ComparePaths(listed[i], listed[j]) <= 0;
      CompareLaws(listed[i].path, listed[j].path);
      DifferentPaths(t, job, store, order, listed[i], listed[j]);
    }
  }

  lemma DifferentPaths(t: Tools, job: Job, store: Store, order: seq<string>, x: R.Checksum, y: R.Checksum)
    requires GoodJob(job) && ArchOrder(job, order) && x != y
    requires x in SumsFor(t, job, store, order, |order|) && y in SumsFor(t, job, store, order, |order|)
    ensures x.path != y.path
  {
    var sums := SumsFor(t, job, store, order, |order|);
    var i: nat :| i < |sums| && sums[i] == x;
    var j: nat :| j < |sums| && sums[j] == y;
    DifferentPositions(t, job, store, order, if i < j then i else j, if i < j then j else i);
  }

  lemma DifferentPositions(t: Tools, job: Job, store: Store, order: seq<string>, i: nat, j: nat)
    requires GoodJob(job) && ArchOrder(job, order) && i < j < |SumsFor(t, job, store, order, |order|)|
    ensures SumsFor(t, job, store, order, |order|)[i].path != SumsFor(t, job, store, order, |order|)[j].path
  {
    SumsPosition(t, job, store, order, |order|);
    SumsDiffer(t, job, store, order, i, j);
  }

  // ----- as a reader finds it -----

  /** Configured texts fit on a line, and architectures are words. */
  ghost predicate PlainJob(job: Job) {
    && OneLine(job.config.origin) && OneLine(job.config.labelText) && OneLine(job.config.suite)
    && OneLine(job.config.description) && W.IsWord(job.component) && job.batch != []
    && (forall a :: HasArch(job, a) || a in job.config.architectures ==> W.IsWord(a))
  }

  lemma StoredIsPlain(t: Tools, job: Job, store: Store, order: seq<string>, c: R.Checksum)
    requires GoodTools(t) && GoodJob(job) && PlainJob(job) && ArchOrder(job, order)
    requires IsStored(t, job, store, order, |order|, c)
    ensures RR.PlainChecksum(c)
  {
    var i, e :| 0 <= i < |order| && c == Stored(t, job, store, order[i], e);
    assert order[i] in order;
    RelPathIsWord(job.component, order[i], e);
    HashesAreHex(t, job.component, order[i], e, At(store, IndexPlace(job, order[i], e)));
  }

  lemma HashesAreHex(t: Tools, component: string, arch: string, e: Ext, data: string)
    requires GoodTools(t)
    ensures forall sum :: IsHex(R.Hash(ChecksumOf(t, component, arch, e, data), sum))
  {
    forall sum ensures R.Hash(ChecksumOf(t, component, arch, e, data), sum) == t.hash(sum, data) { }
  }

  lemma RelPathIsWord(component: string, arch: string, e: Ext)
    requires W.IsWord(component) && W.IsWord(arch)
    ensures W.IsWord(RelPath(component, arch, e)) && RelPath(component, arch, e) != ""
  {
    assert W.IsWord("Packages" + Suffix(e)) && W.IsWord("binary-" + arch);
  }

  lemma ManifestIsPlain(t: Tools, job: Job, store: Store, order: seq<string>, archs: seq<string>, now: string)
    requires GoodTools(t) && GoodJob(job) && PlainJob(job) && ArchOrder(job, order) && ListedArchs(job, archs)
    requires OneLine(now)
    ensures RR.PlainManifest(ManifestOf(job, archs, SumsFor(t, job, store, order, |order|)), now)
  {
    var sums := SumsFor(t, job, store, order, |order|);
    SumsPosition(t, job, store, order, |order|);
    forall c | c in sums ensures RR.PlainChecksum(c) {
      SumsMember(t, job, store, order, c);
      StoredIsPlain(t, job, store, order, c);
    }
    assert HasArch(job, job.batch[0].control.architecture);
    assert job.batch[0].control.architecture in order;
  }

  /** The line names the object stored as this variant of an index: its hash, its size, its path. */
  ghost predicate Describes(t: Tools, job: Job, store: Store, line: string, sum: R.Sum, arch: string,
                            e: Ext, suffix: string) {
    Index(job.codename, job.component, arch, e) in store
    && var data := store[Index(job.codename, job.component, arch, e)];
       RR.LineNames(line, t.hash(sum, data), |data|, job.component + "/binary-" + arch + "/Packages" + suffix)
  }

  ghost predicate DescribesOne(t: Tools, job: Job, store: Store, order: seq<string>, line: string, sum: R.Sum) {
    exists arch :: arch in order && (
                     || Describes(t, job, store, line, sum, arch, Plain, "")
                     || Describes(t, job, store, line, sum, arch, Gz, ".gz")
                     || Describes(t, job, store, line, sum, arch, Bz2, ".bz2")
                     || Describes(t, job, store, line, sum, arch, Xz, ".xz"))
  }

  ghost predicate IsDescribed(t: Tools, job: Job, store: Store, lines: seq<string>, sum: R.Sum, arch: string, e: Ext,
                              suffix: string) {
    exists i :: 0 <= i < |lines| && Describes(t, job, store, lines[i], sum, arch, e, suffix)
  }

  ghost predicate FourDescribed(t: Tools, job: Job, store: Store, lines: seq<string>, sum: R.Sum, arch: string) {
    && IsDescribed(t, job, store, lines, sum, arch, Plain, "")
    && IsDescribed(t, job, store, lines, sum, arch, Gz, ".gz")
    && IsDescribed(t, job, store, lines, sum, arch, Bz2, ".bz2")
    && IsDescribed(t, job, store, lines, sum, arch, Xz, ".xz")
  }

  function PathIn(line: string): string {
    if |W.Fields(line)| == 3 then W.Fields(line)[2] else ""
  }

  /** The table of this name: a line for every variant of every index of the batch, and no other; in
      the order of the paths. */
  ghost predicate TableMatches(t: Tools, job: Job, store: Store, order: seq<string>, p: Para, name: string,
                               sum: R.Sum) {
    && name in p.fields
    && var lines := Split(p.fields[name], '\n');
       && |lines| == 4 * |order|
       && (forall i :: 0 <= i < |lines| ==> DescribesOne(t, job, store, order, lines[i], sum))
       && (forall arch :: arch in order ==> FourDescribed(t, job, store, lines, sum, arch))
       && (forall i, j :: 0 <= i < j < |lines| ==> Compare(PathIn(lines[i]), PathIn(lines[j])) < 0)
  }

  ghost predicate TablesMatch(t: Tools, job: Job, store: Store, order: seq<string>, p: Para) {
    && TableMatches(t, job, store, order, p, "MD5Sum", R.MD5)
    && TableMatches(t, job, store, order, p, "SHA1", R.SHA1)
    && TableMatches(t, job, store, order, p, "SHA256", R.SHA256)
    && TableMatches(t, job, store, order, p, "SHA512", R.SHA512)
  }

  /** The architectures of the batch and the configured ones, in one sorted line. */
  ghost predicate ArchsAre(job: Job, words: seq<string>) {
    && (forall w :: w in words <==> (HasArch(job, w) || w in job.config.architectures) && w != "")
    && (forall i, j :: 0 <= i < j < |words| ==> Compare(words[i], words[j]) < 0)
  }

  /** The texts of the Release file of a job: the configured ones, its codename, its component, the
      architectures, and a date. */
  ghost predicate HeaderMatches(job: Job, p: Para) {
    && Has(p, "Codename", job.codename) && "Date" in p.fields
    && HasUnlessEmpty(p, "Origin", job.config.origin) && HasUnlessEmpty(p, "Label", job.config.labelText)
    && HasUnlessEmpty(p, "Suite", job.config.suite) && HasUnlessEmpty(p, "Description", job.config.description)
    && "Valid-Until" !in p.fields
    && "Components" in p.fields && W.Fields(p.fields["Components"]) == [job.component]
    && "Architectures" in p.fields && ArchsAre(job, W.Fields(p.fields["Architectures"]))
  }

  lemma LineDescribes(t: Tools, job: Job, store: Store, arch: string, e: Ext, line: string, sum: R.Sum)
    requires IndexPlace(job, arch, e) in store
    requires var c := Stored(t, job, store, arch, e); RR.LineNames(line, R.Hash(c, sum), c.size, c.path)
    ensures Describes(t, job, store, line, sum, arch, e, Suffix(e))
  {
    assert job.component + "/binary-" + arch + "/Packages" + Suffix(e) == RelPath(job.component, arch, e);
  }

  ghost predicate AllStored(job: Job, store: Store, order: seq<string>) {
    forall i, e :: 0 <= i < |order| ==> IndexPlace(job, order[i], e) in store
  }

  lemma LineDescribesOne(t: Tools, job: Job, store: Store, order: seq<string>, line: string, c: R.Checksum,
                         sum: R.Sum)
    requires IsStored(t, job, store, order, |order|, c)
    requires AllStored(job, store, order) && RR.LineNames(line, R.Hash(c, sum), c.size, c.path)
    ensures DescribesOne(t, job, store, order, line, sum)
  {
    var i, e :| 0 <= i < |order| && c == Stored(t, job, store, order[i], e);
    LineDescribes(t, job, store, order[i], e, line, sum);
  }

  /** The lines of a table name what is listed. */
  ghost predicate LinesName(lines: seq<string>, listed: seq<R.Checksum>, sum: R.Sum) {
    |lines| == |listed| && forall i :: 0 <= i < |lines| ==> LineIs(lines[i], listed[i], sum)
  }

  predicate LineIs(line: string, c: R.Checksum, sum: R.Sum) {
    RR.LineNames(line, R.Hash(c, sum), c.size, c.path)
  }

  lemma VariantIsDescribed(t: Tools, job: Job, store: Store, order: seq<string>, lines: seq<string>,
                           listed: seq<R.Checksum>, sum: R.Sum, arch: string, e: Ext)
    requires arch in order && LinesName(lines, listed, sum)
    requires AllStored(job, store, order) && Stored(t, job, store, arch, e) in listed
    ensures IsDescribed(t, job, store, lines, sum, arch, e, Suffix(e))
  {
    var i :| 0 <= i < |listed| && listed[i] == Stored(t, job, store, arch, e);
    assert LineIs(lines[i], listed[i], sum);
    LineDescribes(t, job, store, arch, e, lines[i], sum);
  }

  lemma VariantIsListed(t: Tools, job: Job, store: Store, order: seq<string>, listed: seq<R.Checksum>, arch: string,
                        e: Ext)
    requires arch in order && forall c :: c in listed <==> IsStored(t, job, store, order, |order|, c)
    ensures Stored(t, job, store, arch, e) in listed
  {
    var k :| 0 <= k < |order| && order[k] == arch;
    assert IsStored(t, job, store, order, |order|, Stored(t, job, store, order[k], e));
  }

  lemma ArchIsDescribed(t: Tools, job: Job, store: Store, order: seq<string>, lines: seq<string>,
                        listed: seq<R.Checksum>, sum: R.Sum, arch: string)
    requires arch in order && LinesName(lines, listed, sum)
    requires AllStored(job, store, order) && forall c :: c in listed <==> IsStored(t, job, store, order, |order|, c)
    ensures FourDescribed(t, job, store, lines, sum, arch)
  {
    forall e ensures IsDescribed(t, job, store, lines, sum, arch, e, Suffix(e)) {
      VariantIsListed(t, job, store, order, listed, arch, e);
      VariantIsDescribed(t, job, store, order, lines, listed, sum, arch, e);
    }
    assert IsDescribed(t, job, store, lines, sum, arch, Plain, Suffix(Plain));
    assert IsDescribed(t, job, store, lines, sum, arch, Gz, Suffix(Gz));
    assert IsDescribed(t, job, store, lines, sum, arch, Bz2, Suffix(Bz2));
    assert IsDescribed(t, job, store, lines, sum, arch, Xz, Suffix(Xz));
  }

  lemma LinesInOrder(lines: seq<string>, listed: seq<R.Checksum>, sum: R.Sum)
    requires LinesName(lines, listed, sum) && StrictlyByPath(listed)
    ensures forall i, j :: 0 <= i < j < |lines| ==> Compare(PathIn(lines[i]), PathIn(lines[j])) < 0
  {
    forall i | 0 <= i < |lines| ensures PathIn(lines[i]) == listed[i].path {
      assert LineIs(lines[i], listed[i], sum);
    }
  }

  lemma TableIsMatched(t: Tools, job: Job, store: Store, order: seq<string>, listed: seq<R.Checksum>, p: Para,
                       name: string, sum: R.Sum)
    requires |listed| == 4 * |order| && StrictlyByPath(listed) && AllStored(job, store, order)
    requires forall c :: c in listed <==> IsStored(t, job, store, order, |order|, c)
    requires name in p.fields && LinesName(Split(p.fields[name], '\n'), listed, sum)
    ensures TableMatches(t, job, store, order, p, name, sum)
  {
    var lines := Split(p.fields[name], '\n');
    forall i | 0 <= i < |lines| ensures DescribesOne(t, job, store, order, lines[i], sum) {
      assert LineIs(lines[i], listed[i], sum);
      assert listed[i] in listed;
      LineDescribesOne(t, job, store, order, lines[i], listed[i], sum);
    }
    forall arch | arch in order ensures FourDescribed(t, job, store, lines, sum, arch) {
      ArchIsDescribed(t, job, store, order, lines, listed, sum, arch);
    }
    LinesInOrder(lines, listed, sum);
  }

  lemma TablesNameListed(p: Para, listed: seq<R.Checksum>)
    requires RR.HasTables(p, listed)
    ensures LinesName(Split(p.fields["MD5Sum"], '\n'), listed, R.MD5)
    ensures LinesName(Split(p.fields["SHA1"], '\n'), listed, R.SHA1)
    ensures LinesName(Split(p.fields["SHA256"], '\n'), listed, R.SHA256)
    ensures LinesName(Split(p.fields["SHA512"], '\n'), listed, R.SHA512)
  {
    forall i | 0 <= i < |listed|
      ensures LineIs(Split(p.fields["MD5Sum"], '\n')[i], listed[i], R.MD5)
      ensures LineIs(Split(p.fields["SHA1"], '\n')[i], listed[i], R.SHA1)
      ensures LineIs(Split(p.fields["SHA256"], '\n')[i], listed[i], R.SHA256)
      ensures LineIs(Split(p.fields["SHA512"], '\n')[i], listed[i], R.SHA512)
    {
      assert RR.HasRows(p, i, listed[i]);
    }
  }

  lemma TablesAreMatched(t: Tools, job: Job, store: Store, order: seq<string>, listed: seq<R.Checksum>, p: Para)
    requires |listed| == 4 * |order| && StrictlyByPath(listed) && AllStored(job, store, order)
    requires forall c :: c in listed <==> IsStored(t, job, store, order, |order|, c)
    requires RR.HasTables(p, listed)
    ensures TablesMatch(t, job, store, order, p)
  {
    TablesNameListed(p, listed);
    TableIsMatched(t, job, store, order, listed, p, "MD5Sum", R.MD5);
    TableIsMatched(t, job, store, order, listed, p, "SHA1", R.SHA1);
    TableIsMatched(t, job, store, order, listed, p, "SHA256", R.SHA256);
    TableIsMatched(t, job, store, order, listed, p, "SHA512", R.SHA512);
  }

  lemma HeaderIsMatched(job: Job, archs: seq<string>, sums: seq<R.Checksum>, now: string, p: Para)
    requires GoodJob(job) && PlainJob(job) && ListedArchs(job, archs)
    requires RR.HasHeader(p, ManifestOf(job, archs, sums), now)
    ensures HeaderMatches(job, p)
  {
    assert HasArch(job, job.batch[0].control.architecture);
    OnlyWord(W.Fields(p.fields["Components"]), job.component);
  }

  lemma OnlyWord(words: seq<string>, w: string)
    requires w != "" && R.IsSortedSetOf(words, [w])
    ensures words == [w]
  {
    R.SortedSetIsUnique(words, [w], [w]);
  }

  lemma ReleasedMatches(t: Tools, job: Job, store: Store, order: seq<string>, archs: seq<string>, now: string,
                        listed: seq<R.Checksum>, text: string)
    returns (p: Para)
    requires GoodTools(t) && GoodJob(job) && PlainJob(job) && ArchOrder(job, order) && ListedArchs(job, archs)
    requires OneLine(now) && AllStored(job, store, order)
    requires R.IsRelease(ManifestOf(job, archs, SumsFor(t, job, store, order, |order|)), now, listed, text)
    ensures ParseText(text) == [p] && HeaderMatches(job, p) && TablesMatch(t, job, store, order, p)
  {
    ManifestIsPlain(t, job, store, order, archs, now);
    p := RR.ReleaseReadBack(ManifestOf(job, archs, SumsFor(t, job, store, order, |order|)), now, listed, text);
    ListedOnce(t, job, store, order, listed);
    HeaderIsMatched(job, archs, SumsFor(t, job, store, order, |order|), now, p);
    TablesAreMatched(t, job, store, order, listed, p);
  }

  /** What a reader of the Release file of a job finds: its configured texts, and in four tables the
      four variants of every architecture of the batch exactly once, sorted by path, each with the
      size and the hash of the object stored at its path. */
  ghost predicate ListsStore(t: Tools, job: Job, store: Store, order: seq<string>, p: Para) {
    && ArchOrder(job, order) && ReleaseFile(job.codename) in store
    && ParseText(store[ReleaseFile(job.codename)]) == [p]
    && HeaderMatches(job, p) && TablesMatch(t, job, store, order, p)
  }

  lemma CompletedLists(t: Tools, start: Base, job: Job, store: Store, order: seq<string>) returns (p: Para)
    requires GoodTools(t) && GoodJob(job) && PlainJob(job) && Completed(t, start, job, store, order)
    ensures ListsStore(t, job, store, order, p)
  {
    var archs, now, listed :|
      && ListedArchs(job, archs) && OneLine(now)
      && R.IsRelease(ManifestOf(job, archs, SumsFor(t, job, store, order, |order|)), now, listed,
                     At(store, ReleaseFile(job.codename)));
    forall i, e | 0 <= i < |order| ensures IndexPlace(job, order[i], e) in store {
      StoredAfter(t, start, job, store, order, i, e);
    }
    p := ReleasedMatches(t, job, store, order, archs, now, listed, At(store, ReleaseFile(job.codename)));
  }

  lemma StoredAfter(t: Tools, start: Base, job: Job, store: Store, order: seq<string>, i: nat, e: Ext)
    requires GoodJob(job) && Progress(t, start, job, store, order, |order|, 0) && i < |order|
    ensures IndexPlace(job, order[i], e) in store
  {
    assert order[..|order|] == order;
    assert Done(order, |order|, 0, order[i], e);
    assert PlaceProgress(t, start, job, store, order, |order|, 0, IndexPlace(job, order[i], e));
  }
}
