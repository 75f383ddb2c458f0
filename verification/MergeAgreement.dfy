/** Merging a batch whose files have just been uploaded keeps every stanza in agreement with the
    file it names, even when the batch holds several files for one key: uploads and merges follow
    the same order, so the last file wins in both. */
module MergeAgreement {
  import opened Text
  import opened Sorting
  import opened Deb822
  import opened Stanzas
  import opened StanzaRoundTrip
  import opened PackageIndex
  import opened IndexRoundTrip
  import opened IndexSurvival
  import opened Release
  import opened Paths
  import opened PublishProtocol
  import opened PublishIntegrity

  // ----- agreement -----

  predicate Describes(t: Tools, s: Stanza, path: string, bytes: string) {
    && s.filename == path && s.size == |bytes|
    && s.sha256 == t.hash(Sum.SHA256, bytes) && s.sha512 == t.hash(Sum.SHA512, bytes)
    && s.sha1 == t.hash(Sum.SHA1, bytes) && s.md5sum == t.hash(Sum.MD5, bytes)
  }

  /** The stanza is filed under its architecture, and describes the stored file of its own name. */
  predicate Agrees(t: Tools, store: Store, component: string, arch: string, s: Stanza) {
    var p := PoolPlace(component, s.control);
    && s.control.architecture == arch && Paths.Legal(p)
    && p in store && IsInt64(|store[p]|) && Describes(t, s, PathOf(p), store[p])
  }

  predicate IndexAgrees(t: Tools, store: Store, component: string, arch: string, idx: seq<Stanza>) {
    UniqueKeys(idx) && forall i :: 0 <= i < |idx| ==> Agrees(t, store, component, arch, idx[i])
  }

  /** Whatever a reader makes of the text agrees with the stored files. */
  ghost predicate TextAgrees(t: Tools, store: Store, component: string, arch: string, text: string) {
    forall idx :: CanParseIndex(text, idx) ==> IndexAgrees(t, store, component, arch, idx)
  }

  // ----- uploads -----

  /** The store after the first n uploads of a job. */
  ghost function Uploads(store: Store, job: Job, n: nat): Store
    requires n <= |job.batch|
  {
    if n == 0 then store
    else Uploads(store, job, n - 1)[PoolPlace(job.component, job.batch[n - 1].control) := job.batch[n - 1].bytes]
  }

  predicate SameAt(store: Store, store': Store, p: Place) {
    (p in store <==> p in store') && (p in store ==> store'[p] == store[p])
  }

  lemma {:induction false} UploadsElsewhere(store: Store, job: Job, n: nat, p: Place)
    requires n <= |job.batch|
    requires forall i :: 0 <= i < n ==> PoolPlace(job.component, job.batch[i].control) != p
    ensures SameAt(store, Uploads(store, job, n), p)
  {
    if n > 0 { UploadsElsewhere(store, job, n - 1, p); }
  }

  lemma LastWithSnoc(xs: seq<Stanza>, x: Stanza, k: PackageIndex.Key)
    ensures LastWith(xs + [x], k) == if KeyOf(x) == k then Some(x) else LastWith(xs, k)
  {
    assert (xs + [x])[..|xs|] == xs;
  }

  lemma CandidateDescribed(t: Tools, store: Store, component: string, c: Candidate)
    requires GoodCandidate(component, c)
    requires PoolPlace(component, c.control) in store && store[PoolPlace(component, c.control)] == c.bytes
    ensures Agrees(t, store, component, c.control.architecture, StanzaOf(t, component, c))
  {
  }

  lemma AgreesFrame(t: Tools, store: Store, store': Store, component: string, arch: string, s: Stanza)
    requires SameAt(store, store', PoolPlace(component, s.control))
    ensures Agrees(t, store, component, arch, s) <==> Agrees(t, store', component, arch, s)
  {
  }

  function PlaceOfKey(component: string, k: PackageIndex.Key): Place {
    Pool(component, k.package, k.version, k.architecture)
  }

  /** What the first n uploads and the first n files of the group say about the key k. */
  ghost predicate KeyMatches(t: Tools, store: Store, job: Job, arch: string, n: nat, k: PackageIndex.Key)
    requires GoodJob(job) && n <= |job.batch|
  {
    match LastWith(GroupOf(t, job, arch, n), k)
    case None => SameAt(store, Uploads(store, job, n), PlaceOfKey(job.component, k))
    case Some(s) => Agrees(t, Uploads(store, job, n), job.component, arch, s)
  }

  lemma OtherUpload(t: Tools, store: Store, job: Job, arch: string, n: nat, k: PackageIndex.Key)
    requires GoodJob(job) && 0 < n <= |job.batch| && KeyMatches(t, store, job, arch, n - 1, k)
    requires PoolPlace(job.component, job.batch[n - 1].control) != PlaceOfKey(job.component, k)
    requires LastWith(GroupOf(t, job, arch, n), k) == LastWith(GroupOf(t, job, arch, n - 1), k)
    ensures KeyMatches(t, store, job, arch, n, k)
  {
    match LastWith(GroupOf(t, job, arch, n), k)
    case None =>
    case Some(s) => AgreesFrame(t, Uploads(store, job, n - 1), Uploads(store, job, n), job.component, arch, s);
  }

  lemma OwnUpload(t: Tools, store: Store, job: Job, arch: string, n: nat, k: PackageIndex.Key)
    requires GoodJob(job) && 0 < n <= |job.batch| && GoodCandidate(job.component, job.batch[n - 1])
    requires PoolPlace(job.component, job.batch[n - 1].control) == PlaceOfKey(job.component, k)
    requires k.architecture == arch
    requires LastWith(GroupOf(t, job, arch, n), k) == Some(StanzaOf(t, job.component, job.batch[n - 1]))
    ensures KeyMatches(t, store, job, arch, n, k)
  {
    CandidateDescribed(t, Uploads(store, job, n), job.component, job.batch[n - 1]);
  }

  lemma GroupStep(t: Tools, job: Job, arch: string, n: nat, k: PackageIndex.Key)
    requires GoodJob(job) && 0 < n <= |job.batch| && k.architecture == arch
    ensures GoodCandidate(job.component, job.batch[n - 1])
    ensures LastWith(GroupOf(t, job, arch, n), k)
         == if PoolPlace(job.component, job.batch[n - 1].control) == PlaceOfKey(job.component, k)
            then Some(StanzaOf(t, job.component, job.batch[n - 1])) else LastWith(GroupOf(t, job, arch, n - 1), k)
  {
    var c := job.batch[n - 1];
    assert c in job.batch;
    LastWithSnoc(GroupOf(t, job, arch, n - 1), StanzaOf(t, job.component, c), k);
    if c.control.architecture != arch { assert GroupOf(t, job, arch, n) == GroupOf(t, job, arch, n - 1); }
  }

  /** The last stanza of a key in the group describes what the uploads leave at its place. */
  lemma {:induction false} UploadsMatchGroup(t: Tools, store: Store, job: Job, arch: string, n: nat,
                                             k: PackageIndex.Key)
    requires GoodJob(job) && n <= |job.batch| && k.architecture == arch
    ensures MatchesUpTo(t, store, job, arch, n, k)
  {
    if n == 0 {
      NothingUploaded(t, store, job, arch, k);
    } else {
      UploadsMatchGroup(t, store, job, arch, n - 1, k);
      UploadMatches(t, store, job, arch, n, k);
    }
  }

  ghost predicate MatchesUpTo(t: Tools, store: Store, job: Job, arch: string, n: nat, k: PackageIndex.Key)
    requires GoodJob(job) && n <= |job.batch|
  {
    forall m: nat :: m <= n ==> KeyMatches(t, store, job, arch, m, k)
  }

  lemma AllUploadsMatch(t: Tools, store: Store, job: Job, arch: string, k: PackageIndex.Key)
    requires GoodJob(job) && k.architecture == arch
    ensures KeyMatches(t, store, job, arch, |job.batch|, k)
  {
    UploadsMatchGroup(t, store, job, arch, |job.batch|, k);
  }

  lemma NothingUploaded(t: Tools, store: Store, job: Job, arch: string, k: PackageIndex.Key)
    requires GoodJob(job)
    ensures MatchesUpTo(t, store, job, arch, 0, k)
  {
  }

  lemma UploadMatches(t: Tools, store: Store, job: Job, arch: string, n: nat, k: PackageIndex.Key)
    requires GoodJob(job) && 0 < n <= |job.batch| && k.architecture == arch
    requires MatchesUpTo(t, store, job, arch, n - 1, k)
    ensures MatchesUpTo(t, store, job, arch, n, k)
  {
    assert KeyMatches(t, store, job, arch, n - 1, k);
    NextMatches(t, store, job, arch, n, k);
  }

  lemma NextMatches(t: Tools, store: Store, job: Job, arch: string, n: nat, k: PackageIndex.Key)
    requires GoodJob(job) && 0 < n <= |job.batch| && k.architecture == arch
    requires KeyMatches(t, store, job, arch, n - 1, k)
    ensures KeyMatches(t, store, job, arch, n, k)
  {
    GroupStep(t, job, arch, n, k);
    if PoolPlace(job.component, job.batch[n - 1].control) == PlaceOfKey(job.component, k) {
      OwnUpload(t, store, job, arch, n, k);
    } else {
      OtherUpload(t, store, job, arch, n, k);
    }
  }

  // ----- keys stay unique -----

  lemma UniqueCons(x: Stanza, xs: seq<Stanza>)
    ensures UniqueKeys([x] + xs) <==> UniqueKeys(xs) && forall y :: y in xs ==> KeyOf(y) != KeyOf(x)
  {
    var all := [x] + xs;
    if UniqueKeys(all) {
      forall i, j | 0 <= i < j < |xs| ensures KeyOf(xs[i]) != KeyOf(xs[j]) {
        assert all[i + 1] == xs[i] && all[j + 1] == xs[j];
      }
      forall y | y in xs ensures KeyOf(y) != KeyOf(x) {
        var i :| 0 <= i < |xs| && xs[i] == y;
        assert all[0] == x && all[i + 1] == y;
      }
    }
  }

  lemma HeadAndRest(idx: seq<Stanza>)
    requires idx != [] && UniqueKeys(idx)
    ensures UniqueKeys(idx[1..]) && forall y :: y in idx[1..] ==> KeyOf(y) != KeyOf(idx[0])
  {
    assert idx == [idx[0]] + idx[1..];
    UniqueCons(idx[0], idx[1..]);
  }

  lemma {:induction false} ReplacedNames(idx: seq<Stanza>, s: Stanza)
    ensures forall y :: y in ReplaceIn(idx, s, true) ==> NameOf(y) != NameOf(s)
  {
    if idx != [] { ReplacedNames(idx[1..], s); }
  }

  lemma {:induction false} ReplaceUnique(idx: seq<Stanza>, s: Stanza, replaced: bool)
    requires UniqueKeys(idx)
    ensures UniqueKeys(ReplaceIn(idx, s, replaced))
  {
    if idx != [] {
      HeadAndRest(idx);
      var next := replaced || NameOf(idx[0]) == NameOf(s);
      var rest := ReplaceIn(idx[1..], s, next);
      ReplaceUnique(idx[1..], s, next);
      ReplaceMembers(idx[1..], s, next);
      ReplacedNames(idx[1..], s);
      UniqueCons(idx[0], rest);
      UniqueCons(s, rest);
    }
  }

  lemma {:induction false} AddAllUnique(idx: seq<Stanza>, batch: seq<Stanza>, preserve: bool)
    requires UniqueKeys(idx)
    ensures UniqueKeys(AddAll(idx, batch, preserve))
    decreases |batch|
  {
    if preserve {
      UpdateLaws(idx, batch);
    } else if batch != [] {
      ReplaceUnique(idx, batch[0], false);
      AddAllUnique(ReplaceIn(idx, batch[0], false), batch[1..], false);
    }
  }

  lemma UniqueIsDistinct(idx: seq<Stanza>)
    requires UniqueKeys(idx)
    ensures forall i, j :: 0 <= i < j < |idx| ==> idx[i] != idx[j]
  {
  }

  lemma SortedUnique(sorted: seq<Stanza>, idx: seq<Stanza>)
    requires multiset(sorted) == multiset(idx) && UniqueKeys(idx)
    ensures UniqueKeys(sorted)
  {
    UniqueIsDistinct(idx);
    PermutationIsDistinct(sorted, idx);
    forall i, j | 0 <= i < j < |sorted| ensures KeyOf(sorted[i]) != KeyOf(sorted[j]) {
      var x, y := sorted[i], sorted[j];
      assert x != y && x in idx && y in idx;
      var a :| 0 <= a < |idx| && idx[a] == x;
      var b :| 0 <= b < |idx| && idx[b] == y;
      assert a != b;
    }
  }

  // ----- where the stanzas of a merge come from -----

  lemma FindUnique(idx: seq<Stanza>, s: Stanza)
    requires UniqueKeys(idx) && s in idx
    ensures Find(idx, KeyOf(s)) == Some(s)
  {
    var i :| 0 <= i < |idx| && idx[i] == s;
    PositionIs(idx, KeyOf(s), i);
  }

  lemma {:induction false} WithNameMember(idx: seq<Stanza>, s: Stanza)
    ensures s in WithName(idx, NameOf(s)) <==> s in idx
  {
    if idx != [] {
      assert idx == [idx[0]] + idx[1..];
      WithNameMember(idx[1..], s);
    }
  }

  /** The last stanza of a name is the last one of its key. */
  lemma {:induction false} LastNamedIsLast(batch: seq<Stanza>, n: (string, string))
    ensures match LastNamed(batch, n)
            case None => forall k: PackageIndex.Key :: (k.package, k.architecture) == n ==> LastWith(batch, k) == None
            case Some(s) => NameOf(s) == n && LastWith(batch, KeyOf(s)) == Some(s)
  {
    if batch != [] {
      var front := batch[..|batch| - 1];
      LastNamedIsLast(front, n);
    }
  }

  /** A stanza of the merge is the last of its key in the batch, or was found and not touched. */
  lemma MergeOrigin(found: seq<Stanza>, batch: seq<Stanza>, preserve: bool, s: Stanza)
    requires UniqueKeys(found) && s in AddAll(found, batch, preserve)
    ensures LastWith(batch, KeyOf(s)) == Some(s) || (LastWith(batch, KeyOf(s)) == None && s in found)
  {
    var merged := AddAll(found, batch, preserve);
    if preserve {
      UpdateLaws(found, batch);
      FindUnique(merged, s);
      assert Find(merged, KeyOf(s)) == Or(LastWith(batch, KeyOf(s)), Find(found, KeyOf(s)));
    } else {
      ReplaceLaws(found, batch, NameOf(s));
      WithNameMember(merged, s);
      LastNamedIsLast(batch, NameOf(s));
      WithNameMember(found, s);
    }
  }

  // ----- agreement is kept -----

  /** The merge agrees with the store after the uploads, if what was found agreed before. */
  lemma MergeAgrees(t: Tools, store: Store, job: Job, arch: string, found: seq<Stanza>)
    requires GoodJob(job) && IndexAgrees(t, store, job.component, arch, found)
    ensures IndexAgrees(t, Uploads(store, job, |job.batch|), job.component, arch,
                        AddAll(found, Group(t, job, arch), job.preserve))
  {
    var merged := AddAll(found, Group(t, job, arch), job.preserve);
    AddAllUnique(found, Group(t, job, arch), job.preserve);
    forall i | 0 <= i < |merged| ensures Agrees(t, Uploads(store, job, |job.batch|), job.component, arch, merged[i]) {
      MergedAgrees(t, store, job, arch, found, merged[i]);
    }
  }

  lemma MergedAgrees(t: Tools, store: Store, job: Job, arch: string, found: seq<Stanza>, s: Stanza)
    requires GoodJob(job) && IndexAgrees(t, store, job.component, arch, found)
    requires s in AddAll(found, Group(t, job, arch), job.preserve)
    ensures Agrees(t, Uploads(store, job, |job.batch|), job.component, arch, s)
  {
    var group := Group(t, job, arch);
    MergeOrigin(found, group, job.preserve, s);
    if LastWith(group, KeyOf(s)) == Some(s) {
      var i := GroupMember(t, job, arch, |job.batch|, s);
    } else {
      var i :| 0 <= i < |found| && found[i] == s;
      assert Agrees(t, store, job.component, arch, found[i]);
    }
    AllUploadsMatch(t, store, job, arch, KeyOf(s));
  }

  // ----- written and read again -----

  predicate SameFile(s: Stanza, back: Stanza) {
    && KeyOf(back) == KeyOf(s) && back.filename == s.filename && back.size == s.size
    && back.sha256 == s.sha256 && back.sha512 == s.sha512 && back.sha1 == s.sha1 && back.md5sum == s.md5sum
  }

  lemma FileLasts(t: Tools, store: Store, component: string, arch: string, s: Stanza, f: Field)
    requires GoodTools(t) && Agrees(t, store, component, arch, s)
    requires f.Package? || f.Version? || f.Architecture? || FileField(f)
    ensures Lasting(s, f)
  {
    PoolPathIsOneLine(PoolPlace(component, s.control));
    NumberIsOneLine(s.size);
    match f
    case SHA256 => HashIsLine(t, Sum.SHA256, store[PoolPlace(component, s.control)]);
    case SHA512 => HashIsLine(t, Sum.SHA512, store[PoolPlace(component, s.control)]);
    case SHA1 => HashIsLine(t, Sum.SHA1, store[PoolPlace(component, s.control)]);
    case MD5sum => HashIsLine(t, Sum.MD5, store[PoolPlace(component, s.control)]);
    case _ =>
  }

  lemma NumberIsOneLine(n: int)
    ensures OneLine(FormatInt(n))
  {
  }

  lemma FileSurvives(t: Tools, store: Store, component: string, arch: string, s: Stanza, back: Stanza)
    requires GoodTools(t) && Agrees(t, store, component, arch, s)
    requires forall f :: Lasting(s, f) ==> SameIn(s, back, f)
    ensures SameFile(s, back)
  {
    forall f: Field | f.Package? || f.Version? || f.Architecture? || FileField(f) ensures SameIn(s, back, f) {
      FileLasts(t, store, component, arch, s, f);
    }
    SameInKey(s, back);
    SameInFile(s, back);
  }

  lemma SameInKey(s: Stanza, back: Stanza)
    requires SameIn(s, back, Package) && SameIn(s, back, Version) && SameIn(s, back, Architecture)
    ensures KeyOf(back) == KeyOf(s)
  {
  }

  lemma SameInFile(s: Stanza, back: Stanza)
    requires SameIn(s, back, Filename) && SameIn(s, back, Size) && SameIn(s, back, Field.SHA256)
    requires SameIn(s, back, Field.SHA512) && SameIn(s, back, Field.SHA1) && SameIn(s, back, MD5sum)
    ensures back.filename == s.filename && back.size == s.size && back.sha256 == s.sha256
    ensures back.sha512 == s.sha512 && back.sha1 == s.sha1 && back.md5sum == s.md5sum
  {
  }

  lemma SameFileAgrees(t: Tools, store: Store, component: string, arch: string, s: Stanza, back: Stanza)
    requires Agrees(t, store, component, arch, s) && SameFile(s, back)
    ensures Agrees(t, store, component, arch, back)
  {
  }

  /** A written index agrees, however it is read. */
  lemma WrittenAgrees(t: Tools, store: Store, component: string, arch: string, idx: seq<Stanza>, paras: seq<Para>,
                      text: string)
    requires GoodTools(t) && AllPrintableStanzas(idx) && Serializes(idx, paras, text)
    requires IndexAgrees(t, store, component, arch, idx)
    ensures TextAgrees(t, store, component, arch, text)
  {
    forall back | CanParseIndex(text, back) ensures IndexAgrees(t, store, component, arch, back) {
      IndexSurvives(idx, paras, text, back);
      forall i | 0 <= i < |back| ensures Agrees(t, store, component, arch, back[i]) && KeyOf(back[i]) == KeyOf(idx[i]) {
        FileSurvives(t, store, component, arch, idx[i], back[i]);
        SameFileAgrees(t, store, component, arch, idx[i], back[i]);
      }
    }
  }
}
