/** A completed publish without preserved versions, seen in the stored index: one stanza for every
    package and architecture of the batch, the latest of the batch; every other name keeps the
    stanzas that were found; and all stand in the written order. */
module PublishLatest {
  import opened Text
  import opened VersionOrder
  import opened Deb822
  import opened Stanzas
  import opened StanzaRoundTrip
  import opened PackageIndex
  import opened IndexRoundTrip
  import opened IndexSurvival
  import opened Paths
  import opened PublishProtocol
  import opened PublishIntegrity
  import opened PublishKeys
  import opened PublishProgress

  /** The group is a subsequence of the batch, so it is sorted too. */
  lemma {:induction false} GroupSorted(t: Tools, job: Job, arch: string, n: nat)
    requires GoodJob(job) && SortedBatch(job) && n <= |job.batch|
    ensures BatchSorted(GroupOf(t, job, arch, n))
  {
    if n > 0 {
      GroupSorted(t, job, arch, n - 1);
      NextSorted(t, job, arch, n, GroupOf(t, job, arch, n - 1));
    }
  }

  ghost predicate AllBefore(front: seq<Stanza>, s: Stanza) {
    forall x :: x in front ==> CompareCandidates(x, s) <= 0
  }

  lemma NextSorted(t: Tools, job: Job, arch: string, n: nat, front: seq<Stanza>)
    requires GoodJob(job) && SortedBatch(job) && 0 < n <= |job.batch|
    requires front == GroupOf(t, job, arch, n - 1) && BatchSorted(front)
    ensures BatchSorted(GroupOf(t, job, arch, n))
  {
    LastIsGood(job, n);
    GroupBefore(t, job, arch, n - 1);
    NextGroup(t, job, arch, n);
    SortedNext(front, StanzaOf(t, job.component, job.batch[n - 1]), GroupOf(t, job, arch, n));
  }

  lemma LastIsGood(job: Job, n: nat)
    requires GoodJob(job) && 0 < n <= |job.batch|
    ensures GoodCandidate(job.component, job.batch[n - 1])
  {
    assert job.batch[n - 1] in job.batch;
  }

  lemma NextGroup(t: Tools, job: Job, arch: string, n: nat)
    requires GoodJob(job) && 0 < n <= |job.batch| && GoodCandidate(job.component, job.batch[n - 1])
    ensures GroupOf(t, job, arch, n) == GroupOf(t, job, arch, n - 1) + [StanzaOf(t, job.component, job.batch[n - 1])]
         || GroupOf(t, job, arch, n) == GroupOf(t, job, arch, n - 1) + []
  {
  }

  lemma GroupBefore(t: Tools, job: Job, arch: string, n: nat)
    requires GoodJob(job) && SortedBatch(job) && n < |job.batch| && GoodCandidate(job.component, job.batch[n])
    ensures AllBefore(GroupOf(t, job, arch, n), StanzaOf(t, job.component, job.batch[n]))
  {
    forall s | s in GroupOf(t, job, arch, n)
      ensures CompareCandidates(s, StanzaOf(t, job.component, job.batch[n])) <= 0
    {
      var i := GroupMember(t, job, arch, n, s);
      assert InOrder(job, i, n);
    }
  }

  lemma SortedNext(front: seq<Stanza>, s: Stanza, all: seq<Stanza>)
    requires BatchSorted(front) && AllBefore(front, s)
    requires all == front + [s] || all == front + []
    ensures BatchSorted(all)
  {
    assert front + [] == front;
  }

  lemma {:induction false} InGroup(t: Tools, job: Job, arch: string, s: Stanza, i: nat, n: nat)
    requires GoodJob(job) && i < n <= |job.batch| && s in GroupOf(t, job, arch, i + 1)
    ensures s in GroupOf(t, job, arch, n)
  {
    if i < n - 1 {
      InGroup(t, job, arch, s, i, n - 1);
      GroupGrows(t, job, arch, n, s);
    }
  }

  lemma LastInGroup(t: Tools, job: Job, n: nat)
    requires GoodJob(job) && 0 < n <= |job.batch| && job.batch[n - 1] in job.batch
    ensures StanzaOf(t, job.component, job.batch[n - 1]) in GroupOf(t, job, job.batch[n - 1].control.architecture, n)
  {
  }

  lemma GroupGrows(t: Tools, job: Job, arch: string, n: nat, s: Stanza)
    requires GoodJob(job) && 0 < n <= |job.batch| && s in GroupOf(t, job, arch, n - 1)
    ensures s in GroupOf(t, job, arch, n)
  {
    assert job.batch[n - 1] in job.batch;
  }

  // ----- the stanzas of one name -----

  /** The stanza was read back with its key and with every field that lasts. */
  ghost predicate ComesBack(s: Stanza, back: Stanza) {
    KeyOf(back) == KeyOf(s) && forall f :: Lasting(s, f) ==> SameIn(s, back, f)
  }

  ghost predicate ComeBack(kept: seq<Stanza>, back: seq<Stanza>) {
    |back| == |kept| && forall i :: 0 <= i < |kept| ==> ComesBack(kept[i], back[i])
  }

  lemma {:induction false} NamedComeBack(kept: seq<Stanza>, back: seq<Stanza>, n: (string, string))
    requires ComeBack(kept, back)
    ensures ComeBack(WithName(kept, n), WithName(back, n))
  {
    if kept != [] {
      assert ComesBack(kept[0], back[0]);
      NamedComeBack(kept[1..], back[1..], n);
      ConsComeBack(kept[0], back[0], WithName(kept[1..], n), WithName(back[1..], n));
    }
  }

  lemma ConsComeBack(s: Stanza, x: Stanza, kept: seq<Stanza>, back: seq<Stanza>)
    requires ComesBack(s, x) && ComeBack(kept, back)
    ensures ComeBack([s] + kept, [x] + back)
  {
    forall i | 0 <= i < |kept| + 1 ensures ComesBack(([s] + kept)[i], ([x] + back)[i]) {
      if i > 0 { assert ComesBack(kept[i - 1], back[i - 1]); }
    }
  }

  lemma {:induction false} NamedCount(idx: seq<Stanza>, n: (string, string), s: Stanza)
    ensures multiset(WithName(idx, n))[s] == if NameOf(s) == n then multiset(idx)[s] else 0
  {
    if idx != [] {
      NamedCount(idx[1..], n, s);
      assert idx == [idx[0]] + idx[1..];
    }
  }

  /** Permutations have the same stanzas of every name. */
  lemma NamedPermutes(a: seq<Stanza>, b: seq<Stanza>, n: (string, string))
    requires multiset(a) == multiset(b)
    ensures multiset(WithName(a, n)) == multiset(WithName(b, n))
  {
    forall s ensures multiset(WithName(a, n))[s] == multiset(WithName(b, n))[s] {
      NamedCount(a, n, s);
      NamedCount(b, n, s);
    }
  }

  lemma OneStanza(kept: seq<Stanza>, s: Stanza)
    requires multiset(kept) == multiset([s])
    ensures kept == [s]
  {
    assert |multiset(kept)| == |kept| && |multiset([s])| == 1;
    assert kept[0] in multiset([s]);
  }

  // ----- the stored index -----

  /** Whatever a reader makes of the stored Packages, its keys fit on lines. */
  ghost predicate FoundInLines(store: Store, p: Place) {
    forall idx :: Found(store, p, idx) ==> forall k :: k in Keys(idx) ==> LineKey(k)
  }

  /** Every reading of a merged text has the stanzas of the sorted merge, one after another. */
  lemma MergedComesBack(t: Tools, job: Job, arch: string, found: seq<Stanza>, sorted: seq<Stanza>, paras: seq<Para>,
                        text: string, idx: seq<Stanza>)
    requires GoodTools(t) && GoodJob(job) && AllPrintableStanzas(found) && forall k :: k in Keys(found) ==> LineKey(k)
    requires Merges(t, job, arch, found, sorted, paras, text) && CanParseIndex(text, idx)
    ensures ComeBack(sorted, idx)
  {
    MergedIsPrintable(t, job, arch, found, sorted);
    GroupKeysAreLines(t, job, arch);
    IndexSurvives(sorted, paras, text, idx);
    forall i | 0 <= i < |sorted| ensures ComesBack(sorted[i], idx[i]) {
      assert sorted[i] in sorted;
      assert KeyOf(sorted[i]) in Keys(found) || KeyOf(sorted[i]) in Keys(Group(t, job, arch));
      KeySurvives(sorted[i], idx[i]);
    }
  }

  /** The written order depends on keys alone. */
  lemma OrderComesBack(sorted: seq<Stanza>, idx: seq<Stanza>)
    requires IndexSorted(sorted) && ComeBack(sorted, idx)
    ensures IndexSorted(idx)
  {
    forall i, j | 0 <= i < j < |idx| ensures CompareStanzas(idx[i], idx[j]) <= 0 {
      assert ComesBack(sorted[i], idx[i]) && ComesBack(sorted[j], idx[j]);
      assert CompareStanzas(sorted[i], sorted[j]) <= 0;
    }
  }

  /** What is to remain of a name: the latest of the batch, or what was found. */
  ghost function Remaining(t: Tools, job: Job, arch: string, found: seq<Stanza>, n: (string, string)): seq<Stanza>
    requires GoodJob(job)
  {
    match LastNamed(Group(t, job, arch), n)
    case None => WithName(found, n)
    case Some(x) => [x]
  }

  /** The stored index has the stanzas that are to remain of the name, in some order, and no other. */
  ghost predicate NameKept(t: Tools, job: Job, arch: string, found: seq<Stanza>, idx: seq<Stanza>, n: (string, string))
    requires GoodJob(job)
  {
    exists kept ::
      multiset(kept) == multiset(Remaining(t, job, arch, found, n)) && ComeBack(kept, WithName(idx, n))
  }

  lemma NameInMerge(t: Tools, job: Job, arch: string, found: seq<Stanza>, sorted: seq<Stanza>, idx: seq<Stanza>,
                    n: (string, string))
    requires GoodJob(job) && !job.preserve && ComeBack(sorted, idx)
    requires multiset(sorted) == multiset(AddAll(found, Group(t, job, arch), false))
    ensures NameKept(t, job, arch, found, idx, n)
  {
    NamedPermutes(sorted, AddAll(found, Group(t, job, arch), false), n);
    ReplaceLaws(found, Group(t, job, arch), n);
    NamedComeBack(sorted, idx, n);
  }

  /** A name of the batch has one stanza, its latest. */
  lemma OneRemains(t: Tools, job: Job, arch: string, found: seq<Stanza>, idx: seq<Stanza>, n: (string, string),
                   x: Stanza)
    requires GoodJob(job) && NameKept(t, job, arch, found, idx, n) && LastNamed(Group(t, job, arch), n) == Some(x)
    ensures |WithName(idx, n)| == 1 && ComesBack(x, WithName(idx, n)[0])
  {
    var kept :| multiset(kept) == multiset(Remaining(t, job, arch, found, n)) && ComeBack(kept, WithName(idx, n));
    OneStanza(kept, x);
  }

  /** The latest of the batch for the name of its file i. */
  lemma LatestOfBatch(t: Tools, job: Job, i: nat) returns (x: Stanza)
    requires GoodJob(job) && SortedBatch(job) && i < |job.batch|
    ensures var c := job.batch[i].control;
      && LastNamed(Group(t, job, c.architecture), (c.package, c.architecture)) == Some(x)
      && x in Group(t, job, c.architecture) && CompareVersions(c.version, x.control.version) <= 0
  {
    assert job.batch[i] in job.batch;
    var s := StanzaOf(t, job.component, job.batch[i]);
    GroupSorted(t, job, s.control.architecture, |job.batch|);
    LastInGroup(t, job, i + 1);
    InGroup(t, job, s.control.architecture, s, i, |job.batch|);
    LastIsLatest(Group(t, job, s.control.architecture), s, NameOf(s));
    x := LastNamed(Group(t, job, s.control.architecture), NameOf(s)).value;
  }

  /** What a reader finds in a merged text: every name as NameKept says, in the written order. */
  lemma LatestInText(t: Tools, start: Base, job: Job, arch: string, text: string, idx: seq<Stanza>)
    returns (found: seq<Stanza>)
    requires GoodTools(t) && GoodJob(job) && !job.preserve
    requires FoundInLines(start.store, IndexPlace(job, arch, Plain))
    requires MergedFrom(t, start, job, arch, text) && CanParseIndex(text, idx)
    ensures Got(start, IndexPlace(job, arch, Plain), found)
    ensures IndexSorted(idx) && forall n :: NameKept(t, job, arch, found, idx, n)
  {
    var sorted, paras;
    found, sorted, paras :|
      Got(start, IndexPlace(job, arch, Plain), found) && Merges(t, job, arch, found, sorted, paras, text);
    if found != [] { FoundIsPrintable(start.store, IndexPlace(job, arch, Plain), found); }
    MergedComesBack(t, job, arch, found, sorted, paras, text, idx);
    OrderComesBack(sorted, idx);
    forall n ensures NameKept(t, job, arch, found, idx, n) { NameInMerge(t, job, arch, found, sorted, idx, n); }
  }

  /** For the package and architecture of file i of the batch the index has one stanza, x, the
      latest of the batch; every other name has the stanzas found; and all are in order. */
  ghost predicate OnlyLatest(t: Tools, start: Base, job: Job, i: nat, found: seq<Stanza>, idx: seq<Stanza>, x: Stanza)
    requires GoodJob(job) && i < |job.batch|
  {
    var c := job.batch[i].control;
    && |WithName(idx, (c.package, c.architecture))| == 1
    && ComesBack(x, WithName(idx, (c.package, c.architecture))[0])
    && x in Group(t, job, c.architecture) && CompareVersions(c.version, x.control.version) <= 0
    && Got(start, IndexPlace(job, c.architecture, Plain), found)
    && (forall n :: NameKept(t, job, c.architecture, found, idx, n)) && IndexSorted(idx)
  }

  lemma LatestInFile(t: Tools, start: Base, job: Job, i: nat, text: string, idx: seq<Stanza>)
    returns (found: seq<Stanza>, x: Stanza)
    requires GoodTools(t) && GoodJob(job) && !job.preserve && SortedBatch(job) && i < |job.batch|
    requires FoundInLines(start.store, IndexPlace(job, job.batch[i].control.architecture, Plain))
    requires MergedFrom(t, start, job, job.batch[i].control.architecture, text) && CanParseIndex(text, idx)
    ensures OnlyLatest(t, start, job, i, found, idx, x)
  {
    var c := job.batch[i].control;
    found := LatestInText(t, start, job, c.architecture, text, idx);
    x := LatestOfBatch(t, job, i);
    OneRemains(t, job, c.architecture, found, idx, (c.package, c.architecture), x);
  }
}
