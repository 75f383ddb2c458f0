/** Agreement of stored indexes with the pool, which all codenames share: exactly when it survives
    a change of the pool, and what a completed publish leaves of it. */
module PublishAgreement {
  import opened Deb822
  import opened Stanzas
  import opened PackageIndex
  import opened IndexRoundTrip
  import opened IndexSurvival
  import opened Release
  import opened Paths
  import opened PublishProtocol
  import opened PublishIntegrity
  import opened MergeAgreement
  import opened PublishProgress

  ghost predicate PlaceAgrees(t: Tools, files: Store, store: Store, codename: string, p: Place) {
    p in store && p.Index? && p.codename == codename ==>
      TextAgrees(t, files, p.component, p.architecture, t.unpack(p.ext, store[p]))
  }

  /** Every index of the codename in store agrees with the pool of files, in every variant. */
  ghost predicate AgreesWith(t: Tools, files: Store, store: Store, codename: string) {
    forall p: Place :: PlaceAgrees(t, files, store, codename, p)
  }

  /** Every stored index of the codename agrees with the stored files. */
  ghost predicate Agreement(t: Tools, store: Store, codename: string) {
    AgreesWith(t, store, store, codename)
  }

  // ----- another pool -----

  /** Some index of the codename, read in some way, names the file f. */
  ghost predicate Named(t: Tools, store: Store, codename: string, f: Place) {
    exists p, idx, s :: NamedBy(t, store, codename, f, p, idx, s)
  }

  ghost predicate NamedBy(t: Tools, store: Store, codename: string, f: Place, p: Place, idx: seq<Stanza>, s: Stanza) {
    && p in store && p.Index? && p.codename == codename
    && CanParseIndex(t.unpack(p.ext, store[p]), idx) && s in idx && f == PoolPlace(p.component, s.control)
  }

  /** The file has the same size and hashes in both pools. */
  predicate SameDigest(t: Tools, files: Store, files': Store, f: Place) {
    && f in files && f in files' && |files'[f]| == |files[f]|
    && t.hash(Sum.SHA256, files'[f]) == t.hash(Sum.SHA256, files[f])
    && t.hash(Sum.SHA512, files'[f]) == t.hash(Sum.SHA512, files[f])
    && t.hash(Sum.SHA1, files'[f]) == t.hash(Sum.SHA1, files[f])
    && t.hash(Sum.MD5, files'[f]) == t.hash(Sum.MD5, files[f])
  }

  lemma DigestDecides(t: Tools, files: Store, files': Store, component: string, arch: string, s: Stanza)
    requires Agrees(t, files, component, arch, s)
    ensures Agrees(t, files', component, arch, s) <==> SameDigest(t, files, files', PoolPlace(component, s.control))
  {
  }

  lemma NamedAgrees(t: Tools, files: Store, store: Store, codename: string, f: Place, p: Place, idx: seq<Stanza>,
                    s: Stanza)
    requires AgreesWith(t, files, store, codename) && NamedBy(t, store, codename, f, p, idx, s)
    ensures Agrees(t, files, p.component, p.architecture, s)
  {
    assert PlaceAgrees(t, files, store, codename, p);
    assert IndexAgrees(t, files, p.component, p.architecture, idx);
    var i :| 0 <= i < |idx| && idx[i] == s;
  }

  lemma DigestsKeepPlace(t: Tools, files: Store, files': Store, store: Store, codename: string, p: Place)
    requires AgreesWith(t, files, store, codename)
    requires forall f :: Named(t, store, codename, f) ==> SameDigest(t, files, files', f)
    ensures PlaceAgrees(t, files', store, codename, p)
  {
    if p in store && p.Index? && p.codename == codename {
      assert PlaceAgrees(t, files, store, codename, p);
      forall idx: seq<Stanza> | CanParseIndex(t.unpack(p.ext, store[p]), idx)
        ensures IndexAgrees(t, files', p.component, p.architecture, idx)
      {
        assert IndexAgrees(t, files, p.component, p.architecture, idx);
        forall i | 0 <= i < |idx| ensures Agrees(t, files', p.component, p.architecture, idx[i]) {
          assert NamedBy(t, store, codename, PoolPlace(p.component, idx[i].control), p, idx, idx[i]);
          DigestDecides(t, files, files', p.component, p.architecture, idx[i]);
        }
      }
    }
  }

  /** Indexes that agree with one pool agree with another if and only if every file they name has
      the same size and hashes there. */
  lemma AgreesExactly(t: Tools, files: Store, files': Store, store: Store, codename: string)
    requires AgreesWith(t, files, store, codename)
    ensures AgreesWith(t, files', store, codename)
        <==> forall f :: Named(t, store, codename, f) ==> SameDigest(t, files, files', f)
  {
    if AgreesWith(t, files', store, codename) {
      forall f | Named(t, store, codename, f) ensures SameDigest(t, files, files', f) {
        var p, idx, s :| NamedBy(t, store, codename, f, p, idx, s);
        NamedAgrees(t, files, store, codename, f, p, idx, s);
        NamedAgrees(t, files', store, codename, f, p, idx, s);
        DigestDecides(t, files, files', p.component, p.architecture, s);
      }
    }
    if forall f :: Named(t, store, codename, f) ==> SameDigest(t, files, files', f) {
      forall p: Place ensures PlaceAgrees(t, files', store, codename, p) {
        DigestsKeepPlace(t, files, files', store, codename, p);
      }
    }
  }

  // ----- one upload -----

  lemma SameNamed(t: Tools, store: Store, store': Store, codename: string)
    requires SameIndexes(codename, store, store')
    ensures forall files :: AgreesWith(t, files, store', codename) <==> AgreesWith(t, files, store, codename)
    ensures forall f :: Named(t, store', codename, f) <==> Named(t, store, codename, f)
  {
    forall files ensures AgreesWith(t, files, store', codename) <==> AgreesWith(t, files, store, codename) {
      forall p: Place
        ensures PlaceAgrees(t, files, store', codename, p) <==> PlaceAgrees(t, files, store, codename, p)
      {
        assert OwnPlace(codename, p) ==> SameAt(store, store', p);
      }
    }
    forall f ensures Named(t, store', codename, f) <==> Named(t, store, codename, f) {
      forall p, idx, s
        ensures NamedBy(t, store', codename, f, p, idx, s) <==> NamedBy(t, store, codename, f, p, idx, s)
      {
        assert OwnPlace(codename, p) ==> SameAt(store, store', p);
      }
    }
  }

  /** The pool is shared: an upload, of whatever codename, leaves a codename in agreement if and only
      if it puts a file of the same size and hashes wherever that codename names one. */
  lemma UploadKeepsExactly(t: Tools, store: Store, f: Place, bytes: string, codename: string)
    requires f.Pool? && Agreement(t, store, codename)
    ensures Agreement(t, store[f := bytes], codename)
       <==> (Named(t, store, codename, f) ==> SameDigest(t, store, store[f := bytes], f))
  {
    var store' := store[f := bytes];
    SameNamed(t, store, store', codename);
    AgreesExactly(t, store, store', store, codename);
    forall x | Named(t, store, codename, x) && x != f ensures SameDigest(t, store, store', x) {
      OthersKeepDigest(t, store, codename, f, bytes, x);
    }
  }

  lemma OthersKeepDigest(t: Tools, store: Store, codename: string, f: Place, bytes: string, x: Place)
    requires Agreement(t, store, codename) && Named(t, store, codename, x) && x != f
    ensures SameDigest(t, store, store[f := bytes], x)
  {
    var p, idx, s :| NamedBy(t, store, codename, x, p, idx, s);
    NamedAgrees(t, store, store, codename, x, p, idx, s);
  }

  // ----- a completed publish -----

  lemma FoundAgrees(t: Tools, start: Store, job: Job, arch: string, found: seq<Stanza>)
    requires GoodTools(t) && Agreement(t, start, job.codename) && Found(start, IndexPlace(job, arch, Plain), found)
    ensures IndexAgrees(t, start, job.component, arch, found)
  {
    var p := IndexPlace(job, arch, Plain);
    if p in start {
      assert PlaceAgrees(t, start, start, job.codename, p);
      assert t.unpack(Plain, t.pack(Plain, start[p])) == start[p];
    }
  }

  lemma MergedFromAgrees(t: Tools, start: Base, job: Job, arch: string, text: string)
    requires GoodTools(t) && GoodJob(job) && Agreement(t, start.store, job.codename)
    requires MergedFrom(t, start, job, arch, text)
    ensures TextAgrees(t, Uploads(start.store, job, |job.batch|), job.component, arch, text)
  {
    var found, sorted, paras :|
      Got(start, IndexPlace(job, arch, Plain), found) && Merges(t, job, arch, found, sorted, paras, text);
    if found != [] {
      FoundAgrees(t, start.store, job, arch, found);
      FoundIsPrintable(start.store, IndexPlace(job, arch, Plain), found);
    }
    MergedTextAgrees(t, start.store, job, arch, found, sorted, paras, text);
  }

  lemma MergedTextAgrees(t: Tools, start: Store, job: Job, arch: string, found: seq<Stanza>, sorted: seq<Stanza>,
                         paras: seq<Para>, text: string)
    requires GoodTools(t) && GoodJob(job) && AllPrintableStanzas(found)
    requires IndexAgrees(t, start, job.component, arch, found)
    requires Merges(t, job, arch, found, sorted, paras, text)
    ensures TextAgrees(t, Uploads(start, job, |job.batch|), job.component, arch, text)
  {
    var u := Uploads(start, job, |job.batch|);
    MergeAgrees(t, start, job, arch, found);
    MergedIsPrintable(t, job, arch, found, sorted);
    SortedAgrees(t, u, job.component, arch, sorted, AddAll(found, Group(t, job, arch), job.preserve));
    WrittenAgrees(t, u, job.component, arch, sorted, paras, text);
  }

  lemma SortedAgrees(t: Tools, store: Store, component: string, arch: string, sorted: seq<Stanza>, idx: seq<Stanza>)
    requires IsSortOf(sorted, idx) && IndexAgrees(t, store, component, arch, idx)
    ensures IndexAgrees(t, store, component, arch, sorted)
  {
    SortedUnique(sorted, idx);
    SameMembers(sorted, idx);
    forall i | 0 <= i < |sorted| ensures Agrees(t, store, component, arch, sorted[i]) {
      assert sorted[i] in idx;
      var j :| 0 <= j < |idx| && idx[j] == sorted[i];
      assert Agrees(t, store, component, arch, idx[j]);
    }
  }

  /** Files of architectures outside the batch are as they were. */
  lemma UntouchedArch(start: Store, job: Job, p: Place)
    requires p.Pool? && !HasArch(job, p.architecture)
    ensures SameAt(start, Uploads(start, job, |job.batch|), p)
  {
    forall i | 0 <= i < |job.batch| ensures PoolPlace(job.component, job.batch[i].control) != p {
      assert job.batch[i] in job.batch;
    }
    UploadsElsewhere(start, job, |job.batch|, p);
  }

  lemma UntouchedComponent(start: Store, job: Job, p: Place)
    requires p.Pool? && p.component != job.component
    ensures SameAt(start, Uploads(start, job, |job.batch|), p)
  {
    UploadsElsewhere(start, job, |job.batch|, p);
  }

  /** Agreement depends on the pool files of the index alone. */
  lemma TextAgreesFrame(t: Tools, store: Store, store': Store, component: string, arch: string, text: string)
    requires TextAgrees(t, store, component, arch, text)
    requires forall p: Place :: p.Pool? && p.component == component && p.architecture == arch ==>
        SameAt(store, store', p)
    ensures TextAgrees(t, store', component, arch, text)
  {
    forall idx | CanParseIndex(text, idx) ensures IndexAgrees(t, store', component, arch, idx) {
      assert IndexAgrees(t, store, component, arch, idx);
      forall i | 0 <= i < |idx| ensures Agrees(t, store', component, arch, idx[i]) {
        assert Agrees(t, store, component, arch, idx[i]);
        AgreesFrame(t, store, store', component, arch, idx[i]);
      }
    }
  }

  lemma CompletedPlaceAgrees(t: Tools, start: Base, job: Job, store: Store, order: seq<string>, p: Place)
    requires GoodTools(t) && GoodJob(job) && Agreement(t, start.store, job.codename)
    requires Progress(t, start, job, store, order, |order|, 0)
    ensures PlaceAgrees(t, Uploads(start.store, job, |job.batch|), store, job.codename, p)
  {
    if p in store && p.Index? && p.codename == job.codename {
      assert PlaceProgress(t, start, job, store, order, |order|, 0, p);
      if OfJob(job, p) && Done(order, |order|, 0, p.architecture, p.ext) {
        MergedFromAgrees(t, start, job, p.architecture, t.unpack(p.ext, store[p]));
      } else {
        assert PlaceAgrees(t, start.store, start.store, job.codename, p);
        assert order[..|order|] == order;
        forall f: Place | f.Pool? && f.component == p.component && f.architecture == p.architecture
          ensures SameAt(start.store, Uploads(start.store, job, |job.batch|), f)
        {
          if f.component != job.component { UntouchedComponent(start.store, job, f); }
          else { UntouchedArch(start.store, job, f); }
        }
        TextAgreesFrame(t, start.store, Uploads(start.store, job, |job.batch|), p.component, p.architecture,
                        t.unpack(p.ext, store[p]));
      }
    }
  }

  /** If every stanza of the codename agreed with its file when the publish began, every one agrees
      with the pool as the publish's own uploads make it, even when the batch holds several files of
      one package, version and architecture; so it agrees with the stored pool if and only if every
      file it names has the same size and hashes there. */
  lemma CompletedAgrees(t: Tools, start: Base, job: Job, store: Store, order: seq<string>)
    requires GoodTools(t) && GoodJob(job) && Agreement(t, start.store, job.codename)
    requires Progress(t, start, job, store, order, |order|, 0)
    ensures AgreesWith(t, Uploads(start.store, job, |job.batch|), store, job.codename)
    ensures Agreement(t, store, job.codename)
       <==> forall f :: Named(t, store, job.codename, f) ==>
              SameDigest(t, Uploads(start.store, job, |job.batch|), store, f)
  {
    forall p: Place ensures PlaceAgrees(t, Uploads(start.store, job, |job.batch|), store, job.codename, p) {
      CompletedPlaceAgrees(t, start, job, store, order, p);
    }
    AgreesExactly(t, Uploads(start.store, job, |job.batch|), store, store, job.codename);
  }
}
