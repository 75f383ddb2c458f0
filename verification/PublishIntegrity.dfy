/** Referential integrity at every crash point: in every interleaving of any number of
    publishers, every stanza of every stored index names a stored pool file. */
module PublishIntegrity {
  import opened Text
  import opened Deb822
  import opened Deb822RoundTrip
  import opened Stanzas
  import opened StanzaRoundTrip
  import opened PackageIndex
  import opened IndexRoundTrip
  import opened IndexSurvival
  import opened Paths
  import R = Release
  import opened PublishProtocol

  /** The paths of the stored pool files. */
  function PoolPaths(store: Store): set<string> {
    set p | p in store && p.Pool? && Legal(p) :: PathOf(p)
  }

  ghost predicate NamesOnly(idx: seq<Stanza>, paths: set<string>) {
    forall s :: s in idx ==> s.filename in paths
  }

  /** Whatever a reader makes of the text, it names only the given files. */
  ghost predicate TextNames(text: string, paths: set<string>) {
    forall idx :: CanParseIndex(text, idx) ==> NamesOnly(idx, paths)
  }

  ghost predicate PlaceNames(t: Tools, store: Store, p: Place) {
    p in store && p.Index? ==> TextNames(t.unpack(p.ext, store[p]), PoolPaths(store))
  }

  /** Every stanza of every stored index, in every variant, names a stored pool file. */
  ghost predicate Integrity(t: Tools, store: Store) {
    forall p: Place :: PlaceNames(t, store, p)
  }

  ghost predicate Uploaded(store: Store, job: Job, n: nat)
    requires n <= |job.batch|
  {
    forall i :: 0 <= i < n ==> PoolPlace(job.component, job.batch[i].control) in store
  }

  ghost predicate StageNames(store: Store, job: Job, stage: Stage) {
    match stage
    case Uploading(done) => done <= |job.batch| && Uploaded(store, job, done)
    case Indexing(_, _) => Uploaded(store, job, |job.batch|)
    case Writing(_, text, _, _, _) => Uploaded(store, job, |job.batch|) && TextNames(text, PoolPaths(store))
    case _ => true
  }

  ghost predicate PublisherNames(r: Repo, w: string) {
    w in r.publishers ==>
      GoodJob(r.publishers[w].job) && StageNames(r.store, r.publishers[w].job, r.publishers[w].stage)
  }

  ghost predicate IntegrityInv(t: Tools, r: Repo) {
    Integrity(t, r.store) && forall w :: PublisherNames(r, w)
  }

  // ----- merging -----

  lemma AddMembers(idx: seq<Stanza>, s: Stanza, preserve: bool)
    ensures forall x :: x in AddOrUpdate(idx, s, preserve) ==> x in idx || x == s
  {
    if !preserve { ReplaceMembers(idx, s, false); }
  }

  lemma {:induction false} ReplaceMembers(idx: seq<Stanza>, s: Stanza, replaced: bool)
    ensures forall x :: x in ReplaceIn(idx, s, replaced) ==> x in idx || x == s
  {
    if idx != [] {
      ReplaceMembers(idx[1..], s, replaced || NameOf(idx[0]) == NameOf(s));
    }
  }

  lemma {:induction false} AddAllMembers(idx: seq<Stanza>, batch: seq<Stanza>, preserve: bool)
    ensures forall x :: x in AddAll(idx, batch, preserve) ==> x in idx || x in batch
    decreases |batch|
  {
    if batch != [] {
      AddMembers(idx, batch[0], preserve);
      AddAllMembers(AddOrUpdate(idx, batch[0], preserve), batch[1..], preserve);
    }
  }

  // ----- the group of a batch -----

  lemma ControlIsPrintable(t: Tools, component: string, c: Candidate)
    requires GoodTools(t) && GoodCandidate(component, c)
    ensures PrintableStanza(StanzaOf(t, component, c))
  {
    var p, s :| Printable(p) && IsStanzaOf(p, s) && s.control == c.control;
    ReadIsPrintable(p, s);
    var x := StanzaOf(t, component, c);
    PoolPathIsOneLine(PoolPlace(component, c.control));
    forall f | Written(x, f) ensures Breakless(TextOf(x, f)) {
      if FileField(f) {
        FileFieldIsBreakless(t, component, c, f);
      } else {
        assert TextOf(x, f) == TextOf(s, f);
      }
    }
  }

  predicate FileField(f: Field) {
    f.Filename? || f.Size? || f.SHA256? || f.SHA512? || f.SHA1? || f.MD5sum?
  }

  lemma HexIsLine(s: string)
    requires IsHex(s)
    ensures OneLine(s) && Breakless(s)
  {
    NoBreaks(s);
  }

  lemma FileFieldIsBreakless(t: Tools, component: string, c: Candidate, f: Field)
    requires GoodTools(t) && GoodCandidate(component, c) && FileField(f)
    ensures Breakless(TextOf(StanzaOf(t, component, c), f))
  {
    if f.Size? {
      NumberIsBreakless(|c.bytes|);
    } else if f.Filename? {
      PoolPathIsBreakless(PoolPlace(component, c.control));
    } else {
      HashField(t, component, c, f);
    }
  }

  lemma HashField(t: Tools, component: string, c: Candidate, f: Field)
    requires GoodTools(t) && GoodCandidate(component, c) && FileField(f) && !f.Size? && !f.Filename?
    ensures Breakless(TextOf(StanzaOf(t, component, c), f))
  {
    var sum := if f.SHA256? then R.Sum.SHA256 else if f.SHA512? then R.Sum.SHA512
               else if f.SHA1? then R.Sum.SHA1 else R.Sum.MD5;
    assert TextOf(StanzaOf(t, component, c), f) == t.hash(sum, c.bytes);
    HashIsLine(t, sum, c.bytes);
  }

  lemma PoolPathIsBreakless(p: Place)
    requires Paths.Legal(p) && p.Pool?
    ensures Breakless(PathOf(p))
  {
    PoolPathIsOneLine(p);
    NoBreaks(PathOf(p));
  }

  lemma HashIsLine(t: Tools, sum: R.Sum, bytes: string)
    requires GoodTools(t)
    ensures OneLine(t.hash(sum, bytes)) && Breakless(t.hash(sum, bytes))
  {
    HexIsLine(t.hash(sum, bytes));
  }

  /** Every stanza of a group comes from a file of the batch. */
  lemma {:induction false} GroupMember(t: Tools, job: Job, arch: string, n: nat, s: Stanza) returns (i: nat)
    requires GoodJob(job) && n <= |job.batch| && s in GroupOf(t, job, arch, n)
    ensures i < n && GoodCandidate(job.component, job.batch[i]) && job.batch[i].control.architecture == arch
    ensures s == StanzaOf(t, job.component, job.batch[i])
  {
    NewMember(t, job, arch, n, s);
    if s in GroupOf(t, job, arch, n - 1) { i := GroupMember(t, job, arch, n - 1, s); } else { i := n - 1; }
  }

  lemma NewMember(t: Tools, job: Job, arch: string, n: nat, s: Stanza)
    requires GoodJob(job) && n <= |job.batch| && s in GroupOf(t, job, arch, n)
    ensures n > 0 && GoodCandidate(job.component, job.batch[n - 1])
    ensures s !in GroupOf(t, job, arch, n - 1) ==>
      job.batch[n - 1].control.architecture == arch && s == StanzaOf(t, job.component, job.batch[n - 1])
  {
    assert job.batch[n - 1] in job.batch;
  }

  lemma GroupIsPrintable(t: Tools, job: Job, arch: string)
    requires GoodTools(t) && GoodJob(job)
    ensures AllPrintableStanzas(Group(t, job, arch))
  {
    forall s | s in Group(t, job, arch) ensures PrintableStanza(s) {
      var i := GroupMember(t, job, arch, |job.batch|, s);
      ControlIsPrintable(t, job.component, job.batch[i]);
    }
  }

  lemma GroupNames(t: Tools, store: Store, job: Job, arch: string)
    requires GoodJob(job) && Uploaded(store, job, |job.batch|)
    ensures NamesOnly(Group(t, job, arch), PoolPaths(store))
  {
    forall s | s in Group(t, job, arch) ensures s.filename in PoolPaths(store) {
      var i := GroupMember(t, job, arch, |job.batch|, s);
      assert PoolPlace(job.component, job.batch[i].control) in store;
    }
  }

  // ----- what a written index names -----

  lemma FilenameLasts(s: Stanza)
    requires OneLine(s.filename)
    ensures Lasting(s, Filename)
  {
  }

  lemma SurvivingNames(idx: seq<Stanza>, paras: seq<Para>, text: string, paths: set<string>)
    requires AllPrintableStanzas(idx) && Serializes(idx, paras, text)
    requires NamesOnly(idx, paths) && forall x :: x in paths ==> OneLine(x)
    ensures TextNames(text, paths)
  {
    forall back | CanParseIndex(text, back) ensures NamesOnly(back, paths) {
      IndexSurvives(idx, paras, text, back);
      forall s: Stanza | s in back ensures s.filename in paths {
        var i :| 0 <= i < |back| && back[i] == s;
        assert idx[i] in idx;
        FilenameLasts(idx[i]);
        assert SameIn(idx[i], back[i], Filename);
      }
    }
  }

  lemma PathsAreOneLine(store: Store)
    ensures forall x :: x in PoolPaths(store) ==> OneLine(x)
  {
    forall x | x in PoolPaths(store) ensures OneLine(x) {
      var p :| p in store && p.Pool? && Legal(p) && x == PathOf(p);
      PoolPathIsOneLine(p);
    }
  }

  lemma MergedIsPrintable(t: Tools, job: Job, arch: string, found: seq<Stanza>, sorted: seq<Stanza>)
    requires GoodTools(t) && GoodJob(job) && AllPrintableStanzas(found)
    requires IsSortOf(sorted, AddAll(found, Group(t, job, arch), job.preserve))
    ensures AllPrintableStanzas(sorted)
    ensures forall s :: s in sorted ==> s in found || s in Group(t, job, arch)
  {
    GroupIsPrintable(t, job, arch);
    AddAllMembers(found, Group(t, job, arch), job.preserve);
    SameMembers(sorted, AddAll(found, Group(t, job, arch), job.preserve));
  }

  lemma FoundIsPrintable(store: Store, place: Place, found: seq<Stanza>)
    requires Found(store, place, found)
    ensures AllPrintableStanzas(found)
  {
    if place in store { ReadingIsPrintable(store[place], found); }
  }

  lemma MergeNames(t: Tools, store: Store, job: Job, arch: string, found: seq<Stanza>, sorted: seq<Stanza>,
                   paras: seq<Para>, text: string)
    requires GoodTools(t) && GoodJob(job) && Uploaded(store, job, |job.batch|)
    requires AllPrintableStanzas(found) && NamesOnly(found, PoolPaths(store))
    requires Merges(t, job, arch, found, sorted, paras, text)
    ensures TextNames(text, PoolPaths(store))
  {
    MergedIsPrintable(t, job, arch, found, sorted);
    GroupNames(t, store, job, arch);
    PathsAreOneLine(store);
    SurvivingNames(sorted, paras, text, PoolPaths(store));
  }

  // ----- steps -----

  /** Nothing deletes from the pool. */
  lemma PoolGrows(t: Tools, r: Repo, m: Move, r': Repo)
    requires Next(t, r, m, r')
    ensures r.store.Keys <= r'.store.Keys && PoolPaths(r.store) <= PoolPaths(r'.store)
  {
  }

  lemma NamesGrow(text: string, paths: set<string>, paths': set<string>)
    requires TextNames(text, paths) && paths <= paths'
    ensures TextNames(text, paths')
  {
    forall idx | CanParseIndex(text, idx) ensures NamesOnly(idx, paths') { assert NamesOnly(idx, paths); }
  }

  lemma StageKept(store: Store, store': Store, job: Job, stage: Stage)
    requires StageNames(store, job, stage) && store.Keys <= store'.Keys && PoolPaths(store) <= PoolPaths(store')
    ensures StageNames(store', job, stage)
  {
    if stage.Writing? { NamesGrow(stage.text, PoolPaths(store), PoolPaths(store')); }
  }

  lemma LoadNames(t: Tools, store: Store, pub: Publisher, a: Action)
    requires GoodTools(t) && GoodJob(pub.job) && Integrity(t, store) && StageNames(store, pub.job, pub.stage)
    requires CanAct(t, store, pub, a) && (a.Load? || a.LoadTorn?)
    ensures StageNames(store, pub.job, StageAfter(t, store, pub, a))
  {
    var job, arch := pub.job, pub.stage.todo[0];
    var place := IndexPlace(job, arch, Plain);
    var found := if a.Load? then a.found else [];
    if a.Load? {
      FoundIsPrintable(store, place, found);
      if place in store {
        assert PlaceNames(t, store, place);
        assert t.unpack(Plain, t.pack(Plain, store[place])) == store[place];
      }
    }
    MergeNames(t, store, job, arch, found, a.sorted, a.paras, a.text);
  }

  lemma OwnStageNames(t: Tools, r: Repo, m: Move, r': Repo)
    requires GoodTools(t) && IntegrityInv(t, r) && Next(t, r, m, r')
    ensures PublisherNames(r', m.worker)
  {
    PoolGrows(t, r, m, r');
    if !m.action.Begin? {
      var pub := r.publishers[m.worker];
      assert PublisherNames(r, m.worker);
      if m.action.Load? || m.action.LoadTorn? {
        LoadNames(t, r.store, pub, m.action);
      } else {
        StageKept(r.store, r'.store, pub.job, pub.stage);
      }
    }
  }

  lemma WrittenNames(t: Tools, r: Repo, m: Move, r': Repo, p: Place)
    requires GoodTools(t) && IntegrityInv(t, r) && Next(t, r, m, r')
    ensures PlaceNames(t, r'.store, p)
  {
    PoolGrows(t, r, m, r');
    if p in r'.store && p.Index? {
      if m.action.WriteIndex?
          && p == IndexPlace(r.publishers[m.worker].job, r.publishers[m.worker].stage.arch,
                             ExtAt(r.publishers[m.worker].stage.written)) {
        assert PublisherNames(r, m.worker);
        NamesGrow(r.publishers[m.worker].stage.text, PoolPaths(r.store), PoolPaths(r'.store));
      } else {
        assert p in r.store && r'.store[p] == r.store[p];
        assert PlaceNames(t, r.store, p);
        NamesGrow(t.unpack(p.ext, r.store[p]), PoolPaths(r.store), PoolPaths(r'.store));
      }
    }
  }

  lemma IntegrityStep(t: Tools, r: Repo, m: Move, r': Repo)
    requires GoodTools(t) && IntegrityInv(t, r) && Next(t, r, m, r')
    ensures IntegrityInv(t, r')
  {
    forall p: Place ensures PlaceNames(t, r'.store, p) { WrittenNames(t, r, m, r', p); }
    forall w ensures PublisherNames(r', w) {
      if w == m.worker {
        OwnStageNames(t, r, m, r');
      } else if w in r.publishers {
        assert PublisherNames(r, w);
        PoolGrows(t, r, m, r');
        StageKept(r.store, r'.store, r.publishers[w].job, r.publishers[w].stage);
      }
    }
  }

  lemma {:induction false} IntegrityRun(t: Tools, states: seq<Repo>, moves: seq<Move>, n: nat)
    requires GoodTools(t) && IsRun(t, states, moves) && Integrity(t, states[0].store) && n < |states|
    ensures IntegrityInv(t, states[n])
  {
    if n > 0 {
      IntegrityRun(t, states, moves, n - 1);
      IntegrityStep(t, states[n - 1], moves[n - 1], states[n]);
    }
  }

  /** In every run, stopped anywhere: whatever a reader makes of a stored index, the file of every
      stanza is in the pool. */
  lemma ReferentialIntegrity(t: Tools, states: seq<Repo>, moves: seq<Move>)
    requires GoodTools(t) && IsRun(t, states, moves) && Integrity(t, states[0].store)
    ensures forall n, p: Place, idx, s: Stanza ::
      0 <= n < |states| && p in states[n].store && p.Index?
      && CanParseIndex(t.unpack(p.ext, states[n].store[p]), idx) && s in idx ==>
        exists f: Place :: f in states[n].store && f.Pool? && Legal(f) && PathOf(f) == s.filename
  {
    forall n, p: Place, idx, s: Stanza |
      0 <= n < |states| && p in states[n].store && p.Index?
      && CanParseIndex(t.unpack(p.ext, states[n].store[p]), idx) && s in idx
      ensures exists f: Place :: f in states[n].store && f.Pool? && Legal(f) && PathOf(f) == s.filename
    {
      IntegrityRun(t, states, moves, n);
      assert PlaceNames(t, states[n].store, p);
      assert NamesOnly(idx, PoolPaths(states[n].store));
    }
  }
}
