/** PublishDebFiles as the code runs it: sort, lock, upload, group, merge and write the indexes,
    write the Release file, unlock. Whatever the other publishers do meanwhile, every change it
    makes is a step of the protocol, taken while it holds the lock, and the lock is given back on
    every path. */
module PublisherCode {
  import opened Text
  import opened Sorting
  import opened Deb822
  import opened Stanzas
  import opened PackageIndex
  import opened IndexRoundTrip
  import opened Paths
  import opened PublishProtocol
  import opened VersionOrder
  import opened SharedWorld
  import opened StorageCode
  import R = Release
  import IC = IndexCode
  import L = LockProtocol
  import LC = LockerCode

  function CompareItems(a: Candidate, b: Candidate): int {
    CompareControls(a.control, b.control)
  }

  function AsStanza(c: Candidate): Stanza {
    Stanza(c.control, "", 0, "", "", "", "")
  }

  lemma ItemsAreLegal()
    ensures Sorting.Legal(CompareItems)
  {
    IC.StanzasAreLegal();
    forall a, b ensures CompareItems(a, b) <= 0 || CompareItems(b, a) <= 0 {
      assert CompareCandidates(AsStanza(a), AsStanza(b)) <= 0 || CompareCandidates(AsStanza(b), AsStanza(a)) <= 0;
    }
    forall a, b, c | CompareItems(a, b) <= 0 && CompareItems(b, c) <= 0 ensures CompareItems(a, c) <= 0 {
      assert CompareCandidates(AsStanza(a), AsStanza(b)) <= 0 && CompareCandidates(AsStanza(b), AsStanza(c)) <= 0;
      assert CompareCandidates(AsStanza(a), AsStanza(c)) <= 0;
    }
  }

  /** Packages and architectures in byte order, and of each the older version first. */
  predicate OlderFirst(a: Control, b: Control) {
    && Compare(a.package, b.package) <= 0
    && (a.package == b.package ==> Compare(a.architecture, b.architecture) <= 0)
    && (a.package == b.package && a.architecture == b.architecture ==> CompareVersions(a.version, b.version) <= 0)
  }

  /** Oldest versions first, so that the newest of a batch wins. */
  method SortBatch(files: seq<Candidate>) returns (items: seq<Candidate>)
    ensures multiset(items) == multiset(files)
    ensures forall i, j :: 0 <= i < j < |items| ==> CompareControls(items[i].control, items[j].control) <= 0
    ensures forall i, j :: 0 <= i < j < |items| ==> OlderFirst(items[i].control, items[j].control)
  {
    ItemsAreLegal();
    items := SortFunc(files, CompareItems);
    forall i, j | 0 <= i < j < |items|
      ensures CompareControls(items[i].control, items[j].control) <= 0
      ensures OlderFirst(items[i].control, items[j].control)
    {
      assert CompareItems(items[i], items[j]) <= 0;
      BatchOrder(items[i].control, items[j].control);
    }
  }

  lemma GroupStep(t: Tools, job: Job, arch: string, i: nat)
    requires GoodJob(job) && i < |job.batch|
    ensures GoodCandidate(job.component, job.batch[i])
    ensures GroupOf(t, job, arch, i + 1)
         == if job.batch[i].control.architecture == arch
             then GroupOf(t, job, arch, i) + [StanzaOf(t, job.component, job.batch[i])]
            else GroupOf(t, job, arch, i)
  {
    assert job.batch[i] in job.batch;
    assert GroupOf(t, job, arch, i) + [] == GroupOf(t, job, arch, i);
  }

  function StanzasAt(groups: map<string, seq<Stanza>>, a: string): seq<Stanza> {
    if a in groups then groups[a] else []
  }

  /** The groups of the first i files. */
  ghost predicate GroupsMatch(t: Tools, job: Job, groups: map<string, seq<Stanza>>, i: nat)
    requires GoodJob(job) && i <= |job.batch|
  {
    forall a :: StanzasAt(groups, a) == GroupOf(t, job, a, i)
  }

  /** There is one for every architecture met so far, and no other. */
  ghost predicate ArchsMatch(job: Job, groups: map<string, seq<Stanza>>, i: nat)
    requires i <= |job.batch|
  {
    && (forall a :: a in groups ==> HasArch(job, a))
    && (forall k :: 0 <= k < i ==> job.batch[k].control.architecture in groups)
  }

  lemma GroupsStep(t: Tools, job: Job, groups: map<string, seq<Stanza>>, i: nat, s: Stanza)
    requires GoodJob(job) && i < |job.batch| && GroupsMatch(t, job, groups, i)
    requires GoodCandidate(job.component, job.batch[i]) && s == StanzaOf(t, job.component, job.batch[i])
    ensures GroupsMatch(t, job, groups[s.control.architecture := StanzasAt(groups, s.control.architecture) + [s]],
                        i + 1)
  {
    var groups' := groups[s.control.architecture := StanzasAt(groups, s.control.architecture) + [s]];
    var n := i + 1;
    forall a ensures StanzasAt(groups', a) == GroupOf(t, job, a, n) {
      GroupStep(t, job, a, i);
      assert StanzasAt(groups, a) == GroupOf(t, job, a, i);
    }
  }

  lemma ArchsStep(job: Job, groups: map<string, seq<Stanza>>, i: nat, stanzas: seq<Stanza>)
    requires i < |job.batch| && ArchsMatch(job, groups, i)
    ensures ArchsMatch(job, groups[job.batch[i].control.architecture := stanzas], i + 1)
  {
    assert job.batch[i] in job.batch;
    assert HasArch(job, job.batch[i].control.architecture);
  }

  lemma BatchIndex(job: Job, arch: string) returns (k: nat)
    requires HasArch(job, arch)
    ensures k < |job.batch| && job.batch[k].control.architecture == arch
  {
    var c :| c in job.batch && c.control.architecture == arch;
    k :| k < |job.batch| && job.batch[k] == c;
  }

  lemma AllGrouped(t: Tools, job: Job, groups: map<string, seq<Stanza>>)
    requires GoodJob(job) && GroupsMatch(t, job, groups, |job.batch|) && ArchsMatch(job, groups, |job.batch|)
    ensures forall a :: a in groups <==> HasArch(job, a)
    ensures forall a :: a in groups ==> groups[a] == Group(t, job, a)
  {
    forall a | HasArch(job, a) ensures a in groups { var k := BatchIndex(job, a); }
    forall a | a in groups ensures groups[a] == Group(t, job, a) {
      assert StanzasAt(groups, a) == GroupOf(t, job, a, |job.batch|);
    }
  }

  /** The paths of the files uploaded so far. */
  ghost predicate PathsMatch(job: Job, paths: seq<string>)
    requires |paths| <= |job.batch|
  {
    forall i :: 0 <= i < |paths| ==>
      GoodCandidate(job.component, job.batch[i]) && paths[i] == PathOf(PoolPlace(job.component, job.batch[i].control))
  }

  lemma PathsSnoc(job: Job, paths: seq<string>)
    requires |paths| < |job.batch| && PathsMatch(job, paths) && GoodCandidate(job.component, job.batch[|paths|])
    ensures PathsMatch(job, paths + [PathOf(PoolPlace(job.component, job.batch[|paths|].control))])
  {
    var paths' := paths + [PathOf(PoolPlace(job.component, job.batch[|paths|].control))];
    forall i | 0 <= i < |paths'|
      ensures GoodCandidate(job.component, job.batch[i])
      ensures paths'[i] == PathOf(PoolPlace(job.component, job.batch[i].control))
    {
      if i < |paths| { assert paths'[i] == paths[i]; }
    }
  }

  lemma MergedIsStep(t: Tools, r: Repo, w: string, job: Job, arch: string, todo: seq<string>, sums: seq<R.Checksum>,
                     text: string, a: Action)
    requires GoodJob(job) && w in r.publishers && r.publishers[w] == Publisher(job, Indexing([arch] + todo, sums))
    requires (a.Load? && a.text == text) || (a.LoadTorn? && a.text == text)
    requires CanAct(t, r.store, Publisher(job, Indexing([arch] + todo, sums)), a)
    ensures Next(t, r, Move(w, a),
                 r.(publishers := r.publishers[w := Publisher(job, Writing(arch, text, 0, todo, sums))]))
  {
    assert ([arch] + todo)[1..] == todo;
  }

  /** found is what was read at p; nothing when the read broke off. */
  ghost predicate Loaded(store: Store, p: Place, torn: bool, found: seq<Stanza>) {
    if torn then p in store && found == [] else Found(store, p, found)
  }

  lemma IsMerge(t: Tools, job: Job, arch: string, found: seq<Stanza>, stanzas: seq<Stanza>, sorted: seq<Stanza>,
                paras: seq<Para>, text: string)
    requires GoodJob(job) && stanzas == Group(t, job, arch)
    requires IsSortOf(sorted, AddAll(found, stanzas, job.preserve)) && Serializes(sorted, paras, text)
    ensures Merges(t, job, arch, found, sorted, paras, text)
  {
  }

  lemma MergeIsEnabled(t: Tools, store: Store, job: Job, arch: string, todo: seq<string>, sums: seq<R.Checksum>,
                       found: seq<Stanza>, a: Action)
    requires GoodJob(job) && (a.Load? || a.LoadTorn?) && Merges(t, job, arch, found, a.sorted, a.paras, a.text)
    requires a.Load? ==> a.found == found && Found(store, IndexPlace(job, arch, Plain), found)
    requires a.LoadTorn? ==> found == [] && IndexPlace(job, arch, Plain) in store
    ensures CanAct(t, store, Publisher(job, Indexing([arch] + todo, sums)), a)
  {
  }

  lemma ReleaseIsEnabled(t: Tools, job: Job, order: seq<string>, sums: seq<R.Checksum>, archs: seq<string>, now: string,
                         listed: seq<R.Checksum>, text: string)
    requires GoodJob(job) && ArchOrder(job, order) && OneLine(now)
    requires forall a :: a in archs <==> a in order || a in job.config.architectures
    requires R.IsRelease(ManifestOf(job, archs, sums), now, listed, text)
    ensures PutsAt(t, job, Indexing([], sums), Activate(archs, now, listed, text), ReleaseFile(job.codename), text,
                   Finished)
  {
  }

  /** The candidates as stanzas, by architecture. */
  method GroupByArch(t: Tools, job: Job, paths: seq<string>) returns (groups: map<string, seq<Stanza>>)
    requires GoodJob(job) && |paths| == |job.batch| && PathsMatch(job, paths)
    ensures forall a :: a in groups <==> HasArch(job, a)
    ensures forall a :: a in groups ==> groups[a] == Group(t, job, a)
  {
    groups := map[];
    for i := 0 to |job.batch|
      invariant GroupsMatch(t, job, groups, i) && ArchsMatch(job, groups, i)
    {
      var c := job.batch[i];
      var stanza := Stanza(c.control, paths[i], |c.bytes|, t.hash(R.SHA256, c.bytes), t.hash(R.SHA512, c.bytes),
                           t.hash(R.SHA1, c.bytes), t.hash(R.MD5, c.bytes));
      GroupsStep(t, job, groups, i, stanza);
      ArchsStep(job, groups, i, StanzasAt(groups, c.control.architecture) + [stanza]);
      groups := groups[c.control.architecture := StanzasAt(groups, c.control.architecture) + [stanza]];
    }
    AllGrouped(t, job, groups);
  }

  /** Ranging over a map: some order of its keys. */
  method Range<T>(m: map<string, T>) returns (order: seq<string>)
    ensures Distinct(order) && forall k :: k in order <==> k in m
  {
    order := [];
    var left := m.Keys;
    while left != {}
      invariant left <= m.Keys && Distinct(order)
      invariant forall k :: k in order <==> k in m && k !in left
      decreases |left|
    {
      var k :| k in left;
      order := order + [k];
      left := left - {k};
    }
  }

  /** The architectures of the batch, then the configured ones that are missing. */
  method AllArchs(order: seq<string>, configured: seq<string>) returns (archs: seq<string>)
    ensures forall a :: a in archs <==> a in order || a in configured
  {
    archs := order;
    for i := 0 to |configured|
      invariant forall a :: a in archs <==> a in order || a in configured[..i]
    {
      assert configured[..i + 1] == configured[..i] + [configured[i]];
      if configured[i] !in archs { archs := archs + [configured[i]]; }
    }
    assert configured[..|configured|] == configured;
  }

  lemma AddAllStep(idx: seq<Stanza>, stanzas: seq<Stanza>, i: nat, preserve: bool)
    requires i < |stanzas|
    ensures AddAll(idx, stanzas[i..], preserve)
        == AddAll(AddOrUpdate(idx, stanzas[i], preserve), stanzas[i + 1..], preserve)
  {
    assert stanzas[i..][0] == stanzas[i] && stanzas[i..][1..] == stanzas[i + 1..];
  }

  /** Merging the group into the index, and writing the text. */
  method MergeAndSerialize(index: IC.Index, stanzas: seq<Stanza>, preserve: bool)
    returns (text: string, ghost paras: seq<Para>)
    modifies index
    ensures IsSortOf(index.packages, AddAll(old(index.packages), stanzas, preserve))
    ensures Serializes(index.packages, paras, text)
  {
    ghost var found := index.packages;
    assert stanzas[0..] == stanzas;
    for i := 0 to |stanzas|
      invariant AddAll(index.packages, stanzas[i..], preserve) == AddAll(found, stanzas, preserve)
    {
      AddAllStep(index.packages, stanzas, i, preserve);
      index.AddOrUpdate(stanzas[i], preserve);
    }
    assert stanzas[|stanzas|..] == [];
    text, paras := index.Serialize();
  }

  /** How a call ends. */
  datatype Outcome = Published | NoFiles | NotLocked(why: LC.AcquireResult) | CallFailed

  class Engine {
    const storage: Storage
    const locker: LC.Locker
    const lockEnabled: bool
    const codename: string
    const component: string
    const preserve: bool
    const config: R.Manifest

    constructor (storage: Storage, locker: LC.Locker, lockEnabled: bool, codename: string, component: string,
                 preserve: bool, config: R.Manifest)
      ensures this.storage == storage && this.locker == locker && this.lockEnabled == lockEnabled
      ensures this.codename == codename && this.component == component && this.preserve == preserve
      ensures this.config == config
    {
      this.storage, this.locker, this.lockEnabled := storage, locker, lockEnabled;
      this.codename, this.component, this.preserve, this.config := codename, component, preserve, config;
    }

    /** The last storage call is one of those since, and it has failed. */
    ghost predicate FailedNow(since: nat)
      reads storage.world
    {
      since < storage.world.calls && IsFailure(storage.world.LastFault())
    }

    /** Phase 1: every file goes to the pool. */
    method UploadAll(job: Job) returns (ok: bool, paths: seq<string>)
      requires storage.Open() && GoodJob(job) && storage.world.Mine(Publisher(job, Uploading(0)))
      modifies storage.world
      ensures storage.Open() && storage.world.SameStart() && old(storage.world.calls) <= storage.world.calls
      ensures ok ==> storage.world.Mine(Publisher(job, Uploading(|job.batch|)))
      ensures ok ==> |paths| == |job.batch| && PathsMatch(job, paths)
      ensures !ok ==> storage.world.Mine(Publisher(job, Failed)) && FailedNow(old(storage.world.calls))
    {
      paths := [];
      for i := 0 to |job.batch|
        invariant storage.Open() && storage.world.SameStart() && old(storage.world.calls) <= storage.world.calls
        invariant storage.world.Mine(Publisher(job, Uploading(i))) && |paths| == i && PathsMatch(job, paths)
      {
        var c := job.batch[i];
        assert c in job.batch && GoodCandidate(job.component, c);
        var place := PoolPlace(job.component, c.control);
        ok := storage.Put(place, c.bytes, job, Uploading(i + 1), Uploading(i), Upload);
        if !ok { return; }
        PathsSnoc(job, paths);
        paths := paths + [PathOf(place)];
      }
      ok := true;
    }

    /** The last storage call was a read of the index, and torn says whether it broke off. */
    ghost predicate ReadNow(arch: string, job: Job, torn: bool)
      reads storage.world
    {
      && !IsFailure(storage.world.LastFault())
      && torn == (storage.world.LastFault() == BreaksOff && IndexPlace(job, arch, Plain) in storage.Objects())
    }

    /** The index as stored, or an empty one where there is none or the read broke off; any other error
        ends the publish. */
    method LoadIndex(job: Job, arch: string, ghost stage: Stage) returns (ok: bool, index: IC.Index, torn: bool)
      requires storage.Open() && GoodJob(job) && storage.world.Mine(Publisher(job, stage)) && stage.Indexing?
      modifies storage.world
      ensures storage.Open() && storage.world.SameStart() && fresh(index)
      ensures storage.world.calls == old(storage.world.calls) + 1 && ok == !IsFailure(storage.world.LastFault())
      ensures storage.world.Mine(Publisher(job, if ok then stage else Failed))
      ensures ok ==> ReadNow(arch, job, torn)
      ensures ok ==> Loaded(storage.Objects(), IndexPlace(job, arch, Plain), torn, index.packages)
    {
      index := new IC.Index();
      torn := false;
      var got := storage.Get(IndexPlace(job, arch, Plain));
      match got
      case Object(text) =>
        index := IC.ParseIndex(text);
        ok := true;
      case NotFound =>
        ok := true;
      case Torn =>
        torn := true;
        ok := true;
      case GetError =>
        storage.Abort(job, stage);
        ok := false;
    }

    /** All variants of one index, plain first; every one adds its checksum. */
    method WriteVariants(job: Job, arch: string, text: string, todo: seq<string>, sums: seq<R.Checksum>)
      returns (ok: bool, sums': seq<R.Checksum>)
      requires storage.Open() && GoodJob(job) && storage.world.Mine(Publisher(job, Writing(arch, text, 0, todo, sums)))
      modifies storage.world
      ensures storage.Open() && storage.world.SameStart() && old(storage.world.calls) <= storage.world.calls
      ensures storage.world.Mine(Publisher(job, if ok then Indexing(todo, sums') else Failed))
      ensures !ok ==> FailedNow(old(storage.world.calls))
    {
      sums' := sums;
      for n := 0 to 4
        invariant storage.Open() && storage.world.SameStart() && old(storage.world.calls) <= storage.world.calls
        invariant storage.world.Mine(Publisher(job, if n < 4 then Writing(arch, text, n, todo, sums')
                                               else Indexing(todo, sums')))
      {
        var ext := ExtAt(n);
        var data := storage.world.setting.tools.pack(ext, text);
        var stage := Writing(arch, text, n, todo, sums');
        ok := storage.Put(IndexPlace(job, arch, ext), data, job,
                          StageAfterWrite(storage.world.setting.tools, job, stage), stage, WriteIndex);
        if !ok { return; }
        sums' := sums' + [ChecksumOf(storage.world.setting.tools, job.component, arch, ext, data)];
      }
      ok := true;
    }

    /** The new text is decided on what was just read. */
    method Merged(job: Job, arch: string, todo: seq<string>, sums: seq<R.Checksum>, text: string,
                  ghost found: seq<Stanza>, ghost torn: bool, ghost sorted: seq<Stanza>, ghost paras: seq<Para>)
      requires storage.Open() && GoodJob(job) && storage.world.Mine(Publisher(job, Indexing([arch] + todo, sums)))
      requires Loaded(storage.Objects(), IndexPlace(job, arch, Plain), torn, found)
      requires Merges(storage.world.setting.tools, job, arch, found, sorted, paras, text)
      requires ReadNow(arch, job, torn)
      modifies storage.world`joint, storage.world`history
      ensures storage.Open() && storage.world.SameStart()
      ensures storage.world.Mine(Publisher(job, Writing(arch, text, 0, todo, sums)))
    {
      ghost var a := if torn then LoadTorn(sorted, paras, text) else Load(found, sorted, paras, text);
      MergeIsEnabled(storage.world.setting.tools, storage.Objects(), job, arch, todo, sums, found, a);
      MergedIsStep(storage.world.setting.tools, storage.world.joint.repo, storage.world.me, job, arch, todo, sums,
                   text, a);
      storage.Do(job, storage.Objects(), Writing(arch, text, 0, todo, sums), a);
    }

    /** The new text of an index: what was read, merged with the group of the batch. */
    method MergeLoaded(job: Job, arch: string, stanzas: seq<Stanza>, todo: seq<string>, sums: seq<R.Checksum>,
                       index: IC.Index, ghost torn: bool)
      returns (text: string)
      requires storage.Open() && GoodJob(job) && storage.world.Mine(Publisher(job, Indexing([arch] + todo, sums)))
      requires stanzas == Group(storage.world.setting.tools, job, arch)
      requires Loaded(storage.Objects(), IndexPlace(job, arch, Plain), torn, index.packages)
      requires ReadNow(arch, job, torn)
      modifies index, storage.world`joint, storage.world`history
      ensures storage.Open() && storage.world.SameStart()
      ensures storage.world.Mine(Publisher(job, Writing(arch, text, 0, todo, sums)))
    {
      ghost var found, paras := index.packages, [];
      text, paras := MergeAndSerialize(index, stanzas, job.preserve);
      IsMerge(storage.world.setting.tools, job, arch, found, stanzas, index.packages, paras, text);
      Merged(job, arch, todo, sums, text, found, torn, index.packages, paras);
    }

    /** One round of phase 2. */
    method UpdateIndex(job: Job, arch: string, stanzas: seq<Stanza>, todo: seq<string>, sums: seq<R.Checksum>)
      returns (ok: bool, sums': seq<R.Checksum>)
      requires storage.Open() && GoodJob(job) && storage.world.Mine(Publisher(job, Indexing([arch] + todo, sums)))
      requires stanzas == Group(storage.world.setting.tools, job, arch)
      modifies storage.world
      ensures storage.Open() && storage.world.SameStart() && old(storage.world.calls) <= storage.world.calls
      ensures storage.world.Mine(Publisher(job, if ok then Indexing(todo, sums') else Failed))
      ensures !ok ==> FailedNow(old(storage.world.calls))
    {
      sums' := sums;
      var index, torn;
      ok, index, torn := LoadIndex(job, arch, Indexing([arch] + todo, sums));
      if !ok { return; }
      var text := MergeLoaded(job, arch, stanzas, todo, sums, index, torn);
      ok, sums' := WriteVariants(job, arch, text, todo, sums);
    }

    /** Phase 2: every architecture of the batch, in the order the runtime picks. */
    method UpdateAll(job: Job, groups: map<string, seq<Stanza>>, order: seq<string>)
      returns (ok: bool, sums: seq<R.Checksum>)
      requires storage.Open() && GoodJob(job) && storage.world.Mine(Publisher(job, Indexing(order, [])))
      requires forall a :: a in order ==> a in groups && groups[a] == Group(storage.world.setting.tools, job, a)
      modifies storage.world
      ensures storage.Open() && storage.world.SameStart() && old(storage.world.calls) <= storage.world.calls
      ensures storage.world.Mine(Publisher(job, if ok then Indexing([], sums) else Failed))
      ensures !ok ==> FailedNow(old(storage.world.calls))
    {
      sums := [];
      assert order[0..] == order;
      for i := 0 to |order|
        invariant storage.Open() && storage.world.SameStart() && old(storage.world.calls) <= storage.world.calls
        invariant storage.world.Mine(Publisher(job, Indexing(order[i..], sums)))
      {
        Rest(order, i);
        ok, sums := UpdateIndex(job, order[i], groups[order[i]], order[i + 1..], sums);
        if !ok { return; }
      }
      assert order[|order|..] == [];
      ok := true;
    }

    /** Phase 3: the Release file. */
    method ActivateRelease(job: Job, order: seq<string>, sums: seq<R.Checksum>, now: string) returns (ok: bool)
      requires storage.Open() && GoodJob(job) && storage.world.Mine(Publisher(job, Indexing([], sums)))
      requires ArchOrder(job, order) && OneLine(now)
      modifies storage.world
      ensures storage.Open() && storage.world.calls == old(storage.world.calls) + 1
      ensures ok == !IsFailure(storage.world.LastFault())
      ensures storage.world.Did([Released(now)]) || (!ok && storage.world.SameStart())
      ensures storage.world.Mine(Publisher(job, Finished)) || (!ok && storage.world.Mine(Publisher(job, Failed)))
    {
      var archs := AllArchs(order, job.config.architectures);
      var text, listed := R.GenerateRelease(ManifestOf(job, archs, sums), now);
      ReleaseIsEnabled(storage.world.setting.tools, job, order, sums, archs, now, listed, text);
      ok := storage.Put(ReleaseFile(job.codename), text, job, Finished, Indexing([], sums),
                        Activate(archs, now, listed, text));
    }

    /** One publish of a sorted batch. */
    method PublishBatch(job: Job, now: string) returns (ok: bool)
      requires storage.Open() && GoodJob(job) && !Active(storage.world.joint.repo, storage.world.me) && OneLine(now)
      modifies storage.world
      ensures storage.Open() && old(storage.world.calls) <= storage.world.calls
      ensures storage.world.Did([Begun(job), Released(now)]) || (!ok && storage.world.Did([Begun(job)]))
      ensures storage.world.Mine(Publisher(job, Finished)) || (!ok && storage.world.Mine(Publisher(job, Failed)))
      ensures !ok ==> FailedNow(old(storage.world.calls))
    {
      storage.Do(job, storage.Objects(), Uploading(0), Begin(job));
      ok := RunPhases(job, now);
      assert [Begun(job)] + [Released(now)] == [Begun(job), Released(now)];
    }

    /** The three phases. */
    method RunPhases(job: Job, now: string) returns (ok: bool)
      requires storage.Open() && GoodJob(job) && storage.world.Mine(Publisher(job, Uploading(0))) && OneLine(now)
      modifies storage.world
      ensures storage.Open() && old(storage.world.calls) <= storage.world.calls
      ensures storage.world.Did([Released(now)]) || (!ok && storage.world.SameStart())
      ensures storage.world.Mine(Publisher(job, Finished)) || (!ok && storage.world.Mine(Publisher(job, Failed)))
      ensures !ok ==> FailedNow(old(storage.world.calls))
    {
      var paths, sums;
      ok, paths := UploadAll(job);
      if !ok { return; }
      var groups := GroupByArch(storage.world.setting.tools, job, paths);
      var order := Range(groups);
      StartIndexing(job, order);
      ok, sums := UpdateAll(job, groups, order);
      if !ok { return; }
      ok := ActivateRelease(job, order, sums, now);
    }

    method StartIndexing(job: Job, order: seq<string>)
      requires storage.Open() && GoodJob(job) && storage.world.Mine(Publisher(job, Uploading(|job.batch|)))
      requires ArchOrder(job, order)
      modifies storage.world`joint, storage.world`history
      ensures storage.Open() && storage.world.SameStart()
      ensures storage.world.Mine(Publisher(job, Indexing(order, [])))
    {
      storage.Do(job, storage.Objects(), Indexing(order, []), GroupArchs(order));
    }

    /** The engine is set up for the codename of the lock, and takes the lock if publishes do. */
    ghost predicate Valid()
      reads locker, locker.world, locker.heartbeatCh
    {
      && locker.Valid() && storage.world == locker.world
      && codename == locker.world.setting.codename && lockEnabled == locker.world.setting.locking
    }

    /** The whole call. The batch is sorted before the lock is taken. Every step the call takes as a
        publisher is a step of the joint protocol, so it is taken while holding the lock, where
        publishes take it; and it begins one publish, that of the sorted batch, and releases it with the
        date given, unless it has no files or does not get the lock. If it succeeds that publish is
        finished, and it fails only when a storage call fails; on every path the publish is over and the
        lock is given back. An index is taken for empty only where a read of it broke off. */
    method PublishDebFiles(files: seq<Candidate>, now: string) returns (r: Outcome, ghost job: Job)
      requires Valid() && locker.world.Pc() == L.Idle && OneLine(now)
      requires !Active(storage.world.joint.repo, storage.world.me)
      requires Element(codename) && Element(component) && forall c :: c in files ==> GoodCandidate(component, c)
      modifies locker, locker.world, locker.heartbeatCh
      ensures Valid() && locker.world.Pc() == L.Idle && !Active(storage.world.joint.repo, storage.world.me)
      ensures GoodJob(job) && SortedBatch(job) && multiset(job.batch) == multiset(files)
      ensures job == Job(codename, component, preserve, config, job.batch)
      ensures match r
              case Published => storage.world.Did([Begun(job), Released(now)])
              case CallFailed => storage.world.Did([Begun(job), Released(now)]) || storage.world.Did([Begun(job)])
              case _ => storage.world.SameStart()
      ensures r == Published ==> storage.world.Mine(Publisher(job, Finished))
      ensures r == NoFiles <==> files == []
      ensures r == CallFailed ==> storage.world.FailedSince(old(storage.world.calls))
      ensures r.NotLocked? ==> lockEnabled && WhyNot(r.why)
      ensures r.NotLocked? ==>
        exists found, looks :: locker.AcquireDoes(old(storage.world.Clock()), old(storage.world.Tally()),
                                                  storage.world.Tally(), found, looks, r.why, storage.world.Clock())
      ensures NoBrokenRead(storage.world.fate, storage.world.calls)
          ==> NeverTorn(storage.world.history, storage.world.me)
    {
      var items := SortBatch(files);
      var work := Job(codename, component, preserve, config, items);
      job := work;
      SortedIsGood(files, items, component);
      CarefulSoFar();
      if |files| == 0 { return NoFiles, job; }
      if lockEnabled {
        var got, found, looks := locker.Acquire();
        if got != LC.Acquired {
          CarefulSoFar();
          return NotLocked(got), job;
        }
      }
      var ok := PublishAndRelease(work, now);
      CarefulSoFar();
      r := if ok then Published else CallFailed;
    }

    /** The work under the lock, which is given back whatever comes of it. */
    method PublishAndRelease(job: Job, now: string) returns (ok: bool)
      requires Valid() && storage.Open() && GoodJob(job) && job.codename == codename && OneLine(now)
      requires !Active(storage.world.joint.repo, storage.world.me)
      modifies locker, locker.world, locker.heartbeatCh
      ensures Valid() && locker.world.Pc() == L.Idle && !Active(storage.world.joint.repo, storage.world.me)
      ensures storage.world.Did([Begun(job), Released(now)]) || (!ok && storage.world.Did([Begun(job)]))
      ensures old(storage.world.calls) <= storage.world.calls
      ensures ok ==> storage.world.Mine(Publisher(job, Finished))
      ensures !ok ==> storage.world.FailedSince(old(storage.world.calls))
    {
      ok := PublishBatch(job, now);
      ghost var last := storage.world.calls;
      assert !ok ==> IsFailure(storage.world.fate.faults(last - 1));
      if lockEnabled {
        var _, _ := locker.Release();
      }
    }

    /** Why the lock was not acquired. */
    predicate WhyNot(why: LC.AcquireResult)
      reads storage.world
    {
      match why
      case Acquired => false
      case TimedOut => true
      case Cancelled => storage.world.Done()
      case StorageError => IsFailure(storage.world.LastFault())
    }

    lemma CarefulSoFar()
      requires storage.world.Valid()
      ensures NoBrokenRead(storage.world.fate, storage.world.calls)
          ==> NeverTorn(storage.world.history, storage.world.me)
    {
      if NoBrokenRead(storage.world.fate, storage.world.calls) {
        HonestIsNeverTorn(storage.world.fate, storage.world.me, storage.world.history, storage.world.calls);
      }
    }
  }

  lemma Rest(order: seq<string>, i: nat)
    requires i < |order|
    ensures [order[i]] + order[i + 1..] == order[i..] && order[i] in order
  {
  }

  lemma SortedIsGood(files: seq<Candidate>, items: seq<Candidate>, component: string)
    requires multiset(items) == multiset(files) && forall c :: c in files ==> GoodCandidate(component, c)
    ensures forall c :: c in items ==> GoodCandidate(component, c)
  {
    forall c | c in items ensures GoodCandidate(component, c) {
      assert c in multiset(items);
    }
  }
}
