/** How far a publish has come, while publishers of other codenames go on: its finished indexes
    hold the merge of what was stored when it began, and its checksums are those of the store. */
module PublishProgress {
  import opened Text
  import opened Deb822
  import opened Stanzas
  import R = Release
  import opened Paths
  import opened PublishProtocol
  import opened MergeAgreement

  // ----- how far a publish has come -----

  function ExtNumber(e: Ext): nat {
    match e case Plain => 0 case Gz => 1 case Bz2 => 2 case Xz => 3
  }

  /** The index of arch and ext is among the first k architectures, or the first n variants of the next. */
  predicate Done(order: seq<string>, k: nat, n: nat, arch: string, ext: Ext)
    requires k <= |order|
  {
    arch in order[..k] || (k < |order| && arch == order[k] && ExtNumber(ext) < n)
  }

  predicate OfJob(job: Job, p: Place) {
    p.Index? && p.codename == job.codename && p.component == job.component
  }

  /** What was stored when the publish began, and whether a read of it broke off. */
  datatype Base = Base(store: Store, torn: bool)

  /** found is what was stored at p; a read that breaks off may find nothing where something is. */
  ghost predicate Got(start: Base, p: Place, found: seq<Stanza>) {
    Found(start.store, p, found) || (start.torn && p in start.store && found == [])
  }

  /** The text merges the group of the batch into what was found of it. */
  ghost predicate MergedFrom(t: Tools, start: Base, job: Job, arch: string, text: string)
    requires GoodJob(job)
  {
    exists found, sorted, paras ::
      Got(start, IndexPlace(job, arch, Plain), found) && Merges(t, job, arch, found, sorted, paras, text)
  }

  /** What is known of one place: finished indexes hold the merge, and the other indexes of the
      codename are as they were. The pool is shared with other codenames. */
  ghost predicate PlaceProgress(t: Tools, start: Base, job: Job, store: Store, order: seq<string>, k: nat, n: nat,
                                p: Place)
    requires GoodJob(job) && k <= |order|
  {
    p.Index? && p.codename == job.codename ==>
      if OfJob(job, p) && Done(order, k, n, p.architecture, p.ext) then
        p in store && MergedFrom(t, start, job, p.architecture, t.unpack(p.ext, store[p]))
      else SameAt(start.store, store, p)
  }

  ghost predicate Progress(t: Tools, start: Base, job: Job, store: Store, order: seq<string>, k: nat, n: nat)
    requires GoodJob(job)
  {
    && ArchOrder(job, order) && k <= |order| && n <= 4 && (n > 0 ==> k < |order|)
    && forall p: Place :: PlaceProgress(t, start, job, store, order, k, n, p)
  }

  /** The places of a codename that publishers of other codenames never write. */
  predicate OwnPlace(codename: string, p: Place) {
    !p.Pool? && p.codename == codename
  }

  ghost predicate SameIndexes(codename: string, store: Store, store': Store) {
    forall p: Place :: OwnPlace(codename, p) ==> SameAt(store, store', p)
  }

  function At(store: Store, p: Place): string {
    if p in store then store[p] else ""
  }

  /** The checksums of the first n variants of one architecture, as stored. */
  function SumsOf(t: Tools, job: Job, store: Store, arch: string, n: nat): seq<R.Checksum>
    requires n <= 4
  {
    if n == 0 then []
    else SumsOf(t, job, store, arch, n - 1)
         + [ChecksumOf(t, job.component, arch, ExtAt(n - 1), At(store, IndexPlace(job, arch, ExtAt(n - 1))))]
  }

  /** Those of all variants of the first k architectures. */
  function SumsFor(t: Tools, job: Job, store: Store, order: seq<string>, k: nat): seq<R.Checksum>
    requires k <= |order|
  {
    if k == 0 then [] else SumsFor(t, job, store, order, k - 1) + SumsOf(t, job, store, order[k - 1], 4)
  }

  function SumsUpTo(t: Tools, job: Job, store: Store, order: seq<string>, k: nat, n: nat): seq<R.Checksum>
    requires k <= |order| && n <= 4 && (n > 0 ==> k < |order|)
  {
    SumsFor(t, job, store, order, k) + if n == 0 then [] else SumsOf(t, job, store, order[k], n)
  }

  ghost predicate IndexingAt(t: Tools, start: Base, job: Job, store: Store, todo: seq<string>, sums: seq<R.Checksum>,
                             order: seq<string>, k: nat)
    requires GoodJob(job)
  {
    && Progress(t, start, job, store, order, k, 0)
    && todo == order[k..] && sums == SumsUpTo(t, job, store, order, k, 0)
  }

  ghost predicate WritingAt(t: Tools, start: Base, job: Job, store: Store, stage: Stage, order: seq<string>, k: nat)
    requires GoodJob(job) && stage.Writing?
  {
    && stage.written < 4 && Progress(t, start, job, store, order, k, stage.written)
    && k < |order| && stage.arch == order[k] && stage.todo == order[k + 1..]
    && MergedFrom(t, start, job, stage.arch, stage.text)
    && stage.sums == SumsUpTo(t, job, store, order, k, stage.written)
  }

  /** The stored Release file lists, sorted by path, the stored variants of every index of the job. */
  ghost predicate Released(t: Tools, job: Job, store: Store, order: seq<string>) {
    exists archs, now, listed ::
      && ListedArchs(job, archs) && OneLine(now)
      && R.IsRelease(ManifestOf(job, archs, SumsFor(t, job, store, order, |order|)), now, listed,
                     At(store, ReleaseFile(job.codename)))
  }

  ghost predicate Completed(t: Tools, start: Base, job: Job, store: Store, order: seq<string>)
    requires GoodJob(job)
  {
    Progress(t, start, job, store, order, |order|, 0) && Released(t, job, store, order)
  }

  ghost predicate StageProgress(t: Tools, start: Base, job: Job, store: Store, stage: Stage)
    requires GoodJob(job)
  {
    match stage
    case Uploading(n) => n <= |job.batch| && SameIndexes(job.codename, start.store, store)
    case Indexing(todo, sums) => exists order, k :: IndexingAt(t, start, job, store, todo, sums, order, k)
    case Writing(_, _, _, _, _) => exists order, k :: WritingAt(t, start, job, store, stage, order, k)
    case Finished => exists order :: Completed(t, start, job, store, order)
    case Failed => true
  }

  // ----- steps -----

  lemma GroupingProgress(t: Tools, start: Base, job: Job, store: Store, order: seq<string>)
    requires GoodJob(job) && ArchOrder(job, order) && SameIndexes(job.codename, start.store, store)
    ensures IndexingAt(t, start, job, store, order, [], order, 0)
  {
    forall p: Place ensures PlaceProgress(t, start, job, store, order, 0, 0, p) {
      assert OwnPlace(job.codename, p) ==> SameAt(start.store, store, p);
    }
    assert order[0..] == order;
  }

  lemma UploadKeeps(job: Job, start: Store, store: Store, f: Place, bytes: string)
    requires SameIndexes(job.codename, start, store) && f.Pool?
    ensures SameIndexes(job.codename, start, store[f := bytes])
  {
    forall p: Place | OwnPlace(job.codename, p) ensures SameAt(start, store[f := bytes], p) {
      assert SameAt(start, store, p);
    }
  }

  lemma NotBefore(order: seq<string>, k: nat)
    requires Distinct(order) && k < |order|
    ensures order[k] !in order[..k]
  {
    assert forall i :: 0 <= i < k ==> order[..k][i] == order[i] != order[k];
  }

  /** Nothing has touched the next index since the publish began. */
  lemma FoundAtStart(t: Tools, start: Base, job: Job, store: Store, order: seq<string>, k: nat, found: seq<Stanza>)
    requires GoodJob(job) && Progress(t, start, job, store, order, k, 0) && k < |order|
    requires Got(Base(store, start.torn), IndexPlace(job, order[k], Plain), found)
    ensures Got(start, IndexPlace(job, order[k], Plain), found)
  {
    NotBefore(order, k);
    assert PlaceProgress(t, start, job, store, order, k, 0, IndexPlace(job, order[k], Plain));
  }

  lemma LoadProgress(t: Tools, start: Base, job: Job, store: Store, todo: seq<string>, sums: seq<R.Checksum>,
                     order: seq<string>, k: nat,
                     found: seq<Stanza>, sorted: seq<Stanza>, paras: seq<Para>, text: string)
    requires GoodTools(t) && GoodJob(job)
    requires IndexingAt(t, start, job, store, todo, sums, order, k) && todo != []
    requires Got(Base(store, start.torn), IndexPlace(job, todo[0], Plain), found)
    requires Merges(t, job, todo[0], found, sorted, paras, text)
    ensures WritingAt(t, start, job, store, Writing(todo[0], text, 0, todo[1..], sums), order, k)
  {
    assert k < |order| && todo[0] == order[k] && todo[1..] == order[k + 1..];
    FoundAtStart(t, start, job, store, order, k, found);
  }

  lemma DoneMore(order: seq<string>, k: nat, n: nat, arch: string, ext: Ext)
    requires k < |order| && n < 4
    ensures Done(order, k, n + 1, arch, ext) <==> Done(order, k, n, arch, ext) || (arch == order[k] && ext == ExtAt(n))
  {
  }

  lemma DoneNext(order: seq<string>, k: nat, arch: string, ext: Ext)
    requires k < |order|
    ensures Done(order, k + 1, 0, arch, ext) <==> Done(order, k, 4, arch, ext)
  {
    assert order[..k + 1] == order[..k] + [order[k]];
  }

  lemma ProgressWrite(t: Tools, start: Base, job: Job, store: Store, order: seq<string>, k: nat, n: nat, text: string)
    requires GoodTools(t) && GoodJob(job) && Progress(t, start, job, store, order, k, n) && k < |order| && n < 4
    requires MergedFrom(t, start, job, order[k], text)
    ensures Progress(t, start, job, store[IndexPlace(job, order[k], ExtAt(n)) := t.pack(ExtAt(n), text)],
                     order, k, n + 1)
  {
    var q := IndexPlace(job, order[k], ExtAt(n));
    var store' := store[q := t.pack(ExtAt(n), text)];
    var n' := n + 1;
    forall p: Place ensures PlaceProgress(t, start, job, store', order, k, n', p) {
      assert PlaceProgress(t, start, job, store, order, k, n, p);
      if p.Index? { DoneMore(order, k, n, p.architecture, p.ext); }
      if p == q { assert t.unpack(p.ext, store'[p]) == text; }
    }
  }

  lemma ProgressNext(t: Tools, start: Base, job: Job, store: Store, order: seq<string>, k: nat)
    requires GoodJob(job) && Progress(t, start, job, store, order, k, 4)
    ensures Progress(t, start, job, store, order, k + 1, 0)
  {
    var k' := k + 1;
    forall p: Place ensures PlaceProgress(t, start, job, store, order, k', 0, p) {
      assert PlaceProgress(t, start, job, store, order, k, 4, p);
      if p.Index? { DoneNext(order, k, p.architecture, p.ext); }
    }
  }

  lemma {:induction false} SumsOfSame(t: Tools, job: Job, store: Store, store': Store, arch: string, n: nat)
    requires n <= 4 && forall i :: 0 <= i < n ==>
        At(store', IndexPlace(job, arch, ExtAt(i))) == At(store, IndexPlace(job, arch, ExtAt(i)))
    ensures SumsOf(t, job, store', arch, n) == SumsOf(t, job, store, arch, n)
  {
    if n > 0 { SumsOfSame(t, job, store, store', arch, n - 1); }
  }

  lemma {:induction false} SumsForSame(t: Tools, job: Job, store: Store, store': Store, order: seq<string>, k: nat)
    requires k <= |order|
    requires forall i, e :: 0 <= i < k ==>
        At(store', IndexPlace(job, order[i], e)) == At(store, IndexPlace(job, order[i], e))
    ensures SumsFor(t, job, store', order, k) == SumsFor(t, job, store, order, k)
  {
    if k > 0 {
      SumsForSame(t, job, store, store', order, k - 1);
      SumsOfSame(t, job, store, store', order[k - 1], 4);
    }
  }

  /** Writing a variant leaves the earlier ones, and adds its own checksum. */
  lemma SumsWrite(t: Tools, job: Job, store: Store, order: seq<string>, k: nat, n: nat, data: string)
    requires Distinct(order) && k < |order| && n < 4
    ensures var store' := store[IndexPlace(job, order[k], ExtAt(n)) := data];
      SumsUpTo(t, job, store', order, k, n + 1)
      == SumsUpTo(t, job, store, order, k, n) + [ChecksumOf(t, job.component, order[k], ExtAt(n), data)]
  {
    var store' := store[IndexPlace(job, order[k], ExtAt(n)) := data];
    SumsForSame(t, job, store, store', order, k);
    SumsOfSame(t, job, store, store', order[k], n);
    ConcatOne(SumsFor(t, job, store, order, k), SumsOf(t, job, store, order[k], n),
              ChecksumOf(t, job.component, order[k], ExtAt(n), data));
  }

  lemma ConcatOne(a: seq<R.Checksum>, b: seq<R.Checksum>, c: R.Checksum)
    ensures a + (b + [c]) == a + b + [c] && a + [] == a
  {
  }

  lemma SumsNext(t: Tools, job: Job, store: Store, order: seq<string>, k: nat)
    requires k < |order|
    ensures SumsUpTo(t, job, store, order, k + 1, 0) == SumsUpTo(t, job, store, order, k, 4)
  {
    assert SumsFor(t, job, store, order, k + 1) + [] == SumsFor(t, job, store, order, k + 1);
  }

  lemma LastWrite(t: Tools, start: Base, job: Job, store: Store, order: seq<string>, k: nat)
    requires GoodJob(job) && Progress(t, start, job, store, order, k, 4)
    ensures IndexingAt(t, start, job, store, order[k + 1..], SumsUpTo(t, job, store, order, k, 4), order, k + 1)
  {
    ProgressNext(t, start, job, store, order, k);
    SumsNext(t, job, store, order, k);
  }

  lemma WriteOne(t: Tools, start: Base, job: Job, store: Store, order: seq<string>, k: nat, n: nat, text: string,
                 store': Store)
    requires GoodTools(t) && GoodJob(job) && Progress(t, start, job, store, order, k, n) && k < |order| && n < 4
    requires MergedFrom(t, start, job, order[k], text)
    requires store' == store[IndexPlace(job, order[k], ExtAt(n)) := t.pack(ExtAt(n), text)]
    ensures Progress(t, start, job, store', order, k, n + 1)
    ensures SumsUpTo(t, job, store', order, k, n + 1)
         == SumsUpTo(t, job, store, order, k, n)
           + [ChecksumOf(t, job.component, order[k], ExtAt(n), t.pack(ExtAt(n), text))]
  {
    ProgressWrite(t, start, job, store, order, k, n, text);
    SumsWrite(t, job, store, order, k, n, t.pack(ExtAt(n), text));
  }

  /** An index is finished with its last variant. */
  lemma WriteLast(t: Tools, start: Base, job: Job, store: Store, stage: Stage, order: seq<string>, k: nat,
                  store': Store)
    requires GoodTools(t) && GoodJob(job) && stage.Writing? && stage.written == 3
    requires WritingAt(t, start, job, store, stage, order, k)
    requires store' == store[IndexPlace(job, stage.arch, ExtAt(stage.written)) :=
                             t.pack(ExtAt(stage.written), stage.text)]
    ensures StageProgress(t, start, job, store', StageAfterWrite(t, job, stage))
  {
    WriteOne(t, start, job, store, order, k, 3, stage.text, store');
    SumsAfterWrite(t, job, store, store', stage, order, k);
    FinishIndex(t, start, job, store', stage, order, k);
  }

  lemma FinishIndex(t: Tools, start: Base, job: Job, store: Store, stage: Stage, order: seq<string>, k: nat)
    requires GoodJob(job) && stage.Writing? && stage.written == 3 && Progress(t, start, job, store, order, k, 4)
    requires k < |order| && stage.todo == order[k + 1..]
    requires StageAfterWrite(t, job, stage).sums == SumsUpTo(t, job, store, order, k, 4)
    ensures StageProgress(t, start, job, store, StageAfterWrite(t, job, stage))
  {
    LastWrite(t, start, job, store, order, k);
    IsIndexing(t, start, job, store, stage.todo, StageAfterWrite(t, job, stage).sums, order, k + 1);
  }

  lemma SumsAfterWrite(t: Tools, job: Job, store: Store, store': Store, stage: Stage, order: seq<string>, k: nat)
    requires stage.Writing? && stage.written < 4 && k < |order| && stage.arch == order[k]
    requires stage.sums == SumsUpTo(t, job, store, order, k, stage.written)
    requires SumsUpTo(t, job, store', order, k, stage.written + 1)
          == SumsUpTo(t, job, store, order, k, stage.written)
             + [ChecksumOf(t, job.component, order[k], ExtAt(stage.written), t.pack(ExtAt(stage.written), stage.text))]
    ensures StageAfterWrite(t, job, stage).sums == SumsUpTo(t, job, store', order, k, stage.written + 1)
  {
  }

  lemma IsIndexing(t: Tools, start: Base, job: Job, store: Store, todo: seq<string>, sums: seq<R.Checksum>,
                   order: seq<string>, k: nat)
    requires GoodJob(job) && IndexingAt(t, start, job, store, todo, sums, order, k)
    ensures StageProgress(t, start, job, store, Indexing(todo, sums))
  {
  }

  lemma IsWriting(t: Tools, start: Base, job: Job, store: Store, stage: Stage, order: seq<string>, k: nat)
    requires GoodJob(job) && stage.Writing? && WritingAt(t, start, job, store, stage, order, k)
    ensures StageProgress(t, start, job, store, stage)
  {
  }

  lemma WriteMore(t: Tools, start: Base, job: Job, store: Store, stage: Stage, order: seq<string>, k: nat,
                  store': Store)
    requires GoodTools(t) && GoodJob(job) && stage.Writing? && stage.written < 3
    requires WritingAt(t, start, job, store, stage, order, k)
    requires store' == store[IndexPlace(job, stage.arch, ExtAt(stage.written)) :=
                             t.pack(ExtAt(stage.written), stage.text)]
    ensures StageProgress(t, start, job, store', StageAfterWrite(t, job, stage))
  {
    WriteOne(t, start, job, store, order, k, stage.written, stage.text, store');
    SumsAfterWrite(t, job, store, store', stage, order, k);
    IsWriting(t, start, job, store', StageAfterWrite(t, job, stage), order, k);
  }

  lemma WriteStep(t: Tools, start: Base, job: Job, store: Store, stage: Stage, store': Store)
    requires GoodTools(t) && GoodJob(job) && stage.Writing? && stage.written < 4
    requires StageProgress(t, start, job, store, stage)
    requires store' == store[IndexPlace(job, stage.arch, ExtAt(stage.written)) :=
                             t.pack(ExtAt(stage.written), stage.text)]
    ensures StageProgress(t, start, job, store', StageAfterWrite(t, job, stage))
  {
    var order, k :| WritingAt(t, start, job, store, stage, order, k);
    if stage.written == 3 {
      WriteLast(t, start, job, store, stage, order, k, store');
    } else {
      WriteMore(t, start, job, store, stage, order, k, store');
    }
  }

  lemma ProgressActivate(t: Tools, start: Base, job: Job, store: Store, order: seq<string>, k: nat, text: string)
    requires GoodJob(job) && Progress(t, start, job, store, order, k, 0)
    ensures Progress(t, start, job, store[ReleaseFile(job.codename) := text], order, k, 0)
  {
    var store' := store[ReleaseFile(job.codename) := text];
    forall p: Place ensures PlaceProgress(t, start, job, store', order, k, 0, p) {
      assert PlaceProgress(t, start, job, store, order, k, 0, p);
    }
  }

  lemma SumsActivate(t: Tools, job: Job, store: Store, order: seq<string>, text: string)
    ensures SumsFor(t, job, store[ReleaseFile(job.codename) := text], order, |order|)
        == SumsUpTo(t, job, store, order, |order|, 0)
  {
    SumsForSame(t, job, store, store[ReleaseFile(job.codename) := text], order, |order|);
    assert SumsFor(t, job, store, order, |order|) + [] == SumsFor(t, job, store, order, |order|);
  }

  lemma ActivateProgress(t: Tools, start: Base, job: Job, store: Store, sums: seq<R.Checksum>, order: seq<string>,
                         k: nat, archs: seq<string>, now: string, listed: seq<R.Checksum>, text: string)
    requires GoodJob(job) && IndexingAt(t, start, job, store, [], sums, order, k)
    requires ListedArchs(job, archs) && OneLine(now) && R.IsRelease(ManifestOf(job, archs, sums), now, listed, text)
    ensures Completed(t, start, job, store[ReleaseFile(job.codename) := text], order)
  {
    assert k == |order|;
    ProgressActivate(t, start, job, store, order, k, text);
    SumsActivate(t, job, store, order, text);
    IsReleased(t, job, store[ReleaseFile(job.codename) := text], order, archs, now, listed);
  }

  lemma IsReleased(t: Tools, job: Job, store: Store, order: seq<string>, archs: seq<string>, now: string,
                   listed: seq<R.Checksum>)
    requires ListedArchs(job, archs) && OneLine(now)
    requires R.IsRelease(ManifestOf(job, archs, SumsFor(t, job, store, order, |order|)), now, listed,
                         At(store, ReleaseFile(job.codename)))
    ensures Released(t, job, store, order)
  {
  }

  lemma UploadStep(t: Tools, start: Base, job: Job, store: Store, n: nat, store': Store)
    requires GoodJob(job) && StageProgress(t, start, job, store, Uploading(n)) && n < |job.batch|
    requires store' == store[PoolPlace(job.component, job.batch[n].control) := job.batch[n].bytes]
    ensures StageProgress(t, start, job, store', Uploading(n + 1))
  {
    UploadKeeps(job, start.store, store, PoolPlace(job.component, job.batch[n].control), job.batch[n].bytes);
  }

  lemma GroupStep(t: Tools, start: Base, job: Job, store: Store, n: nat, order: seq<string>)
    requires GoodJob(job) && StageProgress(t, start, job, store, Uploading(n)) && ArchOrder(job, order)
    ensures StageProgress(t, start, job, store, Indexing(order, []))
  {
    GroupingProgress(t, start, job, store, order);
    IsIndexing(t, start, job, store, order, [], order, 0);
  }

  lemma LoadStep(t: Tools, start: Base, job: Job, store: Store, todo: seq<string>, sums: seq<R.Checksum>,
                 found: seq<Stanza>, sorted: seq<Stanza>, paras: seq<Para>, text: string)
    requires GoodTools(t) && GoodJob(job) && StageProgress(t, start, job, store, Indexing(todo, sums)) && todo != []
    requires Got(Base(store, start.torn), IndexPlace(job, todo[0], Plain), found)
    requires Merges(t, job, todo[0], found, sorted, paras, text)
    ensures StageProgress(t, start, job, store, Writing(todo[0], text, 0, todo[1..], sums))
  {
    var order, k :| IndexingAt(t, start, job, store, todo, sums, order, k);
    LoadProgress(t, start, job, store, todo, sums, order, k, found, sorted, paras, text);
    IsWriting(t, start, job, store, Writing(todo[0], text, 0, todo[1..], sums), order, k);
  }

  lemma ActivateStep(t: Tools, start: Base, job: Job, store: Store, sums: seq<R.Checksum>, archs: seq<string>,
                     now: string, listed: seq<R.Checksum>, text: string)
    requires GoodJob(job) && StageProgress(t, start, job, store, Indexing([], sums))
    requires ListedArchs(job, archs) && OneLine(now) && R.IsRelease(ManifestOf(job, archs, sums), now, listed, text)
    ensures StageProgress(t, start, job, store[ReleaseFile(job.codename) := text], Finished)
  {
    var order, k :| IndexingAt(t, start, job, store, [], sums, order, k);
    ActivateProgress(t, start, job, store, sums, order, k, archs, now, listed, text);
    IsFinished(t, start, job, store[ReleaseFile(job.codename) := text], order);
  }

  lemma IsFinished(t: Tools, start: Base, job: Job, store: Store, order: seq<string>)
    requires GoodJob(job) && Completed(t, start, job, store, order)
    ensures StageProgress(t, start, job, store, Finished)
  {
  }

  lemma StageStep(t: Tools, start: Base, job: Job, store: Store, stage: Stage, a: Action)
    requires GoodTools(t) && GoodJob(job) && StageProgress(t, start, job, store, stage)
    requires CanAct(t, store, Publisher(job, stage), a) && (a.LoadTorn? ==> start.torn)
    ensures StageProgress(t, start, job, StoreAfter(t, store, Publisher(job, stage), a),
                          StageAfter(t, store, Publisher(job, stage), a))
  {
    match a
    case Upload =>
      UploadStep(t, start, job, store, stage.done, StoreAfter(t, store, Publisher(job, stage), a));
    case GroupArchs(order) => GroupStep(t, start, job, store, stage.done, order);
    case Load(found, sorted, paras, text) =>
      LoadStep(t, start, job, store, stage.todo, stage.sums, found, sorted, paras, text);
    case LoadTorn(sorted, paras, text) =>
      LoadStep(t, start, job, store, stage.todo, stage.sums, [], sorted, paras, text);
    case WriteIndex => WriteStep(t, start, job, store, stage, StoreAfter(t, store, Publisher(job, stage), a));
    case Activate(archs, now, listed, text) =>
      ActivateStep(t, start, job, store, stage.sums, archs, now, listed, text);
    case _ =>
  }

  ghost predicate RepoProgress(t: Tools, start: Base, job: Job, r: Repo, w: string)
    requires GoodJob(job)
  {
    && w in r.publishers && r.publishers[w].job == job
    && StageProgress(t, start, job, r.store, r.publishers[w].stage)
  }

  lemma ProgressStep(t: Tools, start: Base, job: Job, r: Repo, m: Move, r': Repo)
    requires GoodTools(t) && GoodJob(job)
    requires RepoProgress(t, start, job, r, m.worker) && Next(t, r, m, r') && !m.action.Begin?
    requires m.action.LoadTorn? ==> start.torn
    ensures RepoProgress(t, start, job, r', m.worker)
  {
    StageStep(t, start, job, r.store, r.publishers[m.worker].stage, m.action);
  }

  // ----- steps of others -----

  lemma KeepProgress(t: Tools, start: Base, job: Job, store: Store, store': Store, order: seq<string>, k: nat, n: nat)
    requires GoodJob(job) && Progress(t, start, job, store, order, k, n) && SameIndexes(job.codename, store, store')
    ensures Progress(t, start, job, store', order, k, n)
    ensures SumsUpTo(t, job, store', order, k, n) == SumsUpTo(t, job, store, order, k, n)
  {
    forall p: Place ensures PlaceProgress(t, start, job, store', order, k, n, p) {
      assert PlaceProgress(t, start, job, store, order, k, n, p);
      assert OwnPlace(job.codename, p) ==> SameAt(store, store', p);
    }
    forall arch, e ensures At(store', IndexPlace(job, arch, e)) == At(store, IndexPlace(job, arch, e)) {
      assert OwnPlace(job.codename, IndexPlace(job, arch, e));
    }
    SumsForSame(t, job, store, store', order, k);
    if n > 0 { SumsOfSame(t, job, store, store', order[k], n); }
  }

  lemma KeepCompleted(t: Tools, start: Base, job: Job, store: Store, store': Store, order: seq<string>)
    requires GoodJob(job) && Completed(t, start, job, store, order) && SameIndexes(job.codename, store, store')
    ensures Completed(t, start, job, store', order)
  {
    KeepProgress(t, start, job, store, store', order, |order|, 0);
    ConcatOne(SumsFor(t, job, store, order, |order|), [], ChecksumOf(t, "", "", Plain, ""));
    ConcatOne(SumsFor(t, job, store', order, |order|), [], ChecksumOf(t, "", "", Plain, ""));
    assert OwnPlace(job.codename, ReleaseFile(job.codename));
    var archs, now, listed :|
      && ListedArchs(job, archs) && OneLine(now)
      && R.IsRelease(ManifestOf(job, archs, SumsFor(t, job, store, order, |order|)), now, listed,
                     At(store, ReleaseFile(job.codename)));
    IsReleased(t, job, store', order, archs, now, listed);
  }

  /** Whoever leaves the places of the codename as they are leaves the progress of its publish. */
  lemma KeepStage(t: Tools, start: Base, job: Job, store: Store, stage: Stage, store': Store)
    requires GoodJob(job) && StageProgress(t, start, job, store, stage) && SameIndexes(job.codename, store, store')
    ensures StageProgress(t, start, job, store', stage)
  {
    match stage
    case Uploading(_) => SameTwice(job.codename, start.store, store, store');
    case Indexing(todo, sums) =>
      var order, k :| IndexingAt(t, start, job, store, todo, sums, order, k);
      KeepProgress(t, start, job, store, store', order, k, 0);
      assert IndexingAt(t, start, job, store', todo, sums, order, k);
    case Writing(_, _, written, _, _) =>
      var order, k :| WritingAt(t, start, job, store, stage, order, k);
      KeepProgress(t, start, job, store, store', order, k, written);
      assert WritingAt(t, start, job, store', stage, order, k);
    case Finished =>
      var order :| Completed(t, start, job, store, order);
      KeepCompleted(t, start, job, store, store', order);
    case Failed =>
  }

  lemma SameTwice(codename: string, a: Store, b: Store, c: Store)
    requires SameIndexes(codename, a, b) && SameIndexes(codename, b, c)
    ensures SameIndexes(codename, a, c)
  {
    forall p: Place | OwnPlace(codename, p) ensures SameAt(a, c, p) {
      assert SameAt(a, b, p) && SameAt(b, c, p);
    }
  }

  /** Publishers of other codenames write no place of this one. */
  lemma ForeignKeeps(t: Tools, r: Repo, m: Move, r': Repo, codename: string)
    requires Next(t, r, m, r') && !InCodename(r, m, codename)
    ensures SameIndexes(codename, r.store, r'.store)
  {
  }

  lemma ForeignProgress(t: Tools, start: Base, job: Job, r: Repo, m: Move, r': Repo, w: string)
    requires GoodJob(job) && RepoProgress(t, start, job, r, w)
    requires Next(t, r, m, r') && !InCodename(r, m, job.codename) && m.worker != w
    ensures RepoProgress(t, start, job, r', w)
  {
    ForeignKeeps(t, r, m, r', job.codename);
    KeepStage(t, start, job, r.store, r.publishers[w].stage, r'.store);
  }
}
