/** No lost update: when at most one publisher of a codename is active, every stored Packages
    holds exactly the keys it held first and those of the groups written to it, in their order. */
module PublishKeys {
  import opened Text
  import opened Deb822
  import opened Stanzas
  import opened StanzaRoundTrip
  import opened PackageIndex
  import opened IndexRoundTrip
  import opened IndexSurvival
  import opened Paths
  import opened PublishProtocol
  import opened PublishIntegrity

  predicate LineKey(k: Key) {
    OneLine(k.package) && OneLine(k.architecture) && OneLine(k.version)
  }

  /** Whatever a reader makes of the text, it finds these keys. */
  ghost predicate Keyed(text: string, keys: set<Key>) {
    && (forall k :: k in keys ==> LineKey(k))
    && (forall idx :: CanParseIndex(text, idx) ==> Keys(idx) == keys)
  }

  /** The keys of every stored Packages. */
  type View = map<Place, set<Key>>

  function KeysAt(view: View, p: Place): set<Key> {
    if p in view then view[p] else {}
  }

  predicate IsPackages(p: Place) {
    p.Index? && p.ext == Plain
  }

  ghost predicate PlaceKeyed(codename: string, store: Store, view: View, p: Place) {
    IsPackages(p) && p.codename == codename ==> (p in store <==> p in view) && (p in store ==> Keyed(store[p], view[p]))
  }

  ghost predicate StoreKeyed(codename: string, store: Store, view: View) {
    forall p: Place :: PlaceKeyed(codename, store, view, p)
  }

  predicate WritesPackages(pub: Publisher, a: Action) {
    a.WriteIndex? && pub.stage.Writing? && pub.stage.written == 0
  }

  /** What a step adds: the keys of the group, when Packages itself is written. */
  ghost function ViewAfter(t: Tools, view: View, r: Repo, m: Move): View {
    if m.worker in r.publishers && WritesPackages(r.publishers[m.worker], m.action)
        && GoodJob(r.publishers[m.worker].job) then
      var job, arch := r.publishers[m.worker].job, r.publishers[m.worker].stage.arch;
      var p := IndexPlace(job, arch, Plain);
      view[p := KeysAt(view, p) + Keys(Group(t, job, arch))]
    else view
  }

  /** The fold of the written groups over the first n steps. */
  ghost function ViewAt(t: Tools, view: View, states: seq<Repo>, moves: seq<Move>, n: nat): View
    requires n <= |moves| < |states|
  {
    if n == 0 then view else ViewAfter(t, ViewAt(t, view, states, moves, n - 1), states[n - 1], moves[n - 1])
  }

  /** At most one publisher of the codename is active. */
  ghost predicate Exclusive(r: Repo, codename: string) {
    forall a, b :: ActiveIn(r, codename, a) && ActiveIn(r, codename, b) ==> a == b
  }

  /** Publishes of the codename preserve versions, and read indexes without error. */
  predicate Careful(r: Repo, m: Move, codename: string) {
    InCodename(r, m, codename) ==> (m.action.Begin? ==> m.action.job.preserve) && !m.action.LoadTorn?
  }

  ghost predicate CarefulRun(t: Tools, codename: string, states: seq<Repo>, moves: seq<Move>) {
    && IsRun(t, states, moves)
    && (forall i :: 0 <= i < |states| ==> Exclusive(states[i], codename))
    && (forall i :: 0 <= i < |moves| ==> Careful(states[i], moves[i], codename))
  }

  // ----- what a publisher has written so far -----

  ghost predicate Delivered(t: Tools, view: View, job: Job, arch: string)
    requires GoodJob(job)
  {
    Keys(Group(t, job, arch)) <= KeysAt(view, IndexPlace(job, arch, Plain))
  }

  ghost predicate DeliveredBut(t: Tools, view: View, job: Job, rest: seq<string>)
    requires GoodJob(job)
  {
    forall arch :: HasArch(job, arch) && arch !in rest ==> Delivered(t, view, job, arch)
  }

  ghost predicate StageKeyed(t: Tools, view: View, job: Job, stage: Stage)
    requires GoodJob(job)
  {
    match stage
    case Indexing(todo, _) => DeliveredBut(t, view, job, todo)
    case Writing(arch, text, written, todo, _) =>
      if written == 0 then
        && DeliveredBut(t, view, job, [arch] + todo)
        && Keyed(text, KeysAt(view, IndexPlace(job, arch, Plain)) + Keys(Group(t, job, arch)))
      else DeliveredBut(t, view, job, todo)
    case _ => true
  }

  ghost predicate PublisherKeyed(t: Tools, codename: string, view: View, r: Repo, w: string) {
    ActiveIn(r, codename, w) ==>
      GoodJob(r.publishers[w].job) && r.publishers[w].job.preserve
          && StageKeyed(t, view, r.publishers[w].job, r.publishers[w].stage)
  }

  ghost predicate KeysInv(t: Tools, codename: string, view: View, r: Repo) {
    StoreKeyed(codename, r.store, view) && forall w :: PublisherKeyed(t, codename, view, r, w)
  }

  // ----- a written index has the keys of its stanzas -----

  lemma KeySurvives(s: Stanza, back: Stanza)
    requires LineKey(KeyOf(s)) && forall f :: Lasting(s, f) ==> SameIn(s, back, f)
    ensures KeyOf(back) == KeyOf(s)
  {
    assert Lasting(s, Package) && Lasting(s, Version) && Lasting(s, Architecture);
    assert SameIn(s, back, Package) && SameIn(s, back, Version) && SameIn(s, back, Architecture);
  }

  lemma SameKeys(a: seq<Stanza>, b: seq<Stanza>)
    requires |a| == |b| && forall i :: 0 <= i < |a| ==> KeyOf(a[i]) == KeyOf(b[i])
    ensures Keys(a) == Keys(b)
  {
    forall k ensures k in Keys(a) <==> k in Keys(b) {
      if k in Keys(a) {
        var s :| s in a && KeyOf(s) == k;
        var i :| 0 <= i < |a| && a[i] == s;
        assert b[i] in b;
      }
      if k in Keys(b) {
        var s :| s in b && KeyOf(s) == k;
        var i :| 0 <= i < |b| && b[i] == s;
        assert a[i] in a;
      }
    }
  }

  lemma WrittenIsKeyed(idx: seq<Stanza>, paras: seq<Para>, text: string)
    requires AllPrintableStanzas(idx) && Serializes(idx, paras, text) && forall k :: k in Keys(idx) ==> LineKey(k)
    ensures Keyed(text, Keys(idx))
  {
    forall back | CanParseIndex(text, back) ensures Keys(back) == Keys(idx) {
      IndexSurvives(idx, paras, text, back);
      forall i | 0 <= i < |idx| ensures KeyOf(back[i]) == KeyOf(idx[i]) {
        assert idx[i] in idx && KeyOf(idx[i]) in Keys(idx);
        KeySurvives(idx[i], back[i]);
      }
      SameKeys(back, idx);
    }
  }

  lemma GroupKeysAreLines(t: Tools, job: Job, arch: string)
    requires GoodJob(job)
    ensures forall k :: k in Keys(Group(t, job, arch)) ==> LineKey(k)
  {
    forall k | k in Keys(Group(t, job, arch)) ensures LineKey(k) {
      var s: Stanza :| s in Group(t, job, arch) && KeyOf(s) == k;
      var i := GroupMember(t, job, arch, |job.batch|, s);
    }
  }

  lemma SortedKeys(sorted: seq<Stanza>, idx: seq<Stanza>)
    requires IsSortOf(sorted, idx)
    ensures Keys(sorted) == Keys(idx)
  {
    SameMembers(sorted, idx);
  }

  lemma FoundKeys(codename: string, store: Store, view: View, p: Place, found: seq<Stanza>)
    requires StoreKeyed(codename, store, view) && IsPackages(p) && p.codename == codename && Found(store, p, found)
    ensures Keys(found) == KeysAt(view, p) && forall k :: k in KeysAt(view, p) ==> LineKey(k)
  {
    assert PlaceKeyed(codename, store, view, p);
  }

  /** The merged text holds the keys found and those of the group. */
  lemma MergedIsKeyed(t: Tools, codename: string, store: Store, view: View, job: Job, arch: string, found: seq<Stanza>,
                      sorted: seq<Stanza>, paras: seq<Para>, text: string)
    requires GoodTools(t) && GoodJob(job) && job.preserve && job.codename == codename
    requires StoreKeyed(codename, store, view)
    requires Found(store, IndexPlace(job, arch, Plain), found) && Merges(t, job, arch, found, sorted, paras, text)
    ensures Keyed(text, KeysAt(view, IndexPlace(job, arch, Plain)) + Keys(Group(t, job, arch)))
  {
    var p := IndexPlace(job, arch, Plain);
    FoundKeys(codename, store, view, p, found);
    FoundIsPrintable(store, p, found);
    MergedIsPrintable(t, job, arch, found, sorted);
    UpdateLaws(found, Group(t, job, arch));
    SortedKeys(sorted, AddAll(found, Group(t, job, arch), true));
    GroupKeysAreLines(t, job, arch);
    WrittenIsKeyed(sorted, paras, text);
  }

  // ----- steps -----

  lemma HeadTail(todo: seq<string>)
    requires todo != []
    ensures [todo[0]] + todo[1..] == todo
  {
  }

  lemma LoadMeans(t: Tools, store: Store, pub: Publisher, a: Action)
    requires GoodJob(pub.job) && CanAct(t, store, pub, a) && a.Load?
    ensures pub.stage.Indexing? && pub.stage.todo != []
    ensures Found(store, IndexPlace(pub.job, pub.stage.todo[0], Plain), a.found)
    ensures Merges(t, pub.job, pub.stage.todo[0], a.found, a.sorted, a.paras, a.text)
    ensures StageAfter(t, store, pub, a) == Writing(pub.stage.todo[0], a.text, 0, pub.stage.todo[1..], pub.stage.sums)
  {
  }

  lemma OwnLoad(t: Tools, codename: string, store: Store, view: View, pub: Publisher, a: Action)
    requires GoodTools(t) && GoodJob(pub.job) && pub.job.preserve && pub.job.codename == codename
    requires StoreKeyed(codename, store, view)
    requires StageKeyed(t, view, pub.job, pub.stage) && CanAct(t, store, pub, a) && a.Load?
    ensures StageKeyed(t, view, pub.job, StageAfter(t, store, pub, a))
  {
    LoadMeans(t, store, pub, a);
    var todo := pub.stage.todo;
    HeadTail(todo);
    LoadIsKeyed(t, codename, store, view, pub.job, todo[0], a);
  }

  lemma LoadIsKeyed(t: Tools, codename: string, store: Store, view: View, job: Job, arch: string, a: Action)
    requires GoodTools(t) && GoodJob(job) && job.preserve && job.codename == codename
    requires StoreKeyed(codename, store, view) && a.Load?
    requires Found(store, IndexPlace(job, arch, Plain), a.found)
    requires Merges(t, job, arch, a.found, a.sorted, a.paras, a.text)
    ensures Keyed(a.text, KeysAt(view, IndexPlace(job, arch, Plain)) + Keys(Group(t, job, arch)))
  {
    MergedIsKeyed(t, codename, store, view, job, arch, a.found, a.sorted, a.paras, a.text);
  }

  lemma ViewGrows(t: Tools, view: View, r: Repo, m: Move, p: Place)
    ensures KeysAt(view, p) <= KeysAt(ViewAfter(t, view, r, m), p)
  {
  }

  lemma DeliveredGrows(t: Tools, view: View, view': View, job: Job, rest: seq<string>)
    requires GoodJob(job) && DeliveredBut(t, view, job, rest)
    requires forall p :: KeysAt(view, p) <= KeysAt(view', p)
    ensures DeliveredBut(t, view', job, rest)
  {
    forall arch | HasArch(job, arch) && arch !in rest ensures Delivered(t, view', job, arch) {
      assert Delivered(t, view, job, arch);
    }
  }

  /** Writing Packages delivers the group of its architecture. */
  lemma OwnWrite(t: Tools, view: View, view': View, pub: Publisher)
    requires GoodJob(pub.job) && pub.stage.Writing? && pub.stage.written < 4 && StageKeyed(t, view, pub.job, pub.stage)
    requires forall p :: KeysAt(view, p) <= KeysAt(view', p)
    requires pub.stage.written == 0 ==> Delivered(t, view', pub.job, pub.stage.arch)
    ensures StageKeyed(t, view', pub.job, StageAfterWrite(t, pub.job, pub.stage))
  {
    var job, stage := pub.job, pub.stage;
    if stage.written == 0 {
      DeliveredGrows(t, view, view', job, [stage.arch] + stage.todo);
      forall arch | HasArch(job, arch) && arch !in stage.todo ensures Delivered(t, view', job, arch) {
        if arch != stage.arch { assert arch !in [stage.arch] + stage.todo; }
      }
    } else {
      DeliveredGrows(t, view, view', job, stage.todo);
    }
  }

  lemma OwnKeyed(t: Tools, codename: string, view: View, r: Repo, m: Move, r': Repo)
    requires GoodTools(t) && KeysInv(t, codename, view, r) && Next(t, r, m, r') && Careful(r, m, codename)
    ensures PublisherKeyed(t, codename, ViewAfter(t, view, r, m), r', m.worker)
  {
    var view' := ViewAfter(t, view, r, m);
    if !m.action.Begin? && InCodename(r, m, codename) {
      var pub := r.publishers[m.worker];
      assert PublisherKeyed(t, codename, view, r, m.worker);
      if m.action.WriteIndex? {
        forall p ensures KeysAt(view, p) <= KeysAt(view', p) { ViewGrows(t, view, r, m, p); }
        OwnWrite(t, view, view', pub);
      } else if m.action.Load? {
        OwnLoad(t, codename, r.store, view, pub, m.action);
      } else if m.action.GroupArchs? {
        assert forall arch :: HasArch(pub.job, arch) ==> arch in m.action.order;
      }
    }
  }

  lemma StageStaysKeyed(t: Tools, view: View, view': View, job: Job, stage: Stage)
    requires GoodJob(job) && StageKeyed(t, view, job, stage) && forall p :: KeysAt(view, p) <= KeysAt(view', p)
    requires stage.Writing? ==>
        KeysAt(view', IndexPlace(job, stage.arch, Plain)) == KeysAt(view, IndexPlace(job, stage.arch, Plain))
    ensures StageKeyed(t, view', job, stage)
  {
    match stage
    case Indexing(todo, _) => DeliveredGrows(t, view, view', job, todo);
    case Writing(arch, _, written, todo, _) =>
      DeliveredGrows(t, view, view', job, if written == 0 then [arch] + todo else todo);
    case _ =>
  }

  lemma OtherPlaces(t: Tools, view: View, r: Repo, m: Move, p: Place)
    requires m.worker in r.publishers && p.Index? && p.codename != r.publishers[m.worker].job.codename
    ensures KeysAt(ViewAfter(t, view, r, m), p) == KeysAt(view, p)
  {
  }

  lemma NextWorker(t: Tools, r: Repo, m: Move, r': Repo, w: string)
    requires Next(t, r, m, r') && w != m.worker
    ensures w in r'.publishers <==> w in r.publishers
    ensures w in r.publishers ==> r'.publishers[w] == r.publishers[w]
    ensures !m.action.Begin? ==> Active(r, m.worker)
  {
  }

  lemma OthersSame(t: Tools, codename: string, r: Repo, m: Move, r': Repo, w: string)
    requires Exclusive(r, codename) && Next(t, r, m, r') && w != m.worker && ActiveIn(r', codename, w)
    ensures ActiveIn(r, codename, w) && r'.publishers[w] == r.publishers[w]
    ensures !m.action.Begin? ==> Active(r, m.worker) && r.publishers[m.worker].job.codename != codename
  {
    NextWorker(t, r, m, r', w);
    assert ActiveIn(r, codename, w);
    assert !m.action.Begin? && r.publishers[m.worker].job.codename == codename ==> ActiveIn(r, codename, m.worker);
  }

  /** Publishers of other codenames work on other places. */
  lemma OtherKeyed(t: Tools, codename: string, view: View, r: Repo, m: Move, r': Repo, w: string)
    requires KeysInv(t, codename, view, r) && Exclusive(r, codename) && Next(t, r, m, r') && w != m.worker
    ensures PublisherKeyed(t, codename, ViewAfter(t, view, r, m), r', w)
  {
    if ActiveIn(r', codename, w) {
      OthersSame(t, codename, r, m, r', w);
      assert PublisherKeyed(t, codename, view, r, w);
      OtherStageKeyed(t, view, r, m, r.publishers[w].job, r.publishers[w].stage);
    }
  }

  lemma OtherStageKeyed(t: Tools, view: View, r: Repo, m: Move, job: Job, stage: Stage)
    requires GoodJob(job) && StageKeyed(t, view, job, stage)
    requires !m.action.Begin? ==> m.worker in r.publishers && r.publishers[m.worker].job.codename != job.codename
    ensures StageKeyed(t, ViewAfter(t, view, r, m), job, stage)
  {
    var view' := ViewAfter(t, view, r, m);
    forall p ensures KeysAt(view, p) <= KeysAt(view', p) { ViewGrows(t, view, r, m, p); }
    if stage.Writing? && !m.action.Begin? { OtherPlaces(t, view, r, m, IndexPlace(job, stage.arch, Plain)); }
    StageStaysKeyed(t, view, view', job, stage);
  }

  lemma PlaceStaysKeyed(t: Tools, codename: string, view: View, r: Repo, m: Move, r': Repo, p: Place)
    requires GoodTools(t) && KeysInv(t, codename, view, r) && Next(t, r, m, r')
    ensures PlaceKeyed(codename, r'.store, ViewAfter(t, view, r, m), p)
  {
    assert PlaceKeyed(codename, r.store, view, p);
    if m.action.WriteIndex? && InCodename(r, m, codename) {
      var pub := r.publishers[m.worker];
      assert PublisherKeyed(t, codename, view, r, m.worker);
      assert pub.stage.written == 0 ==> t.pack(Plain, pub.stage.text) == pub.stage.text;
    }
  }

  lemma KeysStep(t: Tools, codename: string, view: View, r: Repo, m: Move, r': Repo)
    requires GoodTools(t) && KeysInv(t, codename, view, r) && Exclusive(r, codename) && Next(t, r, m, r')
    requires Careful(r, m, codename)
    ensures KeysInv(t, codename, ViewAfter(t, view, r, m), r')
  {
    forall p: Place ensures PlaceKeyed(codename, r'.store, ViewAfter(t, view, r, m), p) {
      PlaceStaysKeyed(t, codename, view, r, m, r', p);
    }
    forall w ensures PublisherKeyed(t, codename, ViewAfter(t, view, r, m), r', w) {
      if w == m.worker { OwnKeyed(t, codename, view, r, m, r'); } else { OtherKeyed(t, codename, view, r, m, r', w); }
    }
  }

  lemma {:induction false} KeysRun(t: Tools, codename: string, view: View, states: seq<Repo>, moves: seq<Move>, n: nat)
    requires GoodTools(t) && CarefulRun(t, codename, states, moves) && StoreKeyed(codename, states[0].store, view)
    requires n <= |moves|
    ensures KeysInv(t, codename, ViewAt(t, view, states, moves, n), states[n])
  {
    if n > 0 {
      KeysRun(t, codename, view, states, moves, n - 1);
      KeysStep(t, codename, ViewAt(t, view, states, moves, n - 1), states[n - 1], moves[n - 1], states[n]);
    }
  }

  lemma {:induction false} ViewOnlyGrows(t: Tools, view: View, states: seq<Repo>, moves: seq<Move>, m: nat, n: nat,
                                         p: Place)
    requires m <= n <= |moves| < |states|
    ensures KeysAt(ViewAt(t, view, states, moves, m), p) <= KeysAt(ViewAt(t, view, states, moves, n), p)
    decreases n
  {
    if m < n {
      ViewOnlyGrows(t, view, states, moves, m, n - 1, p);
      ViewGrows(t, ViewAt(t, view, states, moves, n - 1), states[n - 1], moves[n - 1], p);
    }
  }

  /** The keys of a finished publish are in the stored indexes from then on. */
  lemma FinishedIsKept(t: Tools, codename: string, view: View, states: seq<Repo>, moves: seq<Move>, m: nat, n: nat,
                       arch: string)
    requires GoodTools(t) && CarefulRun(t, codename, states, moves) && StoreKeyed(codename, states[0].store, view)
    requires m < n <= |moves| && moves[m].action.Activate?
    requires ActiveIn(states[m], codename, moves[m].worker) && GoodJob(states[m].publishers[moves[m].worker].job)
    requires HasArch(states[m].publishers[moves[m].worker].job, arch)
    ensures Delivered(t, ViewAt(t, view, states, moves, n), states[m].publishers[moves[m].worker].job, arch)
  {
    var pub := states[m].publishers[moves[m].worker];
    KeysRun(t, codename, view, states, moves, m);
    assert PublisherKeyed(t, codename, ViewAt(t, view, states, moves, m), states[m], moves[m].worker);
    assert Next(t, states[m], moves[m], states[m + 1]);
    assert Delivered(t, ViewAt(t, view, states, moves, m), pub.job, arch);
    ViewOnlyGrows(t, view, states, moves, m, n, IndexPlace(pub.job, arch, Plain));
  }

  /** In every such run every stored Packages reads as the fold of the groups written to it. */
  lemma NoLostUpdate(t: Tools, codename: string, view: View, states: seq<Repo>, moves: seq<Move>, n: nat, p: Place,
                     idx: seq<Stanza>)
    requires GoodTools(t) && CarefulRun(t, codename, states, moves) && StoreKeyed(codename, states[0].store, view)
    requires n <= |moves|
    requires IsPackages(p) && p.codename == codename && p in states[n].store && CanParseIndex(states[n].store[p], idx)
    ensures Keys(idx) == KeysAt(ViewAt(t, view, states, moves, n), p)
  {
    KeysRun(t, codename, view, states, moves, n);
    assert PlaceKeyed(codename, states[n].store, ViewAt(t, view, states, moves, n), p);
  }

  // ----- reading an index with an error -----

  /** When the read of an existing index breaks off, the publish goes on with an empty one: the text
      it writes holds the keys of the batch alone. */
  lemma TornKeepsOnlyBatch(t: Tools, job: Job, arch: string, sorted: seq<Stanza>, paras: seq<Para>, text: string)
    requires GoodTools(t) && GoodJob(job) && job.preserve && Merges(t, job, arch, [], sorted, paras, text)
    ensures Keyed(text, Keys(Group(t, job, arch)))
  {
    var none: seq<Stanza> := [];
    MergedIsPrintable(t, job, arch, none, sorted);
    UpdateLaws(none, Group(t, job, arch));
    SortedKeys(sorted, AddAll(none, Group(t, job, arch), true));
    GroupKeysAreLines(t, job, arch);
    WrittenIsKeyed(sorted, paras, text);
  }

  /** So it loses stored keys, for every reader, if and only if the batch does not hold them all. */
  lemma TornLoses(t: Tools, r: Repo, m: Move, r': Repo, keys: set<Key>)
    requires GoodTools(t) && Next(t, r, m, r') && m.action.LoadTorn? && r.publishers[m.worker].job.preserve
    ensures var pub := r.publishers[m.worker];
      && r'.publishers[m.worker].stage.Writing?
      && forall idx :: CanParseIndex(r'.publishers[m.worker].stage.text, idx) ==>
           (keys <= Keys(idx) <==> keys <= Keys(Group(t, pub.job, pub.stage.todo[0])))
  {
    var pub := r.publishers[m.worker];
    TornKeepsOnlyBatch(t, pub.job, pub.stage.todo[0], m.action.sorted, m.action.paras, m.action.text);
  }
}
