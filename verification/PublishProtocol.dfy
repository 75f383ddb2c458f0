/** Publishing as a step system: any number of publishers over one store, one step for every
    storage call, and a stop after any of them. Referential integrity holds at every state, with
    or without a lock. */
module PublishProtocol {
  import opened Text
  import opened Deb822
  import opened Deb822RoundTrip
  import opened Stanzas
  import opened PackageIndex
  import opened IndexRoundTrip
  import opened Release
  import opened Paths

  // ----- foreign code -----

  /** Compression and hashing, of which only the interface is known. */
  datatype Tools = Tools(
    pack: (Ext, string) -> string, unpack: (Ext, string) -> string, hash: (Sum, string) -> string)

  ghost predicate GoodTools(t: Tools) {
    && (forall e, x :: t.unpack(e, t.pack(e, x)) == x)
    && (forall x :: t.pack(Plain, x) == x)
    && (forall sum, x :: IsHex(t.hash(sum, x)))
  }

  // ----- publishers -----

  /** An inspected file: its control record and its bytes, unchanged until the upload. */
  datatype Candidate = Candidate(control: Control, bytes: string)

  /** One call of PublishDebFiles: the configuration it uses, and its batch in sorted order. */
  datatype Job = Job(codename: string, component: string, preserve: bool, config: Manifest, batch: seq<Candidate>)

  function PoolPlace(component: string, c: Control): Place {
    Pool(component, c.package, c.version, c.architecture)
  }

  /** The control record was read by the parser from some control file. */
  ghost predicate ReadControl(c: Control) {
    exists p, s :: Printable(p) && IsStanzaOf(p, s) && s.control == c
  }

  ghost predicate GoodCandidate(component: string, c: Candidate) {
    Legal(PoolPlace(component, c.control)) && ReadControl(c.control) && IsInt64(|c.bytes|)
  }

  ghost predicate GoodJob(job: Job) {
    && Element(job.codename) && Element(job.component)
    && forall c :: c in job.batch ==> GoodCandidate(job.component, c)
  }

  /** What the batch sort leaves. */
  ghost predicate SortedBatch(job: Job) {
    forall i, j :: 0 <= i < j < |job.batch| ==> InOrder(job, i, j)
  }

  predicate InOrder(job: Job, i: nat, j: nat)
    requires i < j < |job.batch|
  {
    CompareControls(job.batch[i].control, job.batch[j].control) <= 0
  }

  /** The stanza of an uploaded file. */
  function StanzaOf(t: Tools, component: string, c: Candidate): Stanza
    requires Legal(PoolPlace(component, c.control))
  {
    Stanza(c.control, PathOf(PoolPlace(component, c.control)), |c.bytes|,
           t.hash(Sum.SHA256, c.bytes), t.hash(Sum.SHA512, c.bytes), t.hash(Sum.SHA1, c.bytes), t.hash(MD5, c.bytes))
  }

  /** The stanza names the file by the component, the package, the version and the architecture. */
  lemma UploadedAs(t: Tools, component: string, c: Candidate, deb: string)
    requires Legal(PoolPlace(component, c.control))
    requires deb == c.control.package + "_" + c.control.version + "_" + c.control.architecture + ".deb"
    ensures "lib" < c.control.package ==>
      StanzaOf(t, component, c).filename
      == "pool" + "/" + (component + "/" + ("lib" + [c.control.package[3]] + "/" + (c.control.package + "/" + deb)))
    ensures !("lib" < c.control.package) && c.control.package[0] != '.' ==>
      StanzaOf(t, component, c).filename
      == "pool" + "/" + (component + "/" + ([c.control.package[0]] + "/" + (c.control.package + "/" + deb)))
  {
    var package, version, architecture := c.control.package, c.control.version, c.control.architecture;
    if "lib" < package {
      LibraryPath(component, package, version, architecture);
    } else if package[0] != '.' {
      PackagePath(component, package, version, architecture);
    }
  }

  /** The stanzas of one architecture among the first n files, in batch order. */
  ghost function GroupOf(t: Tools, job: Job, arch: string, n: nat): seq<Stanza>
    requires GoodJob(job) && n <= |job.batch|
  {
    if n == 0 then []
    else
      var c := job.batch[n - 1];
      assert c in job.batch;
      GroupOf(t, job, arch, n - 1) + if c.control.architecture == arch then [StanzaOf(t, job.component, c)] else []
  }

  ghost function Group(t: Tools, job: Job, arch: string): seq<Stanza>
    requires GoodJob(job)
  {
    GroupOf(t, job, arch, |job.batch|)
  }

  ghost predicate HasArch(job: Job, arch: string) {
    exists c :: c in job.batch && c.control.architecture == arch
  }

  /** An order in which the runtime may range over the architectures of the batch. */
  ghost predicate ArchOrder(job: Job, order: seq<string>) {
    Distinct(order) && forall a :: a in order <==> HasArch(job, a)
  }

  function IndexPlace(job: Job, arch: string, ext: Ext): Place {
    Index(job.codename, job.component, arch, ext)
  }

  function ExtAt(n: nat): Ext
    requires n < 4
  {
    if n == 0 then Plain else if n == 1 then Gz else if n == 2 then Bz2 else Xz
  }

  /** The path of an index as the manifest names it. */
  function RelPath(component: string, arch: string, ext: Ext): string {
    component + "/" + "binary-" + arch + "/" + "Packages" + Suffix(ext)
  }

  function ChecksumOf(t: Tools, component: string, arch: string, ext: Ext, data: string): Checksum {
    Checksum(RelPath(component, arch, ext), |data|, t.hash(MD5, data), t.hash(Sum.SHA1, data),
             t.hash(Sum.SHA256, data), t.hash(Sum.SHA512, data))
  }

  /** The manifest of a publish over the architectures archs. */
  function ManifestOf(job: Job, archs: seq<string>, sums: seq<Checksum>): Manifest {
    job.config.(codename := job.codename, date := "", validUntil := "",
                architectures := archs, components := [job.component], indices := sums)
  }

  /** What is listed: the architectures of the batch, then the configured ones. */
  ghost predicate ListedArchs(job: Job, archs: seq<string>) {
    forall a :: a in archs <==> HasArch(job, a) || a in job.config.architectures
  }

  /** Where a publisher stands: in the uploads, between indexes, or between the variants of one. */
  datatype Stage =
    | Uploading(done: nat)
    | Indexing(todo: seq<string>, sums: seq<Checksum>)
    | Writing(arch: string, text: string, written: nat, todo: seq<string>, sums: seq<Checksum>)
    | Finished
    | Failed

  datatype Publisher = Publisher(job: Job, stage: Stage)

  type Store = map<Place, string>

  datatype Repo = Repo(store: Store, publishers: map<string, Publisher>)

  predicate Active(r: Repo, w: string) {
    w in r.publishers && !r.publishers[w].stage.Finished? && !r.publishers[w].stage.Failed?
  }

  predicate ActiveIn(r: Repo, codename: string, w: string) {
    Active(r, w) && r.publishers[w].job.codename == codename
  }

  // ----- steps -----

  /** now is the formatted time, written on the line of the date. */
  datatype Action =
    | Begin(job: Job)
    | Upload
    | GroupArchs(order: seq<string>)
    | Load(found: seq<Stanza>, sorted: seq<Stanza>, paras: seq<Para>, text: string)
    | LoadTorn(sorted: seq<Stanza>, paras: seq<Para>, text: string)
    | WriteIndex
    | Activate(archs: seq<string>, now: string, listed: seq<Checksum>, text: string)
    | Fail

  /** found is what reading the stored index may give; nothing when there is none. */
  ghost predicate Found(store: Store, place: Place, found: seq<Stanza>) {
    if place in store then CanParseIndex(store[place], found) else found == []
  }

  /** text may be written for the stanzas found, merged with the group of the batch. */
  ghost predicate Merges(t: Tools, job: Job, arch: string, found: seq<Stanza>, sorted: seq<Stanza>, paras: seq<Para>,
                         text: string)
    requires GoodJob(job)
  {
    IsSortOf(sorted, AddAll(found, Group(t, job, arch), job.preserve)) && Serializes(sorted, paras, text)
  }

  /** The action a of an active publisher, when it is enabled. */
  ghost predicate CanAct(t: Tools, store: Store, pub: Publisher, a: Action)
    requires GoodJob(pub.job)
  {
    var job, stage := pub.job, pub.stage;
    match a
    case Begin(_) => false
    case Upload => stage.Uploading? && stage.done < |job.batch|
    case GroupArchs(order) => stage.Uploading? && stage.done == |job.batch| && ArchOrder(job, order)
    case Load(found, sorted, paras, text) =>
      && stage.Indexing? && stage.todo != []
      && Found(store, IndexPlace(job, stage.todo[0], Plain), found)
      && Merges(t, job, stage.todo[0], found, sorted, paras, text)
    case LoadTorn(sorted, paras, text) =>
      && stage.Indexing? && stage.todo != []
      && IndexPlace(job, stage.todo[0], Plain) in store
      && Merges(t, job, stage.todo[0], [], sorted, paras, text)
    case WriteIndex => stage.Writing? && stage.written < 4
    case Activate(archs, now, listed, text) =>
      && stage.Indexing? && stage.todo == []
      && ListedArchs(job, archs) && OneLine(now) && IsRelease(ManifestOf(job, archs, stage.sums), now, listed, text)
    case Fail => !stage.Finished? && !stage.Failed?
  }

  function StageAfterWrite(t: Tools, job: Job, stage: Stage): Stage
    requires stage.Writing? && stage.written < 4
  {
    var ext := ExtAt(stage.written);
    var sums := stage.sums + [ChecksumOf(t, job.component, stage.arch, ext, t.pack(ext, stage.text))];
    if stage.written == 3 then Indexing(stage.todo, sums)
    else stage.(written := stage.written + 1, sums := sums)
  }

  ghost function StageAfter(t: Tools, store: Store, pub: Publisher, a: Action): Stage
    requires GoodJob(pub.job) && CanAct(t, store, pub, a)
  {
    var stage := pub.stage;
    match a
    case Upload => Uploading(stage.done + 1)
    case GroupArchs(order) => Indexing(order, [])
    case Load(_, _, _, text) => Writing(stage.todo[0], text, 0, stage.todo[1..], stage.sums)
    case LoadTorn(_, _, text) => Writing(stage.todo[0], text, 0, stage.todo[1..], stage.sums)
    case WriteIndex => StageAfterWrite(t, pub.job, stage)
    case Activate(_, _, _, _) => Finished
    case Fail => Failed
  }

  /** Each action makes at most one change to the store. */
  ghost function StoreAfter(t: Tools, store: Store, pub: Publisher, a: Action): Store
    requires GoodJob(pub.job) && CanAct(t, store, pub, a)
  {
    var job, stage := pub.job, pub.stage;
    match a
    case Upload => store[PoolPlace(job.component, job.batch[stage.done].control) := job.batch[stage.done].bytes]
    case WriteIndex =>
      store[IndexPlace(job, stage.arch, ExtAt(stage.written)) := t.pack(ExtAt(stage.written), stage.text)]
    case Activate(_, _, _, text) => store[ReleaseFile(job.codename) := text]
    case _ => store
  }

  datatype Move = Move(worker: string, action: Action)

  /** The step belongs to a publish of the codename. */
  predicate InCodename(r: Repo, m: Move, codename: string) {
    if m.action.Begin? then m.action.job.codename == codename
    else m.worker in r.publishers && r.publishers[m.worker].job.codename == codename
  }

  ghost predicate Next(t: Tools, r: Repo, m: Move, r': Repo) {
    if m.action.Begin? then
      !Active(r, m.worker) && GoodJob(m.action.job)
      && r' == r.(publishers := r.publishers[m.worker := Publisher(m.action.job, Uploading(0))])
    else
      Active(r, m.worker)
      && var pub := r.publishers[m.worker];
         GoodJob(pub.job) && CanAct(t, r.store, pub, m.action)
         && r' == Repo(StoreAfter(t, r.store, pub, m.action),
                       r.publishers[m.worker := Publisher(pub.job, StageAfter(t, r.store, pub, m.action))])
  }

  ghost predicate IsRun(t: Tools, states: seq<Repo>, moves: seq<Move>) {
    && |states| == |moves| + 1 && states[0].publishers == map[]
    && forall i :: 0 <= i < |moves| ==> Next(t, states[i], moves[i], states[i + 1])
  }
}
