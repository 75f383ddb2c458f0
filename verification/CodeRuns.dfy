/** What the theorems about runs say of the code: whatever the others did meanwhile, the run so far is
    one of the joint protocol. */
module CodeRuns {
  import opened PackageIndex
  import opened IndexRoundTrip
  import opened Paths
  import opened PublishProtocol
  import opened PublishIntegrity
  import opened PublishKeys
  import opened PublishLatest
  import opened JointProtocol
  import opened LockedPublishing
  import opened LockedResults
  import opened SharedWorld
  import LR = LockRecovery
  import LT = LockTiming

  // ----- what is stored -----

  /** s is a state of the run, so a crash may leave its store behind. */
  ghost predicate Passes(h: History, s: Joint) {
    match h
    case Origin(start) => s == start
    case After(past, _, next, _) => s == next || Passes(past, s)
  }

  lemma CrashIntact(t: Tools, r: Repo, w: string)
    requires IntegrityInv(t, r)
    ensures IntegrityInv(t, AfterCrash(r, w))
  {
    forall v ensures PublisherNames(AfterCrash(r, w), v) { assert PublisherNames(r, v); }
  }

  lemma IntactStep(x: Setting, s: Joint, m: JointMove, s': Joint)
    requires GoodTools(x.tools) && Allowed(x, s, m, s') && IntegrityInv(x.tools, s.repo)
    ensures IntegrityInv(x.tools, s'.repo)
  {
    match m
    case LockMove(move) => CrashIntact(x.tools, s.repo, move.worker);
    case PublishMove(step) => IntegrityStep(x.tools, s.repo, step, s'.repo);
  }

  /** Every state a run passes through is intact, if the first one was. */
  lemma {:induction false} IntactThroughout(x: Setting, h: History)
    requires GoodTools(x.tools) && LegalRun(x, h) && Integrity(x.tools, StartOf(h).repo.store)
    ensures IntegrityInv(x.tools, Now(h).repo) && forall s :: Passes(h, s) ==> Integrity(x.tools, s.repo.store)
  {
    LegalBack(x, h);
    match h
    case Origin(_) =>
    case After(past, move, next, _) =>
      IntactThroughout(x, past);
      IntactStep(x, Now(past), move, next);
  }

  // ----- when the lock excludes -----

  lemma {:induction false} NeverStaleMoves(h: History)
    requires NeverStale(h)
    ensures forall i :: 0 <= i < |MovesOf(h)| && MovesOf(h)[i].LockMove? ==> !MovesOf(h)[i].move.event.SeeStale?
  {
    match h
    case Origin(_) =>
    case After(past, _, _, _) => NeverStaleMoves(past);
  }

  lemma {:induction false} RunLengths(h: History)
    ensures |StatesOf(h)| == |MovesOf(h)| + 1 && StatesOf(h)[|MovesOf(h)|] == Now(h)
  {
    match h
    case Origin(_) =>
    case After(past, _, _, _) => RunLengths(past);
  }

  lemma {:induction false} InTimeRun(d: nat, g: LR.Gap, h: History)
    requires InTime(d, g, h)
    ensures |StatesOf(h)| == |MovesOf(h)| + 1 && TimedJoint(d, g, StatesOf(h), MovesOf(h))
  {
    RunLengths(h);
    match h
    case Origin(_) =>
    case After(past, m, next, _) =>
      InTimeRun(d, g, past);
      RunLengths(past);
      TimedExtends(d, g, StatesOf(past), MovesOf(past), m, next);
  }

  lemma TimedExtends(d: nat, g: LR.Gap, states: seq<Joint>, moves: seq<JointMove>, m: JointMove, s': Joint)
    requires |states| == |moves| + 1 && TimedJoint(d, g, states, moves) && LT.OnTime(s'.lock, d)
    requires m.LockMove? ==> !m.move.event.WriteLost? && LR.Respects(g, states[|moves|].lock, m.move)
    ensures TimedJoint(d, g, states + [s'], moves + [m])
  {
    var states', moves' := states + [s'], moves + [m];
    forall i | 0 <= i < |states'| ensures LT.OnTime(states'[i].lock, d) {
      if i < |states| { assert LT.OnTime(states[i].lock, d); }
    }
    forall i | 0 <= i < |moves'| && moves'[i].LockMove?
      ensures !moves'[i].move.event.WriteLost? && LR.Respects(g, states'[i].lock, moves'[i].move)
    {
      if i < |moves| { assert LR.Respects(g, states[i].lock, moves[i].move); }
    }
  }

  // ----- a successful publish -----

  lemma {:induction false} NeverTornMoves(h: History, w: string)
    requires NeverTorn(h, w)
    ensures forall i :: 0 <= i < |MovesOf(h)| && StepOf(MovesOf(h)[i], w) ==> !MovesOf(h)[i].step.action.LoadTorn?
  {
    match h
    case Origin(_) =>
    case After(past, _, _, _) => NeverTornMoves(past, w);
  }

  ghost predicate Excluded(x: Setting, h: History) {
    LockedRun(x.tools, x.ttl, x.codename, StatesOf(h), MovesOf(h))
  }

  lemma NeverStaleExcludes(x: Setting, h: History)
    requires LegalRun(x, h) && x.locking && NeverStale(h)
    ensures Excluded(x, h)
  {
    LegalIsRun(x, h);
    NeverStaleMoves(h);
    NoStaleReadsSuffice(x.tools, x.ttl, x.codename, StatesOf(h), MovesOf(h));
  }

  lemma InTimeExcludes(x: Setting, d: nat, g: LR.Gap, h: History)
    requires LegalRun(x, h) && x.locking && InTime(d, g, h) && LR.SafeGap(g) && LT.Margin(x.ttl, d, d)
    ensures Excluded(x, h)
  {
    LegalIsRun(x, h);
    InTimeRun(d, g, h);
    TimingSuffices(x.tools, x.ttl, d, g, x.codename, StatesOf(h), MovesOf(h));
  }

  /** After a successful call under the lock: the run so far is a run of the lock and the publishers
      in which the job was begun and finished, with no index taken for empty if no read broke off; and
      if no record was ever read as stale, or if it was in time, whatever stale locks were broken, the
      lock excluded in it. So what LockedResults says of such a publish holds of it. */
  lemma Published(world: World, job: Job) returns (a: nat, b: nat)
    requires world.Valid() && world.setting.locking && job.codename == world.setting.codename
    requires world.Mine(Publisher(job, Finished))
    ensures var x, h := world.setting, world.history;
      && IsJointRun(x.tools, x.ttl, x.codename, StatesOf(h), MovesOf(h))
      && Publishes(x.codename, MovesOf(h), world.me, job, a, b)
      && (NoBrokenRead(world.fate, world.calls) ==> !Torn(MovesOf(h), world.me, a, b))
      && (NeverStale(h) ==> Excluded(x, h))
      && (forall d, g :: InTime(d, g, h) && LR.SafeGap(g) && LT.Margin(x.ttl, d, d) ==> Excluded(x, h))
  {
    var x, h := world.setting, world.history;
    LegalIsRun(x, h);
    a, b := FinishedHasPublished(x.tools, x.ttl, StatesOf(h), MovesOf(h), world.me, job, |MovesOf(h)|);
    if NoBrokenRead(world.fate, world.calls) {
      HonestIsNeverTorn(world.fate, world.me, h, world.calls);
      NeverTornMoves(h, world.me);
    }
    if NeverStale(h) { NeverStaleExcludes(x, h); }
    forall d, g | InTime(d, g, h) && LR.SafeGap(g) && LT.Margin(x.ttl, d, d) ensures Excluded(x, h) {
      InTimeExcludes(x, d, g, h);
    }
  }

  // ----- no update is lost by the code -----

  /** The others preserve versions in the codename, and read its indexes without error. */
  ghost predicate OthersCareful(codename: string, me: string, h: History) {
    match h
    case Origin(_) => true
    case After(past, m, _, _) =>
      && OthersCareful(codename, me, past)
      && (m.PublishMove? && m.step.worker != me ==> Careful(Now(past).repo, m.step, codename))
  }

  /** All publishes of the codename that the process has begun preserve versions. */
  predicate Preserving(codename: string, deeds: seq<Deed>) {
    forall i :: 0 <= i < |deeds| && deeds[i].Begun? && deeds[i].job.codename == codename ==> deeds[i].job.preserve
  }

  lemma PreservingBack(codename: string, deeds: seq<Deed>, d: Deed)
    requires Preserving(codename, deeds + [d])
    ensures Preserving(codename, deeds) && (d.Begun? && d.job.codename == codename ==> d.job.preserve)
  {
    assert (deeds + [d])[|deeds|] == d;
    forall i | 0 <= i < |deeds| && deeds[i].Begun? && deeds[i].job.codename == codename ensures deeds[i].job.preserve {
      assert (deeds + [d])[i] == deeds[i];
    }
  }

  lemma OwnCareful(codename: string, me: string, past: History, m: JointMove, next: Joint, calls: nat)
    requires NeverTorn(After(past, m, next, calls), me) && m.PublishMove? && m.step.worker == me
    requires Preserving(codename, DeedsOf(After(past, m, next, calls), me))
    ensures Careful(Now(past).repo, m.step, codename) && Preserving(codename, DeedsOf(past, me))
  {
    var deed := DeedOf(m.step.action);
    if deed.Some? { PreservingBack(codename, DeedsOf(past, me), deed.value); }
  }

  lemma {:induction false} CarefulHistory(codename: string, me: string, h: History)
    requires OthersCareful(codename, me, h) && NeverTorn(h, me) && Preserving(codename, DeedsOf(h, me))
    ensures |StatesOf(h)| == |MovesOf(h)| + 1 && AllCareful(codename, StatesOf(h), MovesOf(h))
  {
    RunLengths(h);
    match h
    case Origin(_) =>
    case After(past, m, next, calls) =>
      if m.PublishMove? && m.step.worker == me { OwnCareful(codename, me, past, m, next, calls); }
      CarefulHistory(codename, me, past);
      RunLengths(past);
      CarefulExtends(codename, StatesOf(past), MovesOf(past), m, next);
  }

  lemma CarefulExtends(codename: string, states: seq<Joint>, moves: seq<JointMove>, m: JointMove, s': Joint)
    requires |states| == |moves| + 1 && AllCareful(codename, states, moves)
    requires m.PublishMove? ==> Careful(states[|moves|].repo, m.step, codename)
    ensures AllCareful(codename, states + [s'], moves + [m])
  {
    var states', moves' := states + [s'], moves + [m];
    forall i | 0 <= i < |moves'| && moves'[i].PublishMove? ensures Careful(states'[i].repo, moves'[i].step, codename) {
      if i < |moves| { assert Careful(states[i].repo, moves[i].step, codename); }
    }
  }

  lemma {:induction false} StartIsFirst(h: History)
    ensures |StatesOf(h)| > 0 && StatesOf(h)[0] == StartOf(h)
  {
    match h
    case Origin(_) =>
    case After(past, _, _, _) => StartIsFirst(past);
  }

  /** The group of an architecture of the batch has a stanza. */
  lemma BatchHasStanza(t: Tools, job: Job, arch: string)
    requires GoodJob(job) && HasArch(job, arch)
    ensures Keys(Group(t, job, arch)) != {}
  {
    var c :| c in job.batch && c.control.architecture == arch;
    var i :| 0 <= i < |job.batch| && job.batch[i] == c;
    var s := StanzaOf(t, job.component, c);
    LastInGroup(t, job, i + 1);
    InGroup(t, job, arch, s, i, |job.batch|);
    assert KeyOf(s) in Keys(Group(t, job, arch));
  }

  lemma DeliveredIsStored(t: Tools, store: Store, view: View, job: Job, arch: string)
    requires GoodJob(job) && HasArch(job, arch) && Delivered(t, view, job, arch)
    requires StoreKeyed(job.codename, store, view)
    ensures IndexPlace(job, arch, Plain) in store
  {
    BatchHasStanza(t, job, arch);
    assert PlaceKeyed(job.codename, store, view, IndexPlace(job, arch, Plain));
  }

  /** What the call needs for the fold to hold of it: no read of the process has ever broken off, its
      publishes of the codename preserve versions, and so do those of the others, without broken reads. */
  ghost predicate CarefulWorld(world: World, codename: string)
    reads world
  {
    && NoBrokenRead(world.fate, world.calls) && OthersCareful(codename, world.me, world.history)
    && Preserving(codename, DeedsOf(world.history, world.me))
  }

  /** The fold of the groups written so far. */
  ghost function ViewNow(world: World, view: View): View
    reads world
  {
    RunLengths(world.history);
    JointView(world.setting.tools, view, StatesOf(world.history), MovesOf(world.history), |MovesOf(world.history)|)
  }

  lemma FoldNow(world: World, view: View)
    requires world.Valid() && world.setting.locking && Excluded(world.setting, world.history)
    requires CarefulWorld(world, world.setting.codename)
    requires StoreKeyed(world.setting.codename, StartOf(world.history).repo.store, view)
    ensures StoreKeyed(world.setting.codename, world.joint.repo.store, ViewNow(world, view))
    ensures forall p :: KeysAt(view, p) <= KeysAt(ViewNow(world, view), p)
  {
    var x, h := world.setting, world.history;
    RunLengths(h);
    StartIsFirst(h);
    HonestIsNeverTorn(world.fate, world.me, h, world.calls);
    CarefulHistory(x.codename, world.me, h);
    LockedKeys(x.tools, x.ttl, x.codename, view, StatesOf(h), MovesOf(h), |MovesOf(h)|);
    forall p ensures KeysAt(view, p) <= KeysAt(ViewNow(world, view), p) {
      JointViewGrows(x.tools, view, StatesOf(h), MovesOf(h), 0, |MovesOf(h)|, p);
    }
  }

  lemma DeliveredNow(world: World, job: Job, view: View, arch: string)
    requires world.Valid() && world.setting.locking && Excluded(world.setting, world.history)
    requires job.codename == world.setting.codename && CarefulWorld(world, job.codename)
    requires StoreKeyed(job.codename, StartOf(world.history).repo.store, view)
    requires world.Mine(Publisher(job, Finished)) && GoodJob(job) && HasArch(job, arch)
    ensures Delivered(world.setting.tools, ViewNow(world, view), job, arch)
  {
    var x, h := world.setting, world.history;
    RunLengths(h);
    StartIsFirst(h);
    HonestIsNeverTorn(world.fate, world.me, h, world.calls);
    CarefulHistory(x.codename, world.me, h);
    var a, b := Published(world, job);
    StaysActive(x.tools, x.ttl, x.codename, StatesOf(h), MovesOf(h), world.me, job, a, b, b);
    CompletedIsNeverLost(x.tools, x.ttl, x.codename, view, StatesOf(h), MovesOf(h), b, |MovesOf(h)|, arch);
  }

  /** After a successful call under the lock, in a careful world: every index of the batch is stored,
      and every reader of a Packages of the codename finds everything that was stored first, and
      everything in the batch. */
  lemma NothingLost(world: World, job: Job, view: View, arch: string)
    requires world.Valid() && world.setting.locking && Excluded(world.setting, world.history)
    requires job.codename == world.setting.codename && CarefulWorld(world, job.codename)
    requires StoreKeyed(job.codename, StartOf(world.history).repo.store, view)
    requires world.Mine(Publisher(job, Finished)) && GoodJob(job)
    ensures var store, p := world.joint.repo.store, IndexPlace(job, arch, Plain);
      && (HasArch(job, arch) ==> p in store)
      && (p in store ==>
            forall idx :: CanParseIndex(store[p], idx) ==>
              && KeysAt(view, p) <= Keys(idx)
              && (HasArch(job, arch) ==> Keys(Group(world.setting.tools, job, arch)) <= Keys(idx)))
  {
    var p := IndexPlace(job, arch, Plain);
    FoldNow(world, view);
    if HasArch(job, arch) {
      DeliveredNow(world, job, view, arch);
      DeliveredIsStored(world.setting.tools, world.joint.repo.store, ViewNow(world, view), job, arch);
    }
    assert PlaceKeyed(job.codename, world.joint.repo.store, ViewNow(world, view), p);
  }
}
