/** The lock and the publishers together: publishes of one codename run between Acquire and Release
    of its lock, publishes of other codenames run at any time. Mutual exclusion of the lock carries
    over to the stored indexes: no update is lost. */
module LockedPublishing {
  import opened PackageIndex
  import opened IndexRoundTrip
  import opened Paths
  import opened PublishProtocol
  import opened JointProtocol
  import opened PublishKeys
  import L = LockProtocol
  import LR = LockRecovery
  import LT = LockTiming
  import opened Stanzas

  /** A joint run in which the lock excludes. */
  ghost predicate LockedRun(t: Tools, ttl: nat, codename: string, states: seq<Joint>, moves: seq<JointMove>) {
    IsJointRun(t, ttl, codename, states, moves) && forall i :: 0 <= i < |states| ==> ExcludesAt(states, i)
  }

  ghost predicate ExcludesAt(states: seq<Joint>, i: nat)
    requires i < |states|
  {
    L.MutualExclusion(states[i].lock)
  }

  lemma LockExcludes(t: Tools, ttl: nat, codename: string, states: seq<Joint>, moves: seq<JointMove>, i: nat)
    requires LockedRun(t, ttl, codename, states, moves) && i < |states|
    ensures L.MutualExclusion(states[i].lock)
  {
    assert ExcludesAt(states, i);
  }

  // ----- whoever is publishing holds the lock -----

  ghost predicate PublishersHold(s: Joint, codename: string) {
    forall w :: ActiveIn(s.repo, codename, w) ==> L.PcOf(s.lock, w).Holding?
  }

  lemma HoldStep(t: Tools, ttl: nat, codename: string, s: Joint, m: JointMove, s': Joint)
    requires PublishersHold(s, codename) && JointNext(t, ttl, codename, s, m, s')
    ensures PublishersHold(s', codename)
  {
    forall w | ActiveIn(s'.repo, codename, w) ensures L.PcOf(s'.lock, w).Holding? {
      match m
      case LockMove(move) =>
        assert ActiveIn(s.repo, codename, w) && L.PcOf(s.lock, w).Holding?;
        HoldingKept(ttl, s.lock, move, s'.lock, w);
      case PublishMove(step) =>
        assert w != step.worker ==> ActiveIn(s.repo, codename, w);
    }
  }

  lemma HoldingKept(ttl: nat, s: L.Sys, m: L.Move, s': L.Sys, w: string)
    requires L.Next(ttl, s, m, s') && L.PcOf(s, w).Holding?
    requires w == m.worker ==> !m.event.BeginRelease? && !m.event.Crash?
    ensures L.PcOf(s', w).Holding?
  {
    L.StepPc(ttl, s, m, s', w);
  }

  lemma {:induction false} AlwaysHold(t: Tools, ttl: nat, codename: string, states: seq<Joint>, moves: seq<JointMove>,
                                      n: nat)
    requires IsJointRun(t, ttl, codename, states, moves) && n < |states|
    ensures PublishersHold(states[n], codename)
  {
    if n > 0 {
      AlwaysHold(t, ttl, codename, states, moves, n - 1);
      JointStep(t, ttl, codename, states, moves, n - 1);
      HoldStep(t, ttl, codename, states[n - 1], moves[n - 1], states[n]);
    }
  }

  lemma HoldersExclude(s: Joint, codename: string)
    requires PublishersHold(s, codename) && L.MutualExclusion(s.lock)
    ensures Exclusive(s.repo, codename)
  {
    forall a, b | ActiveIn(s.repo, codename, a) && ActiveIn(s.repo, codename, b) ensures a == b {
      assert L.IsInside(s.lock, a) && L.IsInside(s.lock, b);
    }
  }

  /** While one publish of the codename is active, every step of another worker belongs to another codename. */
  lemma OthersElsewhere(t: Tools, ttl: nat, codename: string, s: Joint, step: Move, s': Joint, w: string)
    requires PublishersHold(s, codename) && L.MutualExclusion(s.lock) && ActiveIn(s.repo, codename, w)
    requires JointNext(t, ttl, codename, s, PublishMove(step), s') && step.worker != w
    ensures !InCodename(s.repo, step, codename)
  {
    if InCodename(s.repo, step, codename) {
      assert L.IsInside(s.lock, w) && L.IsInside(s.lock, step.worker);
    }
  }

  // ----- the publishers' side -----

  ghost function JointViewAfter(t: Tools, view: View, s: Joint, m: JointMove): View {
    if m.PublishMove? then ViewAfter(t, view, s.repo, m.step) else view
  }

  /** The fold of the groups written in the first n steps, in the order of the lock. */
  ghost function JointView(t: Tools, view: View, states: seq<Joint>, moves: seq<JointMove>, n: nat): View
    requires n <= |moves| < |states|
  {
    if n == 0 then view else JointViewAfter(t, JointView(t, view, states, moves, n - 1), states[n - 1], moves[n - 1])
  }

  /** Publishes of the codename preserve versions, and read indexes without error. */
  ghost predicate AllCareful(codename: string, states: seq<Joint>, moves: seq<JointMove>)
    requires |states| == |moves| + 1
  {
    forall i :: 0 <= i < |moves| && moves[i].PublishMove? ==> Careful(states[i].repo, moves[i].step, codename)
  }

  lemma CrashKeyed(t: Tools, codename: string, view: View, r: Repo, w: string)
    requires KeysInv(t, codename, view, r)
    ensures KeysInv(t, codename, view, AfterCrash(r, w))
  {
    forall v ensures PublisherKeyed(t, codename, view, AfterCrash(r, w), v) {
      assert PublisherKeyed(t, codename, view, r, v);
    }
    assert StoreKeyed(codename, AfterCrash(r, w).store, view);
  }

  lemma JointKeysStep(t: Tools, ttl: nat, codename: string, view: View, s: Joint, m: JointMove, s': Joint)
    requires GoodTools(t) && KeysInv(t, codename, view, s.repo) && PublishersHold(s, codename)
    requires L.MutualExclusion(s.lock)
    requires JointNext(t, ttl, codename, s, m, s') && (m.PublishMove? ==> Careful(s.repo, m.step, codename))
    ensures KeysInv(t, codename, JointViewAfter(t, view, s, m), s'.repo)
  {
    match m
    case LockMove(move) => CrashKeyed(t, codename, view, s.repo, move.worker);
    case PublishMove(step) =>
      HoldersExclude(s, codename);
      KeysStep(t, codename, view, s.repo, step, s'.repo);
  }

  lemma {:induction false} LockedKeys(t: Tools, ttl: nat, codename: string, view: View, states: seq<Joint>,
                                      moves: seq<JointMove>, n: nat)
    requires GoodTools(t) && LockedRun(t, ttl, codename, states, moves) && AllCareful(codename, states, moves)
    requires StoreKeyed(codename, states[0].repo.store, view) && n <= |moves|
    ensures KeysInv(t, codename, JointView(t, view, states, moves, n), states[n].repo)
  {
    if n > 0 {
      LockedKeys(t, ttl, codename, view, states, moves, n - 1);
      JointStep(t, ttl, codename, states, moves, n - 1);
      LockExcludes(t, ttl, codename, states, moves, n - 1);
      AlwaysHold(t, ttl, codename, states, moves, n - 1);
      LastKeysStep(t, ttl, codename, view, states, moves, n);
    }
  }

  lemma LastKeysStep(t: Tools, ttl: nat, codename: string, view: View, states: seq<Joint>, moves: seq<JointMove>,
                     n: nat)
    requires GoodTools(t) && 0 < n <= |moves| && |states| == |moves| + 1
    requires KeysInv(t, codename, JointView(t, view, states, moves, n - 1), states[n - 1].repo)
    requires PublishersHold(states[n - 1], codename) && L.MutualExclusion(states[n - 1].lock)
    requires JointNext(t, ttl, codename, states[n - 1], moves[n - 1], states[n])
    requires moves[n - 1].PublishMove? ==> Careful(states[n - 1].repo, moves[n - 1].step, codename)
    ensures KeysInv(t, codename, JointView(t, view, states, moves, n), states[n].repo)
  {
    JointKeysStep(t, ttl, codename, JointView(t, view, states, moves, n - 1), states[n - 1], moves[n - 1], states[n]);
  }

  lemma {:induction false} JointViewGrows(t: Tools, view: View, states: seq<Joint>, moves: seq<JointMove>, m: nat,
                                          n: nat, p: Place)
    requires m <= n <= |moves| < |states|
    ensures KeysAt(JointView(t, view, states, moves, m), p) <= KeysAt(JointView(t, view, states, moves, n), p)
    decreases n
  {
    if m < n {
      JointViewGrows(t, view, states, moves, m, n - 1, p);
      if moves[n - 1].PublishMove? {
        ViewGrows(t, JointView(t, view, states, moves, n - 1), states[n - 1].repo, moves[n - 1].step, p);
      }
    }
  }

  /** Under the lock every stored Packages of the codename reads, at any time and for any reader, as
      the fold of the groups written to it so far, if publishes preserve versions and read indexes
      without error, and if what was stored at first can be read in one way. */
  lemma LockedIndexIsFold(t: Tools, ttl: nat, codename: string, view: View, states: seq<Joint>, moves: seq<JointMove>,
                          n: nat, p: Place, idx: seq<Stanza>)
    requires GoodTools(t) && LockedRun(t, ttl, codename, states, moves) && AllCareful(codename, states, moves)
    requires StoreKeyed(codename, states[0].repo.store, view) && n <= |moves|
    requires IsPackages(p) && p.codename == codename && p in states[n].repo.store
    requires CanParseIndex(states[n].repo.store[p], idx)
    ensures Keys(idx) == KeysAt(JointView(t, view, states, moves, n), p)
  {
    LockedKeys(t, ttl, codename, view, states, moves, n);
    assert PlaceKeyed(codename, states[n].repo.store, JointView(t, view, states, moves, n), p);
  }

  /** And no update is lost: the keys of a publish completed at step m are there at every later n. */
  lemma CompletedIsNeverLost(t: Tools, ttl: nat, codename: string, view: View, states: seq<Joint>,
                             moves: seq<JointMove>,
                             m: nat, n: nat, arch: string)
    requires GoodTools(t) && LockedRun(t, ttl, codename, states, moves) && AllCareful(codename, states, moves)
    requires StoreKeyed(codename, states[0].repo.store, view)
    requires m < n <= |moves| && moves[m].PublishMove? && moves[m].step.action.Activate?
    requires ActiveIn(states[m].repo, codename, moves[m].step.worker)
    requires GoodJob(states[m].repo.publishers[moves[m].step.worker].job)
    requires HasArch(states[m].repo.publishers[moves[m].step.worker].job, arch)
    ensures Delivered(t, JointView(t, view, states, moves, n), states[m].repo.publishers[moves[m].step.worker].job,
                      arch)
  {
    var r, step := states[m].repo, moves[m].step;
    LockedKeys(t, ttl, codename, view, states, moves, m);
    JointStep(t, ttl, codename, states, moves, m);
    ActivateDelivers(t, codename, JointView(t, view, states, moves, m), r, step, states[m + 1].repo, arch);
    JointViewGrows(t, view, states, moves, m, n, IndexPlace(r.publishers[step.worker].job, arch, Plain));
  }

  lemma ActivateDelivers(t: Tools, codename: string, view: View, r: Repo, m: Move, r': Repo, arch: string)
    requires KeysInv(t, codename, view, r) && Next(t, r, m, r') && m.action.Activate?
    requires ActiveIn(r, codename, m.worker) && HasArch(r.publishers[m.worker].job, arch)
    ensures Delivered(t, view, r.publishers[m.worker].job, arch)
  {
    assert PublisherKeyed(t, codename, view, r, m.worker);
  }

  // ----- when the lock excludes -----

  /** If no record is ever read as stale, the lock excludes in every joint run. */
  lemma {:induction false} QuietJoint(t: Tools, ttl: nat, codename: string, states: seq<Joint>, moves: seq<JointMove>,
                                      n: nat)
    requires IsJointRun(t, ttl, codename, states, moves) && n < |states|
    requires forall i :: 0 <= i < |moves| && moves[i].LockMove? ==> !moves[i].move.event.SeeStale?
    ensures L.QuietInv(states[n].lock)
  {
    if n > 0 {
      QuietJoint(t, ttl, codename, states, moves, n - 1);
      JointStep(t, ttl, codename, states, moves, n - 1);
      if moves[n - 1].LockMove? {
        L.QuietStep(ttl, states[n - 1].lock, moves[n - 1].move, states[n].lock);
      }
    }
  }

  lemma NoStaleReadsSuffice(t: Tools, ttl: nat, codename: string, states: seq<Joint>, moves: seq<JointMove>)
    requires IsJointRun(t, ttl, codename, states, moves)
    requires forall i :: 0 <= i < |moves| && moves[i].LockMove? ==> !moves[i].move.event.SeeStale?
    ensures LockedRun(t, ttl, codename, states, moves)
  {
    forall i | 0 <= i < |states| ensures ExcludesAt(states, i) { QuietJoint(t, ttl, codename, states, moves, i); }
  }

  /** The lock moves of a timed run: calls and ticks in time, no heartbeat write lost, and between a
      worker's second look and its delete only the changes that g permits. */
  ghost predicate TimedJoint(d: nat, g: LR.Gap, states: seq<Joint>, moves: seq<JointMove>)
    requires |states| == |moves| + 1
  {
    && (forall i :: 0 <= i < |states| ==> LT.OnTime(states[i].lock, d))
    && (forall i :: 0 <= i < |moves| && moves[i].LockMove? ==>
          !moves[i].move.event.WriteLost? && LR.Respects(g, states[i].lock, moves[i].move))
  }

  lemma {:induction false} TimedJointInv(t: Tools, ttl: nat, d: nat, g: LR.Gap, codename: string, states: seq<Joint>,
                                         moves: seq<JointMove>, n: nat)
    requires IsJointRun(t, ttl, codename, states, moves) && TimedJoint(d, g, states, moves)
    requires LT.Margin(ttl, d, d) && LR.SafeGap(g) && n < |states|
    ensures LT.TimedInv(ttl, d, g, states[n].lock)
  {
    if n > 0 {
      TimedJointInv(t, ttl, d, g, codename, states, moves, n - 1);
      JointStep(t, ttl, codename, states, moves, n - 1);
      if moves[n - 1].LockMove? {
        LT.TimedStep(ttl, d, g, states[n - 1].lock, moves[n - 1].move, states[n].lock);
      }
    }
  }

  /** With crashes and stale locks, timing suffices. */
  lemma TimingSuffices(t: Tools, ttl: nat, d: nat, g: LR.Gap, codename: string, states: seq<Joint>,
                       moves: seq<JointMove>)
    requires IsJointRun(t, ttl, codename, states, moves) && TimedJoint(d, g, states, moves)
    requires LT.Margin(ttl, d, d) && LR.SafeGap(g)
    ensures LockedRun(t, ttl, codename, states, moves)
  {
    forall i | 0 <= i < |states| ensures ExcludesAt(states, i) {
      TimedJointInv(t, ttl, d, g, codename, states, moves, i);
    }
  }
}
