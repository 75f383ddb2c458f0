/** The lock of one codename and all publishers, as one step system: publishes of the codename run
    between Acquire and Release of its lock, publishes of other codenames run at any time. */
module JointProtocol {
  import opened PublishProtocol
  import L = LockProtocol

  datatype Joint = Joint(lock: L.Sys, repo: Repo)

  datatype JointMove = LockMove(move: L.Move) | PublishMove(step: Move)

  /** A crash ends the publish of the crashed worker. */
  function AfterCrash(r: Repo, w: string): Repo {
    if Active(r, w) then r.(publishers := r.publishers[w := Publisher(r.publishers[w].job, Failed)]) else r
  }

  /** Any step of the lock or of a publisher. */
  ghost predicate FreeNext(t: Tools, ttl: nat, s: Joint, m: JointMove, s': Joint) {
    match m
    case LockMove(move) =>
      && L.Next(ttl, s.lock, move, s'.lock)
      && s'.repo == if move.event.Crash? then AfterCrash(s.repo, move.worker) else s.repo
    case PublishMove(step) =>
      Next(t, s.repo, step, s'.repo) && s'.lock == s.lock
  }

  /** A worker publishes the codename only while it holds its lock, and releases the lock only when
      it is done. Publishes of other codenames have locks of their own. */
  predicate Guarded(codename: string, s: Joint, m: JointMove) {
    match m
    case LockMove(move) => move.event.BeginRelease? ==> !ActiveIn(s.repo, codename, move.worker)
    case PublishMove(step) => InCodename(s.repo, step, codename) ==> L.PcOf(s.lock, step.worker).Holding?
  }

  ghost predicate JointNext(t: Tools, ttl: nat, codename: string, s: Joint, m: JointMove, s': Joint) {
    FreeNext(t, ttl, s, m, s') && Guarded(codename, s, m)
  }

  ghost predicate IsJointRun(t: Tools, ttl: nat, codename: string, states: seq<Joint>, moves: seq<JointMove>) {
    && |states| == |moves| + 1 && L.Init(states[0].lock) && states[0].repo.publishers == map[]
    && forall i :: 0 <= i < |moves| ==> StepAt(t, ttl, codename, states, moves, i)
  }

  ghost predicate StepAt(t: Tools, ttl: nat, codename: string, states: seq<Joint>, moves: seq<JointMove>, i: nat)
    requires i < |moves| < |states|
  {
    JointNext(t, ttl, codename, states[i], moves[i], states[i + 1])
  }

  lemma JointStep(t: Tools, ttl: nat, codename: string, states: seq<Joint>, moves: seq<JointMove>, i: nat)
    requires IsJointRun(t, ttl, codename, states, moves) && i < |moves|
    ensures JointNext(t, ttl, codename, states[i], moves[i], states[i + 1])
  {
    assert StepAt(t, ttl, codename, states, moves, i);
  }
}
