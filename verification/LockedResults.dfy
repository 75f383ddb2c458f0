/** What a publish under the lock leaves behind. Between its first step and its Release file no other
    publish of the codename takes a step, while publishes of other codenames go on over the same
    pool. So its results hold when it has finished, and until the next publish of the codename. */
module LockedResults {
  import opened Deb822
  import opened Stanzas
  import opened IndexRoundTrip
  import opened Paths
  import opened PublishProtocol
  import opened MergeAgreement
  import opened PublishProgress
  import opened PublishAgreement
  import opened PublishLatest
  import opened PublishManifest
  import opened JointProtocol
  import opened LockedPublishing

  // ----- one publish in a run -----

  predicate StepOf(m: JointMove, w: string) {
    m.PublishMove? && m.step.worker == w
  }

  /** At step a the worker w begins the job, and its next Release file is step b. */
  predicate Publishes(codename: string, moves: seq<JointMove>, w: string, job: Job, a: nat, b: nat) {
    && a < b < |moves| && job.codename == codename
    && moves[a] == PublishMove(Move(w, Begin(job))) && StepOf(moves[b], w) && moves[b].step.action.Activate?
    && forall i :: a < i < b && StepOf(moves[i], w) ==> !moves[i].step.action.Begin?
  }

  /** A read of a stored index breaks off in between. */
  predicate Torn(moves: seq<JointMove>, w: string, a: nat, b: nat)
    requires b <= |moves|
  {
    exists i :: a < i < b && StepOf(moves[i], w) && moves[i].step.action.LoadTorn?
  }

  /** What the publish starts from. */
  function BaseOf(states: seq<Joint>, moves: seq<JointMove>, w: string, a: nat, b: nat): Base
    requires a < |states| && b <= |moves|
  {
    Base(states[a].repo.store, Torn(moves, w, a, b))
  }

  /** After step b and up to state n no publish of the codename takes a step. */
  predicate Rests(codename: string, states: seq<Joint>, moves: seq<JointMove>, b: nat, n: nat)
    requires |states| == |moves| + 1
  {
    && b < n <= |moves|
    && forall i :: b < i < n && moves[i].PublishMove? ==> !InCodename(states[i].repo, moves[i].step, codename)
  }

  lemma PublishBegins(t: Tools, ttl: nat, codename: string, states: seq<Joint>, moves: seq<JointMove>,
                      w: string, job: Job, a: nat, b: nat)
    requires IsJointRun(t, ttl, codename, states, moves) && Publishes(codename, moves, w, job, a, b)
    ensures GoodJob(job) && states[a + 1].repo.store == states[a].repo.store
    ensures w in states[a + 1].repo.publishers && states[a + 1].repo.publishers[w] == Publisher(job, Uploading(0))
  {
    JointStep(t, ttl, codename, states, moves, a);
  }

  lemma PublisherStays(t: Tools, ttl: nat, codename: string, s: Joint, m: JointMove, s': Joint, w: string)
    requires JointNext(t, ttl, codename, s, m, s') && w in s.repo.publishers
    requires StepOf(m, w) ==> !m.step.action.Begin?
    ensures w in s'.repo.publishers && s'.repo.publishers[w].job == s.repo.publishers[w].job
    ensures Active(s'.repo, w) ==> Active(s.repo, w)
  {
  }

  lemma StaysAt(t: Tools, ttl: nat, codename: string, states: seq<Joint>, moves: seq<JointMove>, w: string, n: nat)
    requires IsJointRun(t, ttl, codename, states, moves) && n < |moves| && w in states[n].repo.publishers
    requires StepOf(moves[n], w) ==> !moves[n].step.action.Begin?
    ensures w in states[n + 1].repo.publishers
    ensures states[n + 1].repo.publishers[w].job == states[n].repo.publishers[w].job
    ensures Active(states[n + 1].repo, w) ==> Active(states[n].repo, w)
  {
    JointStep(t, ttl, codename, states, moves, n);
    PublisherStays(t, ttl, codename, states[n], moves[n], states[n + 1], w);
  }

  lemma {:induction false} JobStays(t: Tools, ttl: nat, codename: string, states: seq<Joint>, moves: seq<JointMove>,
                                    w: string, job: Job, a: nat, b: nat, n: nat)
    requires IsJointRun(t, ttl, codename, states, moves) && Publishes(codename, moves, w, job, a, b) && a < n <= b
    ensures w in states[n].repo.publishers && states[n].repo.publishers[w].job == job
  {
    if n == a + 1 {
      PublishBegins(t, ttl, codename, states, moves, w, job, a, b);
    } else {
      JobStays(t, ttl, codename, states, moves, w, job, a, b, n - 1);
      StaysAt(t, ttl, codename, states, moves, w, n - 1);
    }
  }

  lemma ActiveAtActivate(t: Tools, ttl: nat, codename: string, s: Joint, m: JointMove, s': Joint)
    requires JointNext(t, ttl, codename, s, m, s') && m.PublishMove? && !m.step.action.Begin?
    ensures Active(s.repo, m.step.worker)
  {
  }

  lemma ActiveAtEnd(t: Tools, ttl: nat, codename: string, states: seq<Joint>, moves: seq<JointMove>,
                    w: string, job: Job, a: nat, b: nat)
    requires IsJointRun(t, ttl, codename, states, moves) && Publishes(codename, moves, w, job, a, b)
    ensures Active(states[b].repo, w)
  {
    JointStep(t, ttl, codename, states, moves, b);
    ActiveAtActivate(t, ttl, codename, states[b], moves[b], states[b + 1]);
  }

  /** It writes its Release file in the end, so it has not failed before. */
  lemma {:induction false} StaysActive(t: Tools, ttl: nat, codename: string, states: seq<Joint>, moves: seq<JointMove>,
                                       w: string, job: Job, a: nat, b: nat, n: nat)
    requires IsJointRun(t, ttl, codename, states, moves) && Publishes(codename, moves, w, job, a, b) && a < n <= b
    ensures ActiveIn(states[n].repo, codename, w) && states[n].repo.publishers[w].job == job
    decreases b - n
  {
    JobStays(t, ttl, codename, states, moves, w, job, a, b, n);
    if n == b {
      ActiveAtEnd(t, ttl, codename, states, moves, w, job, a, b);
    } else {
      StaysActive(t, ttl, codename, states, moves, w, job, a, b, n + 1);
      StaysAt(t, ttl, codename, states, moves, w, n);
    }
  }

  /** No other publish of the codename takes a step between the two. */
  lemma OthersOutside(t: Tools, ttl: nat, codename: string, states: seq<Joint>, moves: seq<JointMove>,
                      w: string, job: Job, a: nat, b: nat, n: nat)
    requires LockedRun(t, ttl, codename, states, moves) && Publishes(codename, moves, w, job, a, b) && a < n <= b
    requires moves[n].PublishMove? && !StepOf(moves[n], w)
    ensures !InCodename(states[n].repo, moves[n].step, codename)
  {
    StaysActive(t, ttl, codename, states, moves, w, job, a, b, n);
    JointStep(t, ttl, codename, states, moves, n);
    LockExcludes(t, ttl, codename, states, moves, n);
    AlwaysHold(t, ttl, codename, states, moves, n);
    OthersElsewhere(t, ttl, codename, states[n], moves[n].step, states[n + 1], w);
  }

  // ----- the indexes -----

  lemma LockProgress(t: Tools, ttl: nat, start: Base, job: Job, s: Joint, m: JointMove, s': Joint, w: string)
    requires GoodJob(job) && RepoProgress(t, start, job, s.repo, w)
    requires JointNext(t, ttl, job.codename, s, m, s') && m.LockMove?
    ensures RepoProgress(t, start, job, s'.repo, w)
  {
  }

  lemma JointProgress(t: Tools, ttl: nat, start: Base, job: Job, s: Joint, m: JointMove, s': Joint, w: string)
    requires GoodTools(t) && GoodJob(job) && RepoProgress(t, start, job, s.repo, w)
    requires JointNext(t, ttl, job.codename, s, m, s')
    requires StepOf(m, w) ==> !m.step.action.Begin? && (m.step.action.LoadTorn? ==> start.torn)
    requires m.PublishMove? && !StepOf(m, w) ==> !InCodename(s.repo, m.step, job.codename)
    ensures RepoProgress(t, start, job, s'.repo, w)
  {
    if m.LockMove? {
      LockProgress(t, ttl, start, job, s, m, s', w);
    } else if StepOf(m, w) {
      ProgressStep(t, start, job, s.repo, m.step, s'.repo);
    } else {
      ForeignProgress(t, start, job, s.repo, m.step, s'.repo, w);
    }
  }

  lemma ProgressAt(t: Tools, ttl: nat, start: Base, job: Job, states: seq<Joint>, moves: seq<JointMove>, w: string,
                   n: nat)
    requires GoodTools(t) && GoodJob(job) && IsJointRun(t, ttl, job.codename, states, moves) && n < |moves|
    requires RepoProgress(t, start, job, states[n].repo, w)
    requires StepOf(moves[n], w) ==> !moves[n].step.action.Begin? && (moves[n].step.action.LoadTorn? ==> start.torn)
    requires moves[n].PublishMove? && !StepOf(moves[n], w) ==> !InCodename(states[n].repo, moves[n].step, job.codename)
    ensures RepoProgress(t, start, job, states[n + 1].repo, w)
  {
    JointStep(t, ttl, job.codename, states, moves, n);
    JointProgress(t, ttl, start, job, states[n], moves[n], states[n + 1], w);
  }

  lemma OwnSteps(codename: string, moves: seq<JointMove>, w: string, job: Job, a: nat, b: nat, n: nat)
    requires Publishes(codename, moves, w, job, a, b) && a < n <= b
    ensures StepOf(moves[n], w) ==>
      !moves[n].step.action.Begin? && (moves[n].step.action.LoadTorn? ==> Torn(moves, w, a, b))
    ensures n < b ==> !(StepOf(moves[n], w) && moves[n].step.action.Begin?)
  {
  }

  lemma FirstProgress(t: Tools, start: Base, job: Job, r: Repo, w: string)
    requires GoodJob(job) && r.store == start.store
    requires w in r.publishers && r.publishers[w] == Publisher(job, Uploading(0))
    ensures RepoProgress(t, start, job, r, w)
  {
  }

  lemma {:induction false} PublishProgresses(t: Tools, ttl: nat, states: seq<Joint>, moves: seq<JointMove>,
                                             w: string, job: Job, a: nat, b: nat, n: nat)
    requires GoodTools(t) && LockedRun(t, ttl, job.codename, states, moves)
    requires Publishes(job.codename, moves, w, job, a, b) && a < n <= b + 1
    ensures GoodJob(job) && RepoProgress(t, BaseOf(states, moves, w, a, b), job, states[n].repo, w)
  {
    PublishBegins(t, ttl, job.codename, states, moves, w, job, a, b);
    var start := BaseOf(states, moves, w, a, b);
    if n == a + 1 {
      FirstProgress(t, start, job, states[n].repo, w);
    } else {
      PublishProgresses(t, ttl, states, moves, w, job, a, b, n - 1);
      OwnSteps(job.codename, moves, w, job, a, b, n - 1);
      if moves[n - 1].PublishMove? && !StepOf(moves[n - 1], w) {
        OthersOutside(t, ttl, job.codename, states, moves, w, job, a, b, n - 1);
      }
      ProgressAt(t, ttl, start, job, states, moves, w, n - 1);
    }
  }

  lemma FinishedIsCompleted(t: Tools, ttl: nat, states: seq<Joint>, moves: seq<JointMove>,
                            w: string, job: Job, a: nat, b: nat) returns (order: seq<string>)
    requires GoodTools(t) && LockedRun(t, ttl, job.codename, states, moves)
    requires Publishes(job.codename, moves, w, job, a, b)
    ensures GoodJob(job) && Completed(t, BaseOf(states, moves, w, a, b), job, states[b + 1].repo.store, order)
  {
    PublishProgresses(t, ttl, states, moves, w, job, a, b, b + 1);
    FinishedAt(t, ttl, job.codename, states, moves, w, job, a, b);
    order := OrderOf(t, BaseOf(states, moves, w, a, b), job, states[b + 1].repo, w);
  }

  lemma OrderOf(t: Tools, start: Base, job: Job, r: Repo, w: string) returns (order: seq<string>)
    requires GoodJob(job) && RepoProgress(t, start, job, r, w) && r.publishers[w].stage == Finished
    ensures Completed(t, start, job, r.store, order)
  {
    order :| Completed(t, start, job, r.store, order);
  }

  lemma StageIsFinished(t: Tools, ttl: nat, codename: string, s: Joint, m: JointMove, s': Joint)
    requires JointNext(t, ttl, codename, s, m, s') && m.PublishMove? && m.step.action.Activate?
    ensures m.step.worker in s'.repo.publishers && s'.repo.publishers[m.step.worker].stage == Finished
  {
  }

  lemma FinishedAt(t: Tools, ttl: nat, codename: string, states: seq<Joint>, moves: seq<JointMove>,
                   w: string, job: Job, a: nat, b: nat)
    requires IsJointRun(t, ttl, codename, states, moves) && Publishes(codename, moves, w, job, a, b)
    ensures w in states[b + 1].repo.publishers && states[b + 1].repo.publishers[w].stage == Finished
  {
    JointStep(t, ttl, codename, states, moves, b);
    StageIsFinished(t, ttl, codename, states[b], moves[b], states[b + 1]);
  }

  lemma JointKeeps(t: Tools, ttl: nat, codename: string, s: Joint, m: JointMove, s': Joint)
    requires JointNext(t, ttl, codename, s, m, s') && (m.PublishMove? ==> !InCodename(s.repo, m.step, codename))
    ensures SameIndexes(codename, s.repo.store, s'.repo.store)
  {
    if m.PublishMove? { ForeignKeeps(t, s.repo, m.step, s'.repo, codename); }
  }

  lemma KeepsAt(t: Tools, ttl: nat, codename: string, states: seq<Joint>, moves: seq<JointMove>, n: nat)
    requires IsJointRun(t, ttl, codename, states, moves) && n < |moves|
    requires moves[n].PublishMove? ==> !InCodename(states[n].repo, moves[n].step, codename)
    ensures SameIndexes(codename, states[n].repo.store, states[n + 1].repo.store)
  {
    JointStep(t, ttl, codename, states, moves, n);
    JointKeeps(t, ttl, codename, states[n], moves[n], states[n + 1]);
  }

  /** Until the next publish of the codename its indexes and its Release file stay. */
  lemma {:induction false} IndexesRest(t: Tools, ttl: nat, codename: string, states: seq<Joint>, moves: seq<JointMove>,
                                       b: nat, n: nat)
    requires IsJointRun(t, ttl, codename, states, moves) && Rests(codename, states, moves, b, n)
    ensures SameIndexes(codename, states[b + 1].repo.store, states[n].repo.store)
  {
    if n > b + 1 {
      IndexesRest(t, ttl, codename, states, moves, b, n - 1);
      KeepsAt(t, ttl, codename, states, moves, n - 1);
      SameTwice(codename, states[b + 1].repo.store, states[n - 1].repo.store, states[n].repo.store);
    }
  }

  /** When the Release file is written, and until the next publish of the codename, the publish is
      complete: its indexes merge what was stored when it began. */
  lemma StaysCompleted(t: Tools, ttl: nat, states: seq<Joint>, moves: seq<JointMove>,
                       w: string, job: Job, a: nat, b: nat, n: nat) returns (order: seq<string>)
    requires GoodTools(t) && LockedRun(t, ttl, job.codename, states, moves)
    requires Publishes(job.codename, moves, w, job, a, b) && Rests(job.codename, states, moves, b, n)
    ensures GoodJob(job) && Completed(t, BaseOf(states, moves, w, a, b), job, states[n].repo.store, order)
  {
    order := FinishedIsCompleted(t, ttl, states, moves, w, job, a, b);
    IndexesRest(t, ttl, job.codename, states, moves, b, n);
    KeepCompleted(t, BaseOf(states, moves, w, a, b), job, states[b + 1].repo.store, states[n].repo.store, order);
  }

  // ----- the pool -----

  /** The step puts these bytes at the place f of the pool. */
  predicate PutsFile(s: Joint, m: JointMove, f: Place, bytes: string) {
    && m.PublishMove? && m.step.action.Upload? && m.step.worker in s.repo.publishers
    && var pub := s.repo.publishers[m.step.worker];
       && pub.stage.Uploading? && pub.stage.done < |pub.job.batch|
       && f == PoolPlace(pub.job.component, pub.job.batch[pub.stage.done].control)
       && bytes == pub.job.batch[pub.stage.done].bytes
  }

  /** Step i, of another codename, puts these bytes at f, and no later step before n puts any there. */
  ghost predicate LastPut(codename: string, states: seq<Joint>, moves: seq<JointMove>, f: Place, bytes: string, i: nat,
                          n: nat)
    requires n <= |moves| < |states|
  {
    && i < n && PutsFile(states[i], moves[i], f, bytes) && !InCodename(states[i].repo, moves[i].step, codename)
    && forall j, x :: i < j < n ==> !PutsFile(states[j], moves[j], f, x)
  }

  lemma PoolStep(t: Tools, ttl: nat, codename: string, s: Joint, m: JointMove, s': Joint, f: Place)
    requires JointNext(t, ttl, codename, s, m, s') && f.Pool?
    ensures (forall x :: !PutsFile(s, m, f, x)) ==> SameAt(s.repo.store, s'.repo.store, f)
    ensures forall x :: PutsFile(s, m, f, x) ==> f in s'.repo.store && s'.repo.store[f] == x
  {
    if m.PublishMove? && m.step.action.Upload? {
      var pub := s.repo.publishers[m.step.worker];
      var c := pub.job.batch[pub.stage.done];
      assert PutsFile(s, m, PoolPlace(pub.job.component, c.control), c.bytes);
    }
  }

  lemma PoolAt(t: Tools, ttl: nat, codename: string, states: seq<Joint>, moves: seq<JointMove>, n: nat, f: Place)
    requires IsJointRun(t, ttl, codename, states, moves) && n < |moves| && f.Pool?
    ensures (forall x :: !PutsFile(states[n], moves[n], f, x)) ==>
        SameAt(states[n].repo.store, states[n + 1].repo.store, f)
    ensures forall x :: PutsFile(states[n], moves[n], f, x) ==>
        f in states[n + 1].repo.store && states[n + 1].repo.store[f] == x
  {
    JointStep(t, ttl, codename, states, moves, n);
    PoolStep(t, ttl, codename, states[n], moves[n], states[n + 1], f);
  }

  lemma {:induction false} LastPutStays(t: Tools, ttl: nat, codename: string, states: seq<Joint>, moves: seq<JointMove>,
                                        f: Place, bytes: string, i: nat, n: nat)
    requires IsJointRun(t, ttl, codename, states, moves) && n <= |moves|
    requires LastPut(codename, states, moves, f, bytes, i, n)
    ensures f in states[n].repo.store && states[n].repo.store[f] == bytes
  {
    PoolAt(t, ttl, codename, states, moves, n - 1, f);
    if i < n - 1 { LastPutStays(t, ttl, codename, states, moves, f, bytes, i, n - 1); }
  }

  function Uploaded(pub: Publisher): nat {
    if pub.stage.Uploading? && pub.stage.done <= |pub.job.batch| then pub.stage.done else |pub.job.batch|
  }

  /** At f the pool is as the first k uploads of the job leave it, or as another codename does. */
  ghost predicate FileAt(states: seq<Joint>, moves: seq<JointMove>, job: Job, a: nat, k: nat, n: nat, f: Place)
    requires a <= n <= |moves| < |states| && k <= |job.batch|
  {
    || SameAt(Uploads(states[a].repo.store, job, k), states[n].repo.store, f)
    || exists i, bytes :: a < i && LastPut(job.codename, states, moves, f, bytes, i, n)
  }

  /** Other steps than own uploads. */
  lemma FileStays(t: Tools, ttl: nat, states: seq<Joint>, moves: seq<JointMove>, job: Job, a: nat, k: nat, n: nat,
                  f: Place)
    requires IsJointRun(t, ttl, job.codename, states, moves) && f.Pool?
    requires a < n < |moves| && k <= |job.batch| && FileAt(states, moves, job, a, k, n, f)
    requires moves[n].PublishMove? && InCodename(states[n].repo, moves[n].step, job.codename) ==>
      forall x :: !PutsFile(states[n], moves[n], f, x)
    ensures FileAt(states, moves, job, a, k, n + 1, f)
  {
    PoolAt(t, ttl, job.codename, states, moves, n, f);
    if x :| PutsFile(states[n], moves[n], f, x) {
      assert LastPut(job.codename, states, moves, f, x, n, n + 1);
    } else if i, bytes :| a < i && LastPut(job.codename, states, moves, f, bytes, i, n) {
      assert LastPut(job.codename, states, moves, f, bytes, i, n + 1);
    }
  }

  lemma OwnUpload(t: Tools, ttl: nat, states: seq<Joint>, moves: seq<JointMove>, w: string, job: Job, a: nat, n: nat,
                  f: Place)
    requires IsJointRun(t, ttl, job.codename, states, moves) && f.Pool? && a < n < |moves|
    requires StepOf(moves[n], w) && moves[n].step.action.Upload?
    requires w in states[n].repo.publishers && states[n].repo.publishers[w].job == job
    requires FileAt(states, moves, job, a, Uploaded(states[n].repo.publishers[w]), n, f)
    ensures w in states[n + 1].repo.publishers && states[n + 1].repo.publishers[w].job == job
    ensures FileAt(states, moves, job, a, Uploaded(states[n + 1].repo.publishers[w]), n + 1, f)
  {
    JointStep(t, ttl, job.codename, states, moves, n);
    var k := states[n].repo.publishers[w].stage.done;
    PoolStep(t, ttl, job.codename, states[n], moves[n], states[n + 1], f);
    if f == PoolPlace(job.component, job.batch[k].control) {
      assert PutsFile(states[n], moves[n], f, job.batch[k].bytes);
    } else {
      FileStays(t, ttl, states, moves, job, a, k, n, f);
    }
  }

  lemma CountStays(t: Tools, ttl: nat, codename: string, s: Joint, m: JointMove, s': Joint, w: string)
    requires JointNext(t, ttl, codename, s, m, s') && Active(s.repo, w)
    requires StepOf(m, w) ==> !m.step.action.Begin? && !m.step.action.Upload? && !m.step.action.Fail?
    requires m.LockMove? && m.move.worker == w ==> !m.move.event.Crash?
    ensures w in s'.repo.publishers && s'.repo.publishers[w].job == s.repo.publishers[w].job
    ensures Uploaded(s'.repo.publishers[w]) == Uploaded(s.repo.publishers[w])
  {
  }

  lemma FileStep(t: Tools, ttl: nat, states: seq<Joint>, moves: seq<JointMove>, w: string, job: Job, a: nat, n: nat,
                 f: Place)
    requires IsJointRun(t, ttl, job.codename, states, moves) && f.Pool? && a < n < |moves|
    requires ActiveIn(states[n].repo, job.codename, w) && states[n].repo.publishers[w].job == job
    requires FileAt(states, moves, job, a, Uploaded(states[n].repo.publishers[w]), n, f)
    requires ActiveIn(states[n + 1].repo, job.codename, w) && states[n + 1].repo.publishers[w].job == job
    requires StepOf(moves[n], w) ==> !moves[n].step.action.Begin?
    requires moves[n].PublishMove? && !StepOf(moves[n], w) ==> !InCodename(states[n].repo, moves[n].step, job.codename)
    ensures FileAt(states, moves, job, a, Uploaded(states[n + 1].repo.publishers[w]), n + 1, f)
  {
    JointStep(t, ttl, job.codename, states, moves, n);
    if StepOf(moves[n], w) && moves[n].step.action.Upload? {
      OwnUpload(t, ttl, states, moves, w, job, a, n, f);
    } else {
      CountStays(t, ttl, job.codename, states[n], moves[n], states[n + 1], w);
      FileStays(t, ttl, states, moves, job, a, Uploaded(states[n].repo.publishers[w]), n, f);
    }
  }

  lemma FirstFile(t: Tools, ttl: nat, states: seq<Joint>, moves: seq<JointMove>, w: string, job: Job, a: nat, b: nat,
                  f: Place)
    requires IsJointRun(t, ttl, job.codename, states, moves) && Publishes(job.codename, moves, w, job, a, b)
    ensures w in states[a + 1].repo.publishers
    ensures FileAt(states, moves, job, a, 0, a + 1, f) && Uploaded(states[a + 1].repo.publishers[w]) == 0
  {
    PublishBegins(t, ttl, job.codename, states, moves, w, job, a, b);
  }

  lemma {:induction false} FileDuring(t: Tools, ttl: nat, states: seq<Joint>, moves: seq<JointMove>,
                                      w: string, job: Job, a: nat, b: nat, n: nat, f: Place)
    requires LockedRun(t, ttl, job.codename, states, moves) && Publishes(job.codename, moves, w, job, a, b)
    requires a < n <= b && f.Pool?
    ensures ActiveIn(states[n].repo, job.codename, w) && states[n].repo.publishers[w].job == job
    ensures FileAt(states, moves, job, a, Uploaded(states[n].repo.publishers[w]), n, f)
  {
    StaysActive(t, ttl, job.codename, states, moves, w, job, a, b, n);
    if n == a + 1 {
      FirstFile(t, ttl, states, moves, w, job, a, b, f);
    } else {
      FileDuring(t, ttl, states, moves, w, job, a, b, n - 1, f);
      OwnSteps(job.codename, moves, w, job, a, b, n - 1);
      if moves[n - 1].PublishMove? && !StepOf(moves[n - 1], w) {
        OthersOutside(t, ttl, job.codename, states, moves, w, job, a, b, n - 1);
      }
      FileStep(t, ttl, states, moves, w, job, a, n - 1, f);
    }
  }

  lemma FileFinished(t: Tools, ttl: nat, states: seq<Joint>, moves: seq<JointMove>,
                     w: string, job: Job, a: nat, b: nat, f: Place)
    requires LockedRun(t, ttl, job.codename, states, moves) && Publishes(job.codename, moves, w, job, a, b) && f.Pool?
    ensures FileAt(states, moves, job, a, |job.batch|, b + 1, f)
  {
    FileDuring(t, ttl, states, moves, w, job, a, b, b, f);
    JointStep(t, ttl, job.codename, states, moves, b);
    AllUploaded(t, states[b].repo, moves[b].step, states[b + 1].repo);
    FileStays(t, ttl, states, moves, job, a, |job.batch|, b, f);
  }

  lemma AllUploaded(t: Tools, r: Repo, m: Move, r': Repo)
    requires Next(t, r, m, r') && m.action.Activate?
    ensures m.worker in r.publishers && Uploaded(r.publishers[m.worker]) == |r.publishers[m.worker].job.batch|
  {
  }

  /** After the publish every file of the pool is as its uploads leave it, or as a later upload of
      another codename does. */
  lemma {:induction false} FileAfter(t: Tools, ttl: nat, states: seq<Joint>, moves: seq<JointMove>,
                                     w: string, job: Job, a: nat, b: nat, n: nat, f: Place)
    requires LockedRun(t, ttl, job.codename, states, moves) && Publishes(job.codename, moves, w, job, a, b)
    requires Rests(job.codename, states, moves, b, n) && f.Pool?
    ensures FileAt(states, moves, job, a, |job.batch|, n, f)
  {
    if n == b + 1 {
      FileFinished(t, ttl, states, moves, w, job, a, b, f);
    } else {
      FileAfter(t, ttl, states, moves, w, job, a, b, n - 1, f);
      FileStays(t, ttl, states, moves, job, a, |job.batch|, n - 1, f);
    }
  }

  // ----- the results -----

  /** The bytes have the size and the hashes of the file at f. */
  predicate Matches(t: Tools, files: Store, f: Place, bytes: string) {
    SameDigest(t, files, files[f := bytes], f)
  }

  lemma MatchesStored(t: Tools, files: Store, store: Store, f: Place)
    requires f in store
    ensures Matches(t, files, f, store[f]) ==> SameDigest(t, files, store, f)
    ensures SameDigest(t, files, store, f) ==> Matches(t, files, f, store[f])
  {
  }

  lemma FileMatches(t: Tools, ttl: nat, states: seq<Joint>, moves: seq<JointMove>,
                    w: string, job: Job, a: nat, b: nat, n: nat, f: Place)
    requires LockedRun(t, ttl, job.codename, states, moves) && Publishes(job.codename, moves, w, job, a, b)
    requires Rests(job.codename, states, moves, b, n) && f.Pool? && f in Uploads(states[a].repo.store, job, |job.batch|)
    ensures SameDigest(t, Uploads(states[a].repo.store, job, |job.batch|), states[n].repo.store, f)
       <==> forall i, bytes :: a < i && LastPut(job.codename, states, moves, f, bytes, i, n) ==>
              Matches(t, Uploads(states[a].repo.store, job, |job.batch|), f, bytes)
  {
    var files, store := Uploads(states[a].repo.store, job, |job.batch|), states[n].repo.store;
    FileAfter(t, ttl, states, moves, w, job, a, b, n, f);
    forall i, bytes | a < i && LastPut(job.codename, states, moves, f, bytes, i, n)
      ensures SameDigest(t, files, store, f) <==> Matches(t, files, f, bytes)
    {
      LastPutStays(t, ttl, job.codename, states, moves, f, bytes, i, n);
      MatchesStored(t, files, store, f);
    }
  }

  lemma NamedIsFile(t: Tools, files: Store, store: Store, codename: string, f: Place)
    requires AgreesWith(t, files, store, codename) && Named(t, store, codename, f)
    ensures f.Pool? && f in files
  {
    var p, idx, s :| NamedBy(t, store, codename, f, p, idx, s);
    NamedAgrees(t, files, store, codename, f, p, idx, s);
  }

  /** Checksums. If every stanza of the codename agreed with its file when a publish began, every
      one does so when it has finished, and until the next publish of the codename, if and only if
      every last upload of another codename to a file that an index of this one names has the size
      and the hashes of the file it replaces. */
  lemma ChecksumAgreement(t: Tools, ttl: nat, states: seq<Joint>, moves: seq<JointMove>,
                          w: string, job: Job, a: nat, b: nat, n: nat)
    requires GoodTools(t) && LockedRun(t, ttl, job.codename, states, moves)
    requires Publishes(job.codename, moves, w, job, a, b) && Rests(job.codename, states, moves, b, n)
    requires Agreement(t, states[a].repo.store, job.codename)
    ensures Agreement(t, states[n].repo.store, job.codename)
       <==> forall i, f, bytes ::
              a < i && LastPut(job.codename, states, moves, f, bytes, i, n)
              && Named(t, states[n].repo.store, job.codename, f) ==>
              Matches(t, Uploads(states[a].repo.store, job, |job.batch|), f, bytes)
  {
    var files, store := Uploads(states[a].repo.store, job, |job.batch|), states[n].repo.store;
    var order := StaysCompleted(t, ttl, states, moves, w, job, a, b, n);
    CompletedAgrees(t, BaseOf(states, moves, w, a, b), job, store, order);
    forall f | Named(t, store, job.codename, f)
      ensures SameDigest(t, files, store, f)
         <==> forall i, bytes :: a < i && LastPut(job.codename, states, moves, f, bytes, i, n) ==>
             Matches(t, files, f, bytes)
    {
      NamedIsFile(t, files, store, job.codename, f);
      FileMatches(t, ttl, states, moves, w, job, a, b, n, f);
    }
  }

  /** The latest version. Without preserved versions, every variant of the index of a file of the
      batch has one stanza for its package and architecture, the latest of the batch; every other
      name keeps the stanzas that were found when the publish began, with every field that lasts;
      and all are in the written order. */
  lemma LatestRemains(t: Tools, ttl: nat, states: seq<Joint>, moves: seq<JointMove>,
                      w: string, job: Job, a: nat, b: nat, n: nat, i: nat, e: Ext, idx: seq<Stanza>)
    returns (found: seq<Stanza>, x: Stanza)
    requires GoodTools(t) && LockedRun(t, ttl, job.codename, states, moves)
    requires Publishes(job.codename, moves, w, job, a, b) && Rests(job.codename, states, moves, b, n)
    requires !job.preserve && SortedBatch(job) && i < |job.batch|
    requires FoundInLines(states[a].repo.store, IndexPlace(job, job.batch[i].control.architecture, Plain))
    requires CanParseIndex(
               t.unpack(e, At(states[n].repo.store, IndexPlace(job, job.batch[i].control.architecture, e))), idx)
    ensures GoodJob(job) && OnlyLatest(t, BaseOf(states, moves, w, a, b), job, i, found, idx, x)
    ensures IndexPlace(job, job.batch[i].control.architecture, e) in states[n].repo.store
  {
    var order := StaysCompleted(t, ttl, states, moves, w, job, a, b, n);
    found, x := CompletedLatest(t, BaseOf(states, moves, w, a, b), job, states[n].repo.store, order, i, e, idx);
  }

  lemma CompletedLatest(t: Tools, start: Base, job: Job, store: Store, order: seq<string>, i: nat, e: Ext,
                        idx: seq<Stanza>)
    returns (found: seq<Stanza>, x: Stanza)
    requires GoodTools(t) && GoodJob(job) && Completed(t, start, job, store, order)
    requires !job.preserve && SortedBatch(job) && i < |job.batch|
    requires FoundInLines(start.store, IndexPlace(job, job.batch[i].control.architecture, Plain))
    requires CanParseIndex(t.unpack(e, At(store, IndexPlace(job, job.batch[i].control.architecture, e))), idx)
    ensures OnlyLatest(t, start, job, i, found, idx, x)
    ensures IndexPlace(job, job.batch[i].control.architecture, e) in store
  {
    var text := IndexHoldsMerge(t, start, job, store, order, i, e);
    found, x := LatestInFile(t, start, job, i, text, idx);
  }

  lemma IndexHoldsMerge(t: Tools, start: Base, job: Job, store: Store, order: seq<string>, i: nat, e: Ext)
    returns (text: string)
    requires GoodJob(job) && Progress(t, start, job, store, order, |order|, 0) && i < |job.batch|
    ensures IndexPlace(job, job.batch[i].control.architecture, e) in store
    ensures text == t.unpack(e, store[IndexPlace(job, job.batch[i].control.architecture, e)])
    ensures MergedFrom(t, start, job, job.batch[i].control.architecture, text)
  {
    var arch := job.batch[i].control.architecture;
    ArchIsDone(job, order, i, e);
    assert PlaceProgress(t, start, job, store, order, |order|, 0, IndexPlace(job, arch, e));
    text := t.unpack(e, store[IndexPlace(job, arch, e)]);
  }

  lemma ArchIsDone(job: Job, order: seq<string>, i: nat, e: Ext)
    requires ArchOrder(job, order) && i < |job.batch|
    ensures Done(order, |order|, 0, job.batch[i].control.architecture, e)
  {
    assert job.batch[i] in job.batch && HasArch(job, job.batch[i].control.architecture);
    assert order[..|order|] == order;
  }

  /** The Release file. Its reader finds the four variants of every architecture of the batch
      exactly once, sorted by path, each with the size and the hashes of the stored object. */
  lemma ReleaseMatchesStore(t: Tools, ttl: nat, states: seq<Joint>, moves: seq<JointMove>,
                            w: string, job: Job, a: nat, b: nat, n: nat)
    returns (order: seq<string>, p: Para)
    requires GoodTools(t) && LockedRun(t, ttl, job.codename, states, moves) && PlainJob(job)
    requires Publishes(job.codename, moves, w, job, a, b) && Rests(job.codename, states, moves, b, n)
    ensures ListsStore(t, job, states[n].repo.store, order, p)
  {
    order := StaysCompleted(t, ttl, states, moves, w, job, a, b, n);
    p := CompletedLists(t, BaseOf(states, moves, w, a, b), job, states[n].repo.store, order);
  }

  // ----- where a finished publish comes from -----

  lemma OneStepBack(t: Tools, ttl: nat, codename: string, s: Joint, m: JointMove, s': Joint, w: string)
    requires JointNext(t, ttl, codename, s, m, s') && w in s'.repo.publishers
    ensures StepOf(m, w) && m.step.action.Begin? ==> s'.repo.publishers[w] == Publisher(m.step.action.job, Uploading(0))
    ensures !(StepOf(m, w) && m.step.action.Begin?) ==>
      w in s.repo.publishers && s'.repo.publishers[w].job == s.repo.publishers[w].job
    ensures !StepOf(m, w) && s'.repo.publishers[w].stage == Finished ==> s'.repo.publishers[w] == s.repo.publishers[w]
    ensures StepOf(m, w) && s'.repo.publishers[w].stage == Finished ==> m.step.action.Activate?
  {
  }

  lemma BackAt(t: Tools, ttl: nat, codename: string, states: seq<Joint>, moves: seq<JointMove>, w: string, n: nat)
    requires IsJointRun(t, ttl, codename, states, moves) && n < |moves| && w in states[n + 1].repo.publishers
    ensures var m, pub := moves[n], states[n + 1].repo.publishers[w];
      && (StepOf(m, w) && m.step.action.Begin? ==> pub == Publisher(m.step.action.job, Uploading(0)))
      && (!(StepOf(m, w) && m.step.action.Begin?) ==>
            w in states[n].repo.publishers && pub.job == states[n].repo.publishers[w].job)
      && (!StepOf(m, w) && pub.stage == Finished ==> pub == states[n].repo.publishers[w])
      && (StepOf(m, w) && pub.stage == Finished ==> m.step.action.Activate?)
  {
    JointStep(t, ttl, codename, states, moves, n);
    OneStepBack(t, ttl, codename, states[n], moves[n], states[n + 1], w);
  }

  predicate NoBegin(moves: seq<JointMove>, w: string, a: nat, n: nat)
    requires n <= |moves|
  {
    forall i :: a < i < n && StepOf(moves[i], w) ==> !moves[i].step.action.Begin?
  }

  lemma {:induction false} LastBegin(t: Tools, ttl: nat, codename: string, states: seq<Joint>, moves: seq<JointMove>,
                                     w: string, n: nat) returns (a: nat)
    requires IsJointRun(t, ttl, codename, states, moves) && n <= |moves| && w in states[n].repo.publishers
    ensures a < n && moves[a] == PublishMove(Move(w, Begin(states[n].repo.publishers[w].job)))
    ensures NoBegin(moves, w, a, n)
  {
    BackAt(t, ttl, codename, states, moves, w, n - 1);
    if StepOf(moves[n - 1], w) && moves[n - 1].step.action.Begin? {
      a := n - 1;
    } else {
      a := LastBegin(t, ttl, codename, states, moves, w, n - 1);
    }
  }

  lemma {:induction false} LastActivate(t: Tools, ttl: nat, codename: string, states: seq<Joint>, moves: seq<JointMove>,
                                        w: string, n: nat) returns (b: nat)
    requires IsJointRun(t, ttl, codename, states, moves) && n <= |moves| && w in states[n].repo.publishers
    requires states[n].repo.publishers[w].stage == Finished
    ensures b < n && StepOf(moves[b], w) && moves[b].step.action.Activate? && NoBegin(moves, w, b, n)
  {
    BackAt(t, ttl, codename, states, moves, w, n - 1);
    if StepOf(moves[n - 1], w) {
      b := n - 1;
    } else {
      b := LastActivate(t, ttl, codename, states, moves, w, n - 1);
    }
  }

  /** A publisher that has finished a job has begun it and written its Release file, so the results
      above apply to it. */
  lemma FinishedHasPublished(t: Tools, ttl: nat, states: seq<Joint>, moves: seq<JointMove>, w: string, job: Job, n: nat)
    returns (a: nat, b: nat)
    requires IsJointRun(t, ttl, job.codename, states, moves) && n <= |moves|
    requires w in states[n].repo.publishers && states[n].repo.publishers[w] == Publisher(job, Finished)
    ensures b < n && Publishes(job.codename, moves, w, job, a, b) && NoBegin(moves, w, a, n)
  {
    a := LastBegin(t, ttl, job.codename, states, moves, w, n);
    b := LastActivate(t, ttl, job.codename, states, moves, w, n);
    assert !moves[b].step.action.Begin?;
  }
}
