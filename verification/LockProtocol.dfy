/** The lock object as a step system: any number of workers with distinct holder names, one step
    per storage call, heartbeat writes that are issued and land separately, a clock, crashes and
    failing calls. A worker is named by its holder string, so holders are distinct. */
module LockProtocol {
  import opened Text

  // ----- the lock object -----

  /** The stored JSON: unparseable, or a holder and an expiry (0 is the zero time, never expired). */
  datatype Record = Corrupt | Held(holder: string, expires: int)

  const CORRUPTED: string := "corrupted"

  function HolderOf(r: Record): string {
    if r.Corrupt? then CORRUPTED else r.holder
  }

  predicate Stale(r: Record, now: int) {
    r.Corrupt? || (r.expires != 0 && now > r.expires)
  }

  /** checkStale on what a Get returned, at the time the clock is read. */
  predicate ReadsStale(r: Option<Record>, now: int) {
    r.Some? && Stale(r.value, now)
  }

  const TEN_SECONDS: int := 10_000_000_000

  /** The ticker period max(ttl / 2, 10s), in nanoseconds. */
  function Interval(ttl: nat): nat {
    if ttl / 2 > TEN_SECONDS then ttl / 2 else TEN_SECONDS
  }

  // ----- workers -----

  /** Where a worker stands in Acquire, in the work under the lock, or in Release. */
  datatype Pc =
    | Idle
    | Loop
    | Trying(stamp: int)
    | Checking
    | Checked(seen: Option<Record>)
    | Jitter(existing: string)
    | Rechecking(existing: string)
    | Rechecked(existing: string, seen: Option<Record>)
    | Breaking
    | Backoff
    | Landed(stamp: int)
    | Holding(next: int)
    | ReleaseGet(since: int)
    | ReleaseDelete(since: int)
    | Crashed

  /** From the moment the put takes effect to the end of Release. */
  predicate Inside(pc: Pc) {
    pc.Landed? || pc.Holding? || pc.ReleaseGet? || pc.ReleaseDelete?
  }

  /** Between the second look at the lock and the end of the break. */
  predicate AboutToBreak(pc: Pc) {
    pc.Rechecked? || pc.Breaking?
  }

  /** A heartbeat write on its way to storage. */
  datatype Write = Write(holder: string, stamp: int)

  datatype Sys = Sys(now: int, lock: Option<Record>, workers: map<string, Pc>, flying: set<Write>)

  function PcOf(s: Sys, w: string): Pc {
    if w in s.workers then s.workers[w] else Idle
  }

  predicate IsInside(s: Sys, w: string) {
    Inside(PcOf(s, w))
  }

  /** LateTick: the heartbeat goroutine may take a tick that was ready when its channel closed at any
      time after, if it is scheduled late. GiveUp: the deadline has passed or the context is cancelled. */
  datatype Event =
    | Start | GiveUp | Stamp | PutLands | PutExists | PutFails | PutFailsLanded
    | PutReturns | ReadLock | ReadLockAgain | ReadFails | SeeFresh | SeeStale | WaitOver | StillStale | NoLongerStale
    | BreakDelete | BreakFails
    | Tick | LateTick | WriteLands(write: Write) | WriteLost(write: Write)
    | BeginRelease | ReleaseRead | ReleaseReadFails | ReleaseDone | ReleaseFails
    | Crash | Advance(time: int)

  function MovePc(s: Sys, w: string, pc: Pc): Sys {
    s.(workers := s.workers[w := pc])
  }

  /** The step e of worker w, when it is enabled; for landing writes and the clock w is ignored. */
  predicate Enabled(s: Sys, w: string, e: Event) {
    var pc := PcOf(s, w);
    match e
    case Start => pc == Idle
    case GiveUp => pc == Loop || pc.Jitter? || pc == Backoff
    case Stamp => pc == Loop
    case PutLands => pc.Trying? && s.lock == None
    case PutExists => pc.Trying? && s.lock.Some?
    case PutFails => pc.Trying?
    case PutFailsLanded => pc.Trying? && s.lock == None
    case PutReturns => pc.Landed?
    case ReadLock => pc == Checking
    case ReadLockAgain => pc.Rechecking?
    case ReadFails => pc == Checking || pc.Rechecking?
    case SeeFresh => pc.Checked? && !ReadsStale(pc.seen, s.now)
    case SeeStale => pc.Checked? && ReadsStale(pc.seen, s.now)
    case WaitOver => pc.Jitter? || pc == Backoff
    case StillStale => pc.Rechecked? && ReadsStale(pc.seen, s.now)
                       && (HolderOf(pc.seen.value) == pc.existing || pc.existing == CORRUPTED)
    case NoLongerStale => pc.Rechecked? && !(ReadsStale(pc.seen, s.now)
                          && (HolderOf(pc.seen.value) == pc.existing || pc.existing == CORRUPTED))
    case BreakDelete => pc == Breaking
    case BreakFails => pc == Breaking
    case Tick => pc.Holding? && s.now >= pc.next
    case LateTick => pc != Crashed
    case WriteLands(write) => write in s.flying
    case WriteLost(write) => write in s.flying
    case BeginRelease => pc.Holding?
    case ReleaseRead => pc.ReleaseGet?
    case ReleaseReadFails => pc.ReleaseGet?
    case ReleaseDone => pc.ReleaseDelete?
    case ReleaseFails => pc.ReleaseDelete?
    case Crash => true
    case Advance(time) => time > s.now
  }

  function AfterReleaseRead(lock: Option<Record>, w: string, since: int): Pc {
    match lock
    case None => Idle
    case Some(Corrupt) => ReleaseDelete(since)
    case Some(Held(holder, _)) => if holder == w then ReleaseDelete(since) else Idle
  }

  function Effect(ttl: nat, s: Sys, w: string, e: Event): Sys
    requires Enabled(s, w, e)
  {
    var pc := PcOf(s, w);
    match e
    case Start => MovePc(s, w, Loop)
    case GiveUp => MovePc(s, w, Idle)
    case Stamp => MovePc(s, w, Trying(s.now))
    case PutLands => MovePc(s, w, Landed(pc.stamp)).(lock := Some(Held(w, pc.stamp + ttl)))
    case PutExists => MovePc(s, w, Checking)
    case PutFails => MovePc(s, w, Idle)
    case PutFailsLanded => MovePc(s, w, Idle).(lock := Some(Held(w, pc.stamp + ttl)))
    case PutReturns => MovePc(s, w, Holding(s.now + Interval(ttl)))
    case ReadLock => MovePc(s, w, Checked(s.lock))
    case ReadLockAgain => MovePc(s, w, Rechecked(pc.existing, s.lock))
    case ReadFails => MovePc(s, w, if pc == Checking then Checked(None) else Rechecked(pc.existing, None))
    case SeeFresh => MovePc(s, w, Backoff)
    case SeeStale => MovePc(s, w, Jitter(HolderOf(pc.seen.value)))
    case WaitOver => MovePc(s, w, if pc.Jitter? then Rechecking(pc.existing) else Loop)
    case StillStale => MovePc(s, w, Breaking)
    case NoLongerStale => MovePc(s, w, Loop)
    case BreakDelete => MovePc(s, w, Loop).(lock := None)
    case BreakFails => MovePc(s, w, Loop)
    case Tick => MovePc(s, w, Holding(pc.next + Interval(ttl))).(flying := s.flying + {Write(w, s.now)})
    case LateTick => s.(flying := s.flying + {Write(w, s.now)})
    case WriteLands(write) => s.(flying := s.flying - {write}, lock := Some(Held(write.holder, write.stamp + ttl)))
    case WriteLost(write) => s.(flying := s.flying - {write})
    case BeginRelease => MovePc(s, w, ReleaseGet(s.now))
    case ReleaseRead => MovePc(s, w, AfterReleaseRead(s.lock, w, pc.since))
    case ReleaseReadFails => MovePc(s, w, ReleaseDelete(pc.since))
    case ReleaseDone => MovePc(s, w, Idle).(lock := None)
    case ReleaseFails => MovePc(s, w, Idle)
    case Crash => MovePc(s, w, Crashed)
    case Advance(time) => s.(now := time)
  }

  // ----- runs -----

  datatype Move = Move(worker: string, event: Event)

  predicate Next(ttl: nat, s: Sys, m: Move, s': Sys) {
    Enabled(s, m.worker, m.event) && s' == Effect(ttl, s, m.worker, m.event)
  }

  /** Nobody holds or wants the lock yet; the object and late writes of the past are arbitrary. */
  predicate Init(s: Sys) {
    forall w :: w in s.workers ==> s.workers[w] == Idle
  }

  predicate IsRun(ttl: nat, states: seq<Sys>, moves: seq<Move>) {
    && |states| == |moves| + 1 && Init(states[0])
    && forall i :: 0 <= i < |moves| ==> Next(ttl, states[i], moves[i], states[i + 1])
  }

  lemma RunExtends(ttl: nat, states: seq<Sys>, moves: seq<Move>, m: Move, s': Sys)
    requires IsRun(ttl, states, moves) && Next(ttl, states[|moves|], m, s')
    ensures IsRun(ttl, states + [s'], moves + [m])
  {
    var states', moves' := states + [s'], moves + [m];
    forall i | 0 <= i < |moves'| ensures Next(ttl, states'[i], moves'[i], states'[i + 1]) {
      if i < |moves| { assert Next(ttl, states[i], moves[i], states[i + 1]); }
    }
  }

  ghost predicate MutualExclusion(s: Sys) {
    forall a, b :: IsInside(s, a) && IsInside(s, b) ==> a == b
  }

  /** Steps that belong to no worker's program. */
  predicate IsAmbient(e: Event) {
    e.LateTick? || e.WriteLands? || e.WriteLost? || e.Advance?
  }

  lemma StepPc(ttl: nat, s: Sys, m: Move, s': Sys, w: string)
    requires Next(ttl, s, m, s')
    ensures w != m.worker || IsAmbient(m.event) ==> PcOf(s', w) == PcOf(s, w)
  {
  }

  // ----- mutual exclusion when no record is ever read as stale -----

  /** No look at the lock finds it expired or unparseable. */
  predicate NoStaleReads(moves: seq<Move>) {
    forall i :: 0 <= i < |moves| ==> !moves[i].event.SeeStale?
  }

  predicate Breaks(pc: Pc) {
    pc.Jitter? || pc.Rechecking? || AboutToBreak(pc)
  }

  /** One worker inside at most, and then there is a lock object, whoever it names. */
  ghost predicate QuietInv(s: Sys) {
    && MutualExclusion(s)
    && (forall w :: IsInside(s, w) ==> s.lock.Some?)
    && (forall w :: !Breaks(PcOf(s, w)))
  }

  /** Only a put that takes effect lets a worker in. */
  lemma EntersByPut(ttl: nat, s: Sys, m: Move, s': Sys, w: string)
    requires Next(ttl, s, m, s') && IsInside(s', w) && !IsInside(s, w)
    ensures m.event.PutLands? && w == m.worker && s.lock == None
  {
  }

  /** Only a break or a Release takes the lock object away. */
  lemma LeavesByDelete(ttl: nat, s: Sys, m: Move, s': Sys)
    requires Next(ttl, s, m, s') && s.lock.Some? && s'.lock == None
    ensures m.event.BreakDelete? || m.event.ReleaseDone?
  {
  }

  /** What a step keeps, if a break never deletes the lock of a worker inside. */
  lemma InsideStep(ttl: nat, s: Sys, m: Move, s': Sys)
    requires Next(ttl, s, m, s') && MutualExclusion(s)
    requires forall w :: IsInside(s, w) ==> s.lock.Some?
    requires m.event.BreakDelete? ==> forall w :: !IsInside(s, w)
    ensures MutualExclusion(s') && forall w :: IsInside(s', w) ==> s'.lock.Some?
  {
    forall a, b | IsInside(s', a) && IsInside(s', b) ensures a == b {
      if !IsInside(s, a) { EntersByPut(ttl, s, m, s', a); }
      if !IsInside(s, b) { EntersByPut(ttl, s, m, s', b); }
    }
    forall w | IsInside(s', w) ensures s'.lock.Some? {
      if !IsInside(s, w) { EntersByPut(ttl, s, m, s', w); }
      else if s'.lock == None {
        LeavesByDelete(ttl, s, m, s');
        assert IsInside(s, m.worker) && !IsInside(s', m.worker);
      }
    }
  }

  lemma QuietStep(ttl: nat, s: Sys, m: Move, s': Sys)
    requires QuietInv(s) && Next(ttl, s, m, s') && !m.event.SeeStale?
    ensures QuietInv(s')
  {
    assert !Breaks(PcOf(s, m.worker));
    InsideStep(ttl, s, m, s');
    forall w ensures !Breaks(PcOf(s', w)) { assert !Breaks(PcOf(s, w)); }
  }

  lemma {:induction false} QuietRun(ttl: nat, states: seq<Sys>, moves: seq<Move>, n: nat)
    requires IsRun(ttl, states, moves) && NoStaleReads(moves) && n < |states|
    ensures QuietInv(states[n])
  {
    if n > 0 {
      QuietRun(ttl, states, moves, n - 1);
      QuietStep(ttl, states[n - 1], moves[n - 1], states[n]);
    }
  }

  /** In every run in which no record is read as stale, at most one worker is between the effect of
      its put and the end of its Release, however late the writes of former holders land. */
  lemma ExclusionWithoutStaleReads(ttl: nat, states: seq<Sys>, moves: seq<Move>)
    requires IsRun(ttl, states, moves) && NoStaleReads(moves)
    ensures forall n :: 0 <= n < |states| ==> MutualExclusion(states[n])
  {
    forall n | 0 <= n < |states| ensures MutualExclusion(states[n]) {
      QuietRun(ttl, states, moves, n);
    }
  }
}
