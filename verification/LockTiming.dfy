/** Timing replaces the assumption that live records stay unexpired. If every storage call ends
    within d, heartbeats come in time against records overwritten by the late writes of former
    holders, whether or not the lock excludes; and then it does. */
module LockTiming {
  import opened Text
  import opened LockProtocol
  import opened LockRecovery

  /** No call has been under way for longer than d (Release makes two), and no tick is overdue. */
  predicate PcOnTime(pc: Pc, now: int, d: nat) {
    match pc
    case Trying(stamp) => stamp <= now <= stamp + d
    case Landed(stamp) => stamp <= now <= stamp + d
    case Holding(next) => now <= next
    case ReleaseGet(since) => since <= now <= since + d
    case ReleaseDelete(since) => since <= now <= since + 2 * d
    case _ => true
  }

  ghost predicate OnTime(s: Sys, d: nat) {
    && (forall w :: PcOnTime(PcOf(s, w), s.now, d))
    && (forall x :: x in s.flying ==> x.stamp <= s.now <= x.stamp + d)
  }

  // ----- how long a record lasts -----

  /** The record lasts until the time given, or until a write under way lands. */
  ghost predicate Lasts(s: Sys, d: nat, expires: int, until: int) {
    expires >= until || exists x :: x in s.flying && expires >= x.stamp + d
  }

  /** The time until which the record must last for a worker at pc: until its next write lands, and
      for the time rest beyond. Up to the end of Release it must last if rest is d. */
  function Deadline(ttl: nat, d: nat, rest: nat, pc: Pc): int
    requires Inside(pc)
  {
    match pc
    case Landed(stamp) => stamp + 2 * d + rest + Interval(ttl)
    case Holding(next) => next + d + rest
    case ReleaseGet(since) => since + 2 * d
    case ReleaseDelete(since) => since + 2 * d
  }

  predicate Working(pc: Pc) {
    pc.Landed? || pc.Holding?
  }

  /** The workers whose record must last. */
  predicate Counts(rest: nat, d: nat, pc: Pc) {
    Working(pc) || (rest == d && Inside(pc))
  }

  ghost predicate Covered(ttl: nat, d: nat, rest: nat, s: Sys, w: string) {
    Counts(rest, d, PcOf(s, w)) ==>
      && s.lock != Some(Corrupt)
      && (s.lock.Some? ==> Lasts(s, d, s.lock.value.expires, Deadline(ttl, d, rest, PcOf(s, w))))
      && (PcOf(s, w).Holding? ==> PcOf(s, w).next <= s.now + Interval(ttl))
  }

  ghost predicate AllCovered(ttl: nat, d: nat, rest: nat, s: Sys) {
    forall w :: Covered(ttl, d, rest, s, w)
  }

  /** The record is not expired, if there is one. */
  predicate NotExpired(s: Sys) {
    s.lock.Some? ==> !Stale(s.lock.value, s.now)
  }

  lemma CoveredIsNotExpired(ttl: nat, d: nat, rest: nat, s: Sys, w: string)
    requires OnTime(s, d) && Covered(ttl, d, rest, s, w) && Counts(rest, d, PcOf(s, w))
    ensures NotExpired(s)
  {
    assert PcOnTime(PcOf(s, w), s.now, d);
  }

  // ----- what keeps records lasting -----

  predicate Recorded(lock: Option<Record>, since: int, ttl: nat) {
    lock.Some? && lock.value.Held? && lock.value.expires >= since + ttl
  }

  /** A record stamped at most d ago lasts for everybody inside; just after a put it may be older
      than the put by d. */
  lemma FreshRecordCovers(ttl: nat, d: nat, rest: nat, s: Sys, w: string)
    requires rest <= d && 2 * d + rest + Interval(ttl) <= ttl && PcOnTime(PcOf(s, w), s.now, d)
    requires PcOf(s, w).Landed? ==> 3 * d + rest + Interval(ttl) <= ttl
    requires PcOf(s, w).Holding? ==> PcOf(s, w).next <= s.now + Interval(ttl)
    requires Recorded(s.lock, s.now - d, ttl)
    ensures Covered(ttl, d, rest, s, w)
  {
  }

  /** Steps that put a new record in place. */
  predicate PutsRecord(e: Event) {
    e.WriteLands? || e.PutLands? || e.PutFailsLanded?
  }

  lemma NewRecordIsFresh(ttl: nat, d: nat, s: Sys, m: Move, s': Sys)
    requires OnTime(s, d) && Next(ttl, s, m, s') && PutsRecord(m.event)
    ensures s'.now == s.now && Recorded(s'.lock, s'.now - d, ttl)
  {
    assert PcOnTime(PcOf(s, m.worker), s.now, d);
  }

  lemma OldRecordStays(ttl: nat, s: Sys, m: Move, s': Sys)
    requires Next(ttl, s, m, s') && !PutsRecord(m.event) && !m.event.WriteLost?
    ensures s'.lock == s.lock || s'.lock == None
    ensures s.flying <= s'.flying && s.now <= s'.now
  {
  }

  lemma LastsMore(s: Sys, s': Sys, d: nat, expires: int, until: int, until': int)
    requires Lasts(s, d, expires, until) && until' <= until && s.flying <= s'.flying
    ensures Lasts(s', d, expires, until')
  {
    if expires < until {
      var x :| x in s.flying && expires >= x.stamp + d;
      assert x in s'.flying;
    }
  }

  /** A worker whose pc stays keeps its record, unless a new one comes. */
  lemma SamePcCovered(ttl: nat, d: nat, rest: nat, s: Sys, m: Move, s': Sys, w: string)
    requires Covered(ttl, d, rest, s, w) && Next(ttl, s, m, s') && !PutsRecord(m.event) && !m.event.WriteLost?
    requires PcOf(s', w) == PcOf(s, w)
    ensures Covered(ttl, d, rest, s', w)
  {
    OldRecordStays(ttl, s, m, s');
    if Counts(rest, d, PcOf(s, w)) && s'.lock.Some? {
      var until := Deadline(ttl, d, rest, PcOf(s, w));
      LastsMore(s, s', d, s.lock.value.expires, until, until);
    }
  }

  /** The worker's own steps, but for its put. */
  lemma OwnStepCovered(ttl: nat, d: nat, rest: nat, s: Sys, m: Move, s': Sys)
    requires rest <= d && 2 * d + rest + Interval(ttl) <= ttl
    requires Covered(ttl, d, rest, s, m.worker) && OnTime(s, d) && Next(ttl, s, m, s')
    requires !PutsRecord(m.event) && !IsAmbient(m.event)
    ensures Covered(ttl, d, rest, s', m.worker)
  {
    var w := m.worker;
    OldRecordStays(ttl, s, m, s');
    assert PcOnTime(PcOf(s, w), s.now, d);
    if Counts(rest, d, PcOf(s', w)) {
      OwnPc(ttl, s, m, s');
      if s'.lock.Some? { OwnStepLasts(ttl, d, rest, s, m, s'); }
    }
  }

  /** Inside, a worker moves from the put to the work, and from there to Release. */
  lemma OwnPc(ttl: nat, s: Sys, m: Move, s': Sys)
    requires Next(ttl, s, m, s') && !PutsRecord(m.event) && !IsAmbient(m.event) && IsInside(s', m.worker)
    ensures IsInside(s, m.worker)
    ensures Working(PcOf(s', m.worker)) ==> Working(PcOf(s, m.worker)) && PcOf(s', m.worker).Holding?
    ensures PcOf(s', m.worker).Holding? ==>
      PcOf(s', m.worker).next == (if PcOf(s, m.worker).Landed? then s.now else PcOf(s, m.worker).next) + Interval(ttl)
    ensures PcOf(s', m.worker).Holding? && PcOf(s, m.worker).Holding? ==>
      s.now >= PcOf(s, m.worker).next && Write(m.worker, s.now) in s'.flying
    ensures s'.now == s.now
    ensures !Working(PcOf(s', m.worker)) && PcOf(s, m.worker).Holding? ==> PcOf(s', m.worker) == ReleaseGet(s.now)
    ensures !Working(PcOf(s', m.worker)) ==>
      PcOf(s, m.worker).Holding?
          || (PcOf(s, m.worker).ReleaseGet? && PcOf(s', m.worker) == ReleaseDelete(PcOf(s, m.worker).since))
  {
  }

  lemma OwnStepLasts(ttl: nat, d: nat, rest: nat, s: Sys, m: Move, s': Sys)
    requires rest <= d && 2 * d + rest + Interval(ttl) <= ttl
    requires Covered(ttl, d, rest, s, m.worker) && PcOnTime(PcOf(s, m.worker), s.now, d) && Next(ttl, s, m, s')
    requires !PutsRecord(m.event) && !IsAmbient(m.event) && Counts(rest, d, PcOf(s', m.worker)) && s'.lock.Some?
    ensures s'.lock == s.lock && s.lock.value.Held?
    ensures Lasts(s', d, s.lock.value.expires, Deadline(ttl, d, rest, PcOf(s', m.worker)))
  {
    OldRecordStays(ttl, s, m, s');
    OwnPc(ttl, s, m, s');
    var pc, pc' := PcOf(s, m.worker), PcOf(s', m.worker);
    var until, until' := Deadline(ttl, d, rest, pc), Deadline(ttl, d, rest, pc');
    if pc.Holding? && pc'.Holding? {
      LastsMore(s, s', d, s.lock.value.expires, until, until);
      assert s.lock.value.expires >= until ==> s.lock.value.expires >= Write(m.worker, s.now).stamp + d;
    } else {
      LastsMore(s, s', d, s.lock.value.expires, until, until');
    }
  }

  // ----- steps and runs -----

  /** Late writes of former holders cost one call, and Release another (rest is d). */
  predicate Margin(ttl: nat, d: nat, rest: nat) {
    rest <= d && 3 * d + rest + Interval(ttl) <= ttl
  }

  lemma NewRecordCovers(ttl: nat, d: nat, rest: nat, s: Sys, m: Move, s': Sys, w: string)
    requires Margin(ttl, d, rest) && Covered(ttl, d, rest, s, w) && OnTime(s, d) && Next(ttl, s, m, s')
    requires PutsRecord(m.event)
    ensures Covered(ttl, d, rest, s', w)
  {
    NewRecordIsFresh(ttl, d, s, m, s');
    assert PcOnTime(PcOf(s, w), s.now, d);
    if PcOf(s', w) == PcOf(s, w) {
      if Counts(rest, d, PcOf(s, w)) { FreshRecordCovers(ttl, d, rest, s', w); }
    } else {
      PutPc(ttl, s, m, s', w);
      if IsInside(s', w) { FreshRecordCovers(ttl, d, rest, s', w); }
    }
  }

  lemma PutPc(ttl: nat, s: Sys, m: Move, s': Sys, w: string)
    requires Next(ttl, s, m, s') && PutsRecord(m.event) && PcOf(s', w) != PcOf(s, w)
    ensures PcOf(s, w).Trying? && (PcOf(s', w) == Landed(PcOf(s, w).stamp) || PcOf(s', w) == Idle)
  {
  }

  lemma CoverStep(ttl: nat, d: nat, rest: nat, s: Sys, m: Move, s': Sys)
    requires Margin(ttl, d, rest) && AllCovered(ttl, d, rest, s) && OnTime(s, d)
    requires Next(ttl, s, m, s') && !m.event.WriteLost?
    ensures AllCovered(ttl, d, rest, s')
  {
    forall w ensures Covered(ttl, d, rest, s', w) {
      assert Covered(ttl, d, rest, s, w);
      StepPc(ttl, s, m, s', w);
      if PutsRecord(m.event) {
        NewRecordCovers(ttl, d, rest, s, m, s', w);
      } else if w == m.worker && !IsAmbient(m.event) {
        OwnStepCovered(ttl, d, rest, s, m, s');
      } else {
        SamePcCovered(ttl, d, rest, s, m, s', w);
      }
    }
  }

  /** A run whose calls and ticks are in time and whose heartbeat writes are not lost. */
  ghost predicate OnTimeRun(ttl: nat, d: nat, states: seq<Sys>, moves: seq<Move>) {
    && IsRun(ttl, states, moves)
    && (forall i :: 0 <= i < |states| ==> OnTime(states[i], d))
    && (forall i :: 0 <= i < |moves| ==> !moves[i].event.WriteLost?)
  }

  lemma {:induction false} CoverRun(ttl: nat, d: nat, rest: nat, states: seq<Sys>, moves: seq<Move>, n: nat)
    requires OnTimeRun(ttl, d, states, moves) && Margin(ttl, d, rest) && n < |states|
    ensures AllCovered(ttl, d, rest, states[n])
  {
    if n > 0 {
      CoverRun(ttl, d, rest, states, moves, n - 1);
      CoverStep(ttl, d, rest, states[n - 1], moves[n - 1], states[n]);
    }
  }

  // ----- mutual exclusion in timed runs -----

  ghost predicate TimedInv(ttl: nat, d: nat, g: Gap, s: Sys) {
    RecoveryInv(g, s) && AllCovered(ttl, d, d, s)
  }

  lemma CoveredIsLive(ttl: nat, d: nat, s: Sys)
    requires AllCovered(ttl, d, d, s) && OnTime(s, d)
    ensures LiveUnexpired(s)
  {
    forall w | IsInside(s, w) && s.lock.Some? ensures !Stale(s.lock.value, s.now) {
      assert Covered(ttl, d, d, s, w);
      CoveredIsNotExpired(ttl, d, d, s, w);
    }
  }

  lemma TimedStep(ttl: nat, d: nat, g: Gap, s: Sys, m: Move, s': Sys)
    requires TimedInv(ttl, d, g, s) && OnTime(s, d) && Margin(ttl, d, d) && Next(ttl, s, m, s')
    requires SafeGap(g) && Respects(g, s, m) && !m.event.WriteLost?
    ensures TimedInv(ttl, d, g, s')
  {
    CoveredIsLive(ttl, d, s);
    RecoveryStep(ttl, g, s, m, s');
    CoverStep(ttl, d, d, s, m, s');
  }

  /** The hypotheses on a timed run: calls and ticks in time, heartbeat writes not lost, and
      only safe changes between a worker's second look and its delete. */
  ghost predicate TimedRun(ttl: nat, d: nat, states: seq<Sys>, moves: seq<Move>) {
    OnTimeRun(ttl, d, states, moves) && GoodSchedule(states, moves)
  }

  lemma {:induction false} TimedRunInv(ttl: nat, d: nat, g: Gap, states: seq<Sys>, moves: seq<Move>, n: nat)
    requires OnTimeRun(ttl, d, states, moves) && SafeGap(g) && Follows(g, states, moves)
    requires Margin(ttl, d, d) && n < |states|
    ensures TimedInv(ttl, d, g, states[n])
  {
    if n > 0 {
      TimedRunInv(ttl, d, g, states, moves, n - 1);
      TimedStep(ttl, d, g, states[n - 1], moves[n - 1], states[n]);
    }
  }

  /** In every timed run of any number of workers, with crashes, stale locks and late writes: at
      most one live worker is inside, and then there is a lock record that has not expired. */
  lemma TimedExclusion(ttl: nat, d: nat, states: seq<Sys>, moves: seq<Move>)
    requires TimedRun(ttl, d, states, moves) && Margin(ttl, d, d)
    ensures forall n :: 0 <= n < |states| ==> MutualExclusion(states[n]) && LiveUnexpired(states[n])
    ensures forall n, w :: 0 <= n < |states| && IsInside(states[n], w) ==> states[n].lock.Some?
  {
    var g :| SafeGap(g) && Follows(g, states, moves);
    forall n | 0 <= n < |states| ensures TimedInv(ttl, d, g, states[n]) && LiveUnexpired(states[n]) {
      TimedRunInv(ttl, d, g, states, moves, n);
      CoveredIsLive(ttl, d, states[n]);
    }
    forall n, w | 0 <= n < |states| && IsInside(states[n], w) ensures states[n].lock.Some? {
      assert TimedInv(ttl, d, g, states[n]);
    }
  }
}
