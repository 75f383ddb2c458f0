/** Mutual exclusion with crashed holders. Breaking a stale lock takes two storage calls, and others
    may change the lock object in between: exactly which of their changes are safe there, and what
    goes wrong with the others. */
module LockRecovery {
  import opened Text
  import opened LockProtocol

  // ----- the gap between the second look and the delete -----

  /** The changes of the lock object that others make while a worker is between its second look and
      its delete: puts, puts that take effect and fail, heartbeat writes, breaks, and releases. */
  datatype Gap = Gap(puts: bool, failedPuts: bool, writes: bool, breaks: bool, releases: bool)

  const NOTHING: Gap := Gap(false, false, false, false, false)

  predicate Permits(g: Gap, e: Event) {
    match e
    case PutLands => g.puts
    case PutFailsLanded => g.failedPuts
    case WriteLands(_) => g.writes
    case BreakDelete => g.breaks
    case ReleaseDone => g.releases
    case _ => true
  }

  ghost predicate Respects(g: Gap, s: Sys, m: Move) {
    forall b :: AboutToBreak(PcOf(s, b)) ==> Permits(g, m.event) || (m.event.BreakDelete? && b == m.worker)
  }

  ghost predicate Follows(g: Gap, states: seq<Sys>, moves: seq<Move>) {
    |states| == |moves| + 1 && forall i :: 0 <= i < |moves| ==> Respects(g, states[i], moves[i])
  }

  /** No heartbeat write, and either no put or neither breaks nor releases. */
  predicate SafeGap(g: Gap) {
    !g.writes && (!g.puts || (!g.breaks && !g.releases))
  }

  /** The hypothesis on schedules: only safe changes fall into such gaps. */
  ghost predicate GoodSchedule(states: seq<Sys>, moves: seq<Move>) {
    exists g :: SafeGap(g) && Follows(g, states, moves)
  }

  /** While a live worker is inside, the lock object, whoever it names, is not stale. */
  ghost predicate LiveUnexpired(s: Sys) {
    forall w :: IsInside(s, w) && s.lock.Some? ==> !Stale(s.lock.value, s.now)
  }

  // ----- safe gaps -----

  /** The worker is about to delete a record that it saw. */
  predicate SawRecord(pc: Pc) {
    pc.Breaking? || (pc.Rechecked? && pc.seen.Some?)
  }

  ghost predicate RecoveryInv(g: Gap, s: Sys) {
    && MutualExclusion(s)
    && (forall w :: IsInside(s, w) ==> s.lock.Some?)
    && (forall b, w :: PcOf(s, b).Rechecked? && SawRecord(PcOf(s, b)) && IsInside(s, w) ==> PcOf(s, b).seen == s.lock)
    && (forall b, w :: PcOf(s, b).Breaking? ==> !IsInside(s, w))
    && (g.puts ==> forall b :: SawRecord(PcOf(s, b)) ==> s.lock.Some?)
  }

  predicate WritesLock(e: Event) {
    e.PutLands? || e.PutFailsLanded? || e.WriteLands? || e.BreakDelete? || e.ReleaseDone?
  }

  lemma LockKept(ttl: nat, s: Sys, m: Move, s': Sys)
    requires Next(ttl, s, m, s') && !WritesLock(m.event)
    ensures s'.lock == s.lock
  {
  }

  /** A put that lets a worker in falls into no gap. */
  lemma EntersOutsideGaps(ttl: nat, g: Gap, s: Sys, m: Move, s': Sys, b: string)
    requires RecoveryInv(g, s) && Next(ttl, s, m, s') && Respects(g, s, m) && m.event.PutLands?
    ensures !SawRecord(PcOf(s, b))
  {
    assert SawRecord(PcOf(s, b)) ==> AboutToBreak(PcOf(s, b));
  }

  /** When a worker is inside before and after, its lock object has changed by no step in a gap. */
  lemma InsideLockKept(ttl: nat, g: Gap, s: Sys, m: Move, s': Sys, b: string, w: string)
    requires RecoveryInv(g, s) && SafeGap(g) && Next(ttl, s, m, s') && Respects(g, s, m)
    requires AboutToBreak(PcOf(s, b)) && IsInside(s, w) && IsInside(s', w)
    ensures s'.lock == s.lock
  {
    if WritesLock(m.event) {
      assert Permits(g, m.event) || (m.event.BreakDelete? && b == m.worker);
      assert m.event.ReleaseDone? ==> IsInside(s, m.worker) && !IsInside(s', m.worker);
      assert m.event.BreakDelete? ==> PcOf(s, m.worker).Breaking?;
    } else {
      LockKept(ttl, s, m, s');
    }
  }

  lemma RecheckedKept(ttl: nat, g: Gap, s: Sys, m: Move, s': Sys, b: string, w: string)
    requires RecoveryInv(g, s) && SafeGap(g) && Next(ttl, s, m, s') && Respects(g, s, m)
    requires PcOf(s', b).Rechecked? && PcOf(s', b).seen.Some? && IsInside(s', w)
    ensures PcOf(s', b).seen == s'.lock
  {
    StepPc(ttl, s, m, s', b);
    if PcOf(s, b).Rechecked? {
      if IsInside(s, w) {
        InsideLockKept(ttl, g, s, m, s', b, w);
      } else {
        EntersByPut(ttl, s, m, s', w);
        EntersOutsideGaps(ttl, g, s, m, s', b);
      }
    }
  }

  lemma BreakingKept(ttl: nat, g: Gap, s: Sys, m: Move, s': Sys, b: string, w: string)
    requires RecoveryInv(g, s) && LiveUnexpired(s) && Next(ttl, s, m, s') && Respects(g, s, m)
    requires PcOf(s', b).Breaking?
    ensures !IsInside(s', w)
  {
    StepPc(ttl, s, m, s', b);
    if IsInside(s', w) {
      if !IsInside(s, w) {
        EntersByPut(ttl, s, m, s', w);
        EntersOutsideGaps(ttl, g, s, m, s', b);
      }
    }
  }

  /** Where puts fall into gaps, breaks and releases do not, so the record stays. */
  lemma RecordKept(ttl: nat, g: Gap, s: Sys, m: Move, s': Sys, b: string)
    requires RecoveryInv(g, s) && SafeGap(g) && g.puts && Next(ttl, s, m, s') && Respects(g, s, m)
    requires SawRecord(PcOf(s', b))
    ensures s'.lock.Some?
  {
    StepPc(ttl, s, m, s', b);
    if s.lock.Some? && s'.lock == None {
      LeavesByDelete(ttl, s, m, s');
      assert AboutToBreak(PcOf(s, b)) && b != m.worker;
    }
  }

  lemma RecoveryStep(ttl: nat, g: Gap, s: Sys, m: Move, s': Sys)
    requires RecoveryInv(g, s) && LiveUnexpired(s) && SafeGap(g) && Next(ttl, s, m, s') && Respects(g, s, m)
    ensures RecoveryInv(g, s')
  {
    InsideStep(ttl, s, m, s');
    forall b, w | PcOf(s', b).Rechecked? && PcOf(s', b).seen.Some? && IsInside(s', w)
      ensures PcOf(s', b).seen == s'.lock
    {
      RecheckedKept(ttl, g, s, m, s', b, w);
    }
    forall b, w | PcOf(s', b).Breaking? ensures !IsInside(s', w) { BreakingKept(ttl, g, s, m, s', b, w); }
    forall b | g.puts && SawRecord(PcOf(s', b)) ensures s'.lock.Some? { RecordKept(ttl, g, s, m, s', b); }
  }

  lemma {:induction false} RecoveryRun(ttl: nat, g: Gap, states: seq<Sys>, moves: seq<Move>, n: nat)
    requires IsRun(ttl, states, moves) && SafeGap(g) && Follows(g, states, moves) && n < |states|
    requires forall i :: 0 <= i < n ==> LiveUnexpired(states[i])
    ensures RecoveryInv(g, states[n])
  {
    if n > 0 {
      RecoveryRun(ttl, g, states, moves, n - 1);
      RecoveryStep(ttl, g, states[n - 1], moves[n - 1], states[n]);
    }
  }

  /** With crashes and stale locks: at most one live worker is inside, and no break ever deletes
      the lock of a live worker. */
  lemma ExclusionWithRecovery(ttl: nat, states: seq<Sys>, moves: seq<Move>)
    requires IsRun(ttl, states, moves) && GoodSchedule(states, moves)
    requires forall i :: 0 <= i < |states| ==> LiveUnexpired(states[i])
    ensures forall n :: 0 <= n < |states| ==> MutualExclusion(states[n])
    ensures forall n, w :: 0 <= n < |moves| && moves[n].event.BreakDelete? ==> !IsInside(states[n], w)
  {
    var g :| SafeGap(g) && Follows(g, states, moves);
    forall n | 0 <= n < |states| ensures RecoveryInv(g, states[n]) { RecoveryRun(ttl, g, states, moves, n); }
    forall n, w | 0 <= n < |moves| && moves[n].event.BreakDelete? ensures !IsInside(states[n], w) {
      assert Next(ttl, states[n], moves[n], states[n + 1]);
      assert PcOf(states[n], moves[n].worker).Breaking?;
    }
  }

  // ----- unsafe gaps -----

  /** A run that ends in s, in which only what g permits falls into gaps, and in which no live
      worker's record has ever expired. */
  ghost predicate UnexpiredRun(ttl: nat, g: Gap, states: seq<Sys>, moves: seq<Move>, s: Sys) {
    && IsRun(ttl, states, moves) && Follows(g, states, moves) && states[|states| - 1] == s
    && forall i :: 0 <= i < |states| ==> LiveUnexpired(states[i])
  }

  /** The step is permitted in every gap, or falls into none but the worker's own. */
  ghost predicate Fits(g: Gap, s: Sys, w: string, e: Event) {
    Permits(g, e) || forall b :: AboutToBreak(PcOf(s, b)) ==> e.BreakDelete? && b == w
  }

  lemma Extend(ttl: nat, g: Gap, states: seq<Sys>, moves: seq<Move>, s: Sys, w: string, e: Event)
    returns (states': seq<Sys>, moves': seq<Move>, last: Sys)
    requires UnexpiredRun(ttl, g, states, moves, s) && Enabled(s, w, e) && Fits(g, s, w, e)
    requires LiveUnexpired(Effect(ttl, s, w, e))
    ensures UnexpiredRun(ttl, g, states', moves', last) && last == Effect(ttl, s, w, e)
  {
    last := Effect(ttl, s, w, e);
    states', moves' := states + [last], moves + [Move(w, e)];
    RunExtends(ttl, states, moves, Move(w, e), last);
    FollowsOn(g, states, moves, Move(w, e), last);
  }

  lemma FollowsOn(g: Gap, states: seq<Sys>, moves: seq<Move>, m: Move, s': Sys)
    requires Follows(g, states, moves) && Respects(g, states[|moves|], m)
    ensures Follows(g, states + [s'], moves + [m])
  {
    var states', moves' := states + [s'], moves + [m];
    forall i | 0 <= i < |moves'| ensures Respects(g, states'[i], moves'[i]) {
      if i < |moves| { assert Respects(g, states[i], moves[i]); }
    }
  }

  lemma Overwrite(s: Sys, w: string, pc: Pc, pc': Pc)
    ensures MovePc(MovePc(s, w, pc), w, pc') == MovePc(s, w, pc')
  {
    assert s.workers[w := pc][w := pc'] == s.workers[w := pc'];
  }

  /** A step that changes nothing but where its worker stands; it fits anywhere. */
  lemma Walk(ttl: nat, g: Gap, states: seq<Sys>, moves: seq<Move>, start: Sys, s: Sys, w: string, e: Event, pc: Pc)
    returns (states': seq<Sys>, moves': seq<Move>, last: Sys)
    requires UnexpiredRun(ttl, g, states, moves, s) && s == MovePc(start, w, PcOf(s, w))
    requires Enabled(s, w, e) && !WritesLock(e) && Effect(ttl, s, w, e) == MovePc(s, w, pc)
    ensures UnexpiredRun(ttl, g, states', moves', last) && last == MovePc(start, w, pc)
  {
    Overwrite(start, w, PcOf(s, w), pc);
    forall x | IsInside(Effect(ttl, s, w, e), x) && s.lock.Some? ensures !Stale(s.lock.value, s.now) {
      if !IsInside(s, x) { EntersByPut(ttl, s, Move(w, e), Effect(ttl, s, w, e), x); }
    }
    states', moves', last := Extend(ttl, g, states, moves, s, w, e);
  }

  lemma Stands(s: Sys, w: string)
    requires w in s.workers
    ensures s == MovePc(s, w, PcOf(s, w))
  {
    assert s.workers == s.workers[w := s.workers[w]];
  }

  /** The first look at a stale record. */
  lemma LookOnce(ttl: nat, g: Gap, states: seq<Sys>, moves: seq<Move>, s: Sys, w: string)
    returns (states': seq<Sys>, moves': seq<Move>, last: Sys)
    requires UnexpiredRun(ttl, g, states, moves, s) && w in s.workers && PcOf(s, w) == Idle && ReadsStale(s.lock, s.now)
    ensures UnexpiredRun(ttl, g, states', moves', last)
    ensures last == MovePc(s, w, Jitter(HolderOf(s.lock.value)))
  {
    Stands(s, w);
    states', moves', last := Walk(ttl, g, states, moves, s, s, w, Start, Loop);
    states', moves', last := Walk(ttl, g, states', moves', s, last, w, Stamp, Trying(s.now));
    states', moves', last := Walk(ttl, g, states', moves', s, last, w, PutExists, Checking);
    states', moves', last := Walk(ttl, g, states', moves', s, last, w, ReadLock, Checked(s.lock));
    states', moves', last := Walk(ttl, g, states', moves', s, last, w, SeeStale, Jitter(HolderOf(s.lock.value)));
  }

  /** What is read at the second look. */
  lemma ReadAgain(ttl: nat, g: Gap, states: seq<Sys>, moves: seq<Move>, s: Sys, w: string, existing: string)
    returns (states': seq<Sys>, moves': seq<Move>, last: Sys)
    requires UnexpiredRun(ttl, g, states, moves, s) && w in s.workers && PcOf(s, w) == Jitter(existing)
    ensures UnexpiredRun(ttl, g, states', moves', last) && last == MovePc(s, w, Rechecked(existing, s.lock))
  {
    Stands(s, w);
    states', moves', last := Walk(ttl, g, states, moves, s, s, w, WaitOver, Rechecking(existing));
    states', moves', last := Walk(ttl, g, states', moves', s, last, w, ReadLockAgain, Rechecked(existing, s.lock));
  }

  /** The verdict of the second look is to delete. */
  lemma Decide(ttl: nat, g: Gap, states: seq<Sys>, moves: seq<Move>, s: Sys, w: string, seen: Option<Record>)
    returns (states': seq<Sys>, moves': seq<Move>, last: Sys)
    requires UnexpiredRun(ttl, g, states, moves, s) && w in s.workers && PcOf(s, w) == Rechecked(CORRUPTED, seen)
    requires ReadsStale(seen, s.now)
    ensures UnexpiredRun(ttl, g, states', moves', last) && last == MovePc(s, w, Breaking)
  {
    Stands(s, w);
    states', moves', last := Walk(ttl, g, states, moves, s, s, w, StillStale, Breaking);
  }

  lemma StillFits(g: Gap, s: Sys, s': Sys, w: string)
    requires Fits(g, s, w, PutLands) && forall b :: AboutToBreak(PcOf(s', b)) ==> AboutToBreak(PcOf(s, b))
    ensures Fits(g, s', w, PutLands)
  {
  }

  /** A worker takes the free lock. */
  lemma Enter(ttl: nat, g: Gap, states: seq<Sys>, moves: seq<Move>, s: Sys, w: string)
    returns (states': seq<Sys>, moves': seq<Move>, last: Sys)
    requires UnexpiredRun(ttl, g, states, moves, s) && w in s.workers && PcOf(s, w) == Loop
    requires s.lock == None && s.now > 0 && Fits(g, s, w, PutLands)
    ensures UnexpiredRun(ttl, g, states', moves', last)
    ensures last == MovePc(s, w, Landed(s.now)).(lock := Some(Held(w, s.now + ttl)))
  {
    Stands(s, w);
    states', moves', last := Walk(ttl, g, states, moves, s, s, w, Stamp, Trying(s.now));
    Overwrite(s, w, Trying(s.now), Landed(s.now));
    StillFits(g, s, last, w);
    states', moves', last := Extend(ttl, g, states', moves', last, w, PutLands);
  }

  /** A worker that is about to delete does so, and takes the lock. */
  lemma BreakAndEnter(ttl: nat, g: Gap, states: seq<Sys>, moves: seq<Move>, s: Sys, w: string)
    returns (states': seq<Sys>, moves': seq<Move>, last: Sys)
    requires UnexpiredRun(ttl, g, states, moves, s) && w in s.workers && PcOf(s, w) == Breaking && s.now > 0
    requires Fits(g, s, w, BreakDelete) && Fits(g, MovePc(s, w, Loop), w, PutLands)
    ensures UnexpiredRun(ttl, g, states', moves', last)
    ensures last == MovePc(s, w, Landed(s.now)).(lock := Some(Held(w, s.now + ttl)))
  {
    states', moves', last := Extend(ttl, g, states, moves, s, w, BreakDelete);
    StillFits(g, MovePc(s, w, Loop), last, w);
    states', moves', last := Enter(ttl, g, states', moves', last, w);
    Overwrite(s, w, Loop, Landed(s.now));
  }

  /** An unparseable lock object, two workers, and writes of the past. */
  lemma Origin(ttl: nat, g: Gap, flying: set<Write>) returns (states: seq<Sys>, moves: seq<Move>, s: Sys)
    ensures UnexpiredRun(ttl, g, states, moves, s)
    ensures s == Sys(2, Some(Corrupt), map["a" := Idle, "b" := Idle], flying)
  {
    s := Sys(2, Some(Corrupt), map["a" := Idle, "b" := Idle], flying);
    states, moves := [s], [];
  }

  /** Both have looked twice; a deletes and enters, and then b does the same. */
  lemma BreakThenPut(ttl: nat, g: Gap) returns (states: seq<Sys>, moves: seq<Move>, s: Sys)
    requires g.puts && g.breaks
    ensures UnexpiredRun(ttl, g, states, moves, s) && !MutualExclusion(s)
  {
    states, moves, s := Origin(ttl, g, {});
    states, moves, s := LookOnce(ttl, g, states, moves, s, "a");
    states, moves, s := ReadAgain(ttl, g, states, moves, s, "a", CORRUPTED);
    states, moves, s := Decide(ttl, g, states, moves, s, "a", Some(Corrupt));
    states, moves, s := LookOnce(ttl, g, states, moves, s, "b");
    states, moves, s := ReadAgain(ttl, g, states, moves, s, "b", CORRUPTED);
    states, moves, s := Decide(ttl, g, states, moves, s, "b", Some(Corrupt));
    states, moves, s := BreakAndEnter(ttl, g, states, moves, s, "a");
    states, moves, s := BothInside(ttl, g, states, moves, s);
  }

  /** b deletes the lock of a, and enters as well. */
  lemma BothInside(ttl: nat, g: Gap, states: seq<Sys>, moves: seq<Move>, s: Sys)
    returns (states': seq<Sys>, moves': seq<Move>, last: Sys)
    requires UnexpiredRun(ttl, g, states, moves, s) && s.workers.Keys == {"a", "b"} && s.now > 0
    requires IsInside(s, "a") && PcOf(s, "b") == Breaking
    ensures UnexpiredRun(ttl, g, states', moves', last) && !MutualExclusion(last)
  {
    states', moves', last := BreakAndEnter(ttl, g, states, moves, s, "b");
    assert "a" != "b" && IsInside(last, "a") && IsInside(last, "b");
  }

  /** b has seen the unparseable object once; a has replaced it by its own. */
  lemma Replaced(ttl: nat, g: Gap, flying: set<Write>) returns (states: seq<Sys>, moves: seq<Move>, s: Sys)
    ensures UnexpiredRun(ttl, g, states, moves, s)
    ensures s == Sys(2, Some(Held("a", 2 + ttl)), map["a" := Landed(2), "b" := Jitter(CORRUPTED)], flying)
  {
    states, moves, s := Origin(ttl, g, flying);
    states, moves, s := LookOnce(ttl, g, states, moves, s, "b");
    states, moves, s := LookOnce(ttl, g, states, moves, s, "a");
    states, moves, s := ReadAgain(ttl, g, states, moves, s, "a", CORRUPTED);
    states, moves, s := Decide(ttl, g, states, moves, s, "a", Some(Corrupt));
    states, moves, s := BreakAndEnter(ttl, g, states, moves, s, "a");
    assert s.workers == map["a" := Landed(2), "b" := Jitter(CORRUPTED)];
  }

  /** a releases the lock that b has read; when it would have expired, a takes the lock again. */
  lemma ReleaseThenPut(ttl: nat, g: Gap) returns (states: seq<Sys>, moves: seq<Move>, s: Sys)
    requires g.puts && g.releases
    ensures UnexpiredRun(ttl, g, states, moves, s) && !MutualExclusion(s)
  {
    states, moves, s := Replaced(ttl, g, {});
    var seen := s.lock;
    states, moves, s := ReadAgain(ttl, g, states, moves, s, "b", CORRUPTED);
    states, moves, s := Leave(ttl, g, states, moves, s, "a");
    states, moves, s := Extend(ttl, g, states, moves, s, "a", Advance(3 + ttl));
    states, moves, s := Decide(ttl, g, states, moves, s, "b", seen);
    states, moves, s := Comeback(ttl, g, states, moves, s, "a");
    states, moves, s := BothInside(ttl, g, states, moves, s);
  }

  lemma Leave(ttl: nat, g: Gap, states: seq<Sys>, moves: seq<Move>, s: Sys, w: string)
    returns (states': seq<Sys>, moves': seq<Move>, last: Sys)
    requires UnexpiredRun(ttl, g, states, moves, s) && w in s.workers && PcOf(s, w).Landed? && g.releases
    requires s.lock.Some? && s.lock.value.Held? && s.lock.value.holder == w
    ensures UnexpiredRun(ttl, g, states', moves', last) && last == MovePc(s, w, Idle).(lock := None)
  {
    Stands(s, w);
    states', moves', last := Walk(ttl, g, states, moves, s, s, w, PutReturns, Holding(s.now + Interval(ttl)));
    states', moves', last := Walk(ttl, g, states', moves', s, last, w, BeginRelease, ReleaseGet(s.now));
    states', moves', last := Walk(ttl, g, states', moves', s, last, w, ReleaseRead, ReleaseDelete(s.now));
    Overwrite(s, w, ReleaseDelete(s.now), Idle);
    states', moves', last := Extend(ttl, g, states', moves', last, w, ReleaseDone);
  }

  lemma Comeback(ttl: nat, g: Gap, states: seq<Sys>, moves: seq<Move>, s: Sys, w: string)
    returns (states': seq<Sys>, moves': seq<Move>, last: Sys)
    requires UnexpiredRun(ttl, g, states, moves, s) && w in s.workers && PcOf(s, w) == Idle && s.lock == None
    requires s.now > 0 && g.puts
    ensures UnexpiredRun(ttl, g, states', moves', last)
    ensures last == MovePc(s, w, Landed(s.now)).(lock := Some(Held(w, s.now + ttl)))
  {
    Stands(s, w);
    states', moves', last := Walk(ttl, g, states, moves, s, s, w, Start, Loop);
    states', moves', last := Enter(ttl, g, states', moves', last, w);
    Overwrite(s, w, Loop, Landed(s.now));
  }

  /** A write of the past lands, and gives the record some more time. */
  lemma Lands(ttl: nat, g: Gap, states: seq<Sys>, moves: seq<Move>, s: Sys, write: Write)
    returns (states': seq<Sys>, moves': seq<Move>, last: Sys)
    requires UnexpiredRun(ttl, g, states, moves, s) && write in s.flying && Fits(g, s, "a", WriteLands(write))
    requires write.stamp + ttl >= s.now > 0
    ensures UnexpiredRun(ttl, g, states', moves', last)
    ensures last == s.(flying := s.flying - {write}, lock := Some(Held(write.holder, write.stamp + ttl)))
  {
    states', moves', last := Extend(ttl, g, states, moves, s, "a", WriteLands(write));
  }

  /** b reads a record that a late write then renews: when the one that was read has expired, b
      deletes the other, which has not. */
  lemma WriteInGap(ttl: nat, g: Gap) returns (states: seq<Sys>, moves: seq<Move>, s: Sys)
    requires ttl >= 1 && g.writes
    ensures UnexpiredRun(ttl, g, states, moves, s) && !MutualExclusion(s)
  {
    var first, second := Write("x", 1), Write("y", 2);
    states, moves, s := Replaced(ttl, g, {first, second});
    states, moves, s := Lands(ttl, g, states, moves, s, first);
    var seen := s.lock;
    states, moves, s := ReadAgain(ttl, g, states, moves, s, "b", CORRUPTED);
    states, moves, s := Lands(ttl, g, states, moves, s, second);
    states, moves, s := Extend(ttl, g, states, moves, s, "a", Advance(2 + ttl));
    states, moves, s := Decide(ttl, g, states, moves, s, "b", seen);
    states, moves, s := BothInside(ttl, g, states, moves, s);
  }

  // ----- exactly the safe gaps -----

  /** For every change outside the safe ones there is a run in which it alone falls into a gap and
      two live workers get inside together, although no live worker's record has ever expired. */
  lemma InterruptedBreakFails(ttl: nat, g: Gap) returns (states: seq<Sys>, moves: seq<Move>, last: Sys)
    requires ttl >= 1 && !SafeGap(g)
    ensures UnexpiredRun(ttl, g, states, moves, last) && !MutualExclusion(last)
  {
    if g.writes {
      states, moves, last := WriteInGap(ttl, g);
    } else if g.breaks {
      states, moves, last := BreakThenPut(ttl, g);
    } else {
      states, moves, last := ReleaseThenPut(ttl, g);
    }
  }

  /** The lock excludes in every run that follows g and in which no live worker's record expires. */
  ghost predicate Excludes(ttl: nat, g: Gap) {
    forall states, moves, n |
      && IsRun(ttl, states, moves) && Follows(g, states, moves) && 0 <= n < |states|
      && (forall i :: 0 <= i < |states| ==> LiveUnexpired(states[i])) ::
      MutualExclusion(states[n])
  }

  /** The lock excludes exactly with the safe gaps. */
  lemma ExclusionExactly(ttl: nat, g: Gap)
    requires ttl >= 1
    ensures Excludes(ttl, g) <==> SafeGap(g)
  {
    if SafeGap(g) {
      forall states, moves, n |
        && IsRun(ttl, states, moves) && Follows(g, states, moves) && 0 <= n < |states|
        && (forall i :: 0 <= i < |states| ==> LiveUnexpired(states[i]))
        ensures MutualExclusion(states[n])
      {
        ExclusionWithRecovery(ttl, states, moves);
      }
    } else {
      var states, moves, last := InterruptedBreakFails(ttl, g);
      assert states[|states| - 1] == last;
    }
  }
}
