/** Acquire, checkStale and Release as the code runs them. Between any two of their storage calls,
    and while a call is under way, other processes do whatever the protocol lets them do. */
module LockerCode {
  import opened Text
  import opened LockProtocol
  import LR = LockRecovery
  import LT = LockTiming
  import PP = PublishProtocol
  import opened SharedWorld

  datatype PutResult = Stored | AlreadyExists | PutError

  datatype GetResult = NotFound | GetError | Found(record: Record)

  /** The channel that stops the heartbeat goroutine. */
  class Channel {
    var closed: bool

    constructor ()
      ensures !closed
    {
      closed := false;
    }

    /** Closing twice would panic. */
    method Close()
      requires !closed
      modifies this
      ensures closed
    {
      closed := true;
    }
  }

  datatype AcquireResult = Acquired | TimedOut | Cancelled | StorageError

  /** How a round of the retry loop ends. */
  datatype Round = Entered | Failed | Again | Stopped | Late

  /** A round that goes on brings the deadline nearer; after it there is one more at most. */
  function Measure(round: Round, left: int): nat {
    if round != Again then 0 else if left < 0 then 1 else left + 2
  }

  class Locker {
    const world: World
    const holder: string
    const timeout: nat
    var heartbeatCh: Channel?

    constructor (world: World, timeout: nat)
      requires world.Valid()
      ensures Valid() && this.world == world && holder == world.me && this.timeout == timeout
      ensures heartbeatCh != null && fresh(heartbeatCh)
    {
      this.world, this.holder, this.timeout := world, world.me, timeout;
      heartbeatCh := new Channel();
    }

    ghost predicate Valid()
      reads this, world, heartbeatCh
    {
      world.Valid() && holder == world.me && (heartbeatCh != null ==> !heartbeatCh.closed)
    }

    /** Between Acquire and Release nobody else is inside, if no record was ever read as stale. */
    lemma Alone()
      requires Valid() && world.Pc().Holding? && NeverStale(world.history)
      ensures forall v :: v != holder ==> !IsInside(world.joint.lock, v)
    {
      QuietHistory(world.setting, world.history);
      assert IsInside(world.joint.lock, holder);
    }

    /** So it is in time, whatever stale locks were broken, and then its record has not expired. */
    lemma AloneInTime(d: nat, g: LR.Gap)
      requires Valid() && world.Pc().Holding? && InTime(d, g, world.history)
      requires LR.SafeGap(g) && LT.Margin(world.setting.ttl, d, d)
      ensures forall v :: v != holder ==> !IsInside(world.joint.lock, v)
      ensures world.joint.lock.lock.Some? && !Stale(world.joint.lock.lock.value, world.Clock())
    {
      TimedHistory(world.setting, d, g, world.history);
      LT.CoveredIsLive(world.setting.ttl, d, world.joint.lock);
      assert IsInside(world.joint.lock, holder);
    }

    // ----- storage calls -----

    method PutIfNotExist() returns (r: PutResult)
      requires world.Valid() && world.Pc().Trying?
      modifies world
      ensures world.Valid() && world.Undisturbed() && world.calls == old(world.calls) + 1
      ensures Answered(r) && Counts(old(world.Tally()), r)
      ensures old(world.Clock()) <= world.Clock() <= old(world.Clock()) + world.latency
    {
      var end := world.Clock() + world.latency;
      world.Others(end);
      var fault := world.Call();
      if IsFailure(fault) {
        FailPut(end);
        r := PutError;
      } else if world.joint.lock.lock.Some? {
        world.Step(PutExists);
        world.Others(end);
        r := AlreadyExists;
      } else {
        LandPut(end);
        r := Stored;
      }
    }

    /** Where the worker stands after the answer to its put; an error comes only from a failing call. */
    predicate Answered(r: PutResult)
      reads world
    {
      match r
      case Stored => Entered()
      case AlreadyExists => world.Pc() == Checking
      case PutError => world.Pc() == Idle && IsFailure(world.LastFault())
    }

    /** The put is the only one since, and its answer is what happened to it. */
    ghost predicate Counts(was: Tally, r: PutResult)
      reads world
    {
      world.Tally() == match r
                       case Stored => was.(landed := was.landed + 1)
                       case AlreadyExists => was.(found := was.found + 1)
                       case PutError => was.(failed := was.failed + 1)
    }

    /** The worker holds the lock, and its first tick is one interval away. */
    predicate Entered()
      reads world
    {
      world.Pc() == Holding(world.Clock() + Interval(world.setting.ttl))
    }

    /** An error comes back, whether or not the put took effect. */
    method FailPut(end: int)
      requires world.Valid() && world.Pc().Trying? && world.Clock() <= end && IsFailure(world.LastFault())
      modifies world`joint, world`history, world`time
      ensures world.Valid() && world.Undisturbed() && world.Pc() == Idle && Counts(old(world.Tally()), PutError)
      ensures old(world.Clock()) <= world.Clock() <= end
    {
      world.Step(if world.LastFault() == Lands && world.joint.lock.lock == None then PutFailsLanded else PutFails);
      world.Others(end);
    }

    /** The put takes effect, and its answer comes back some time later. */
    method LandPut(end: int)
      requires world.Valid() && world.Pc().Trying? && world.joint.lock.lock == None && world.Clock() <= end
      requires !IsFailure(world.LastFault())
      modifies world`joint, world`history, world`time
      ensures world.Valid() && world.Undisturbed() && Entered() && Counts(old(world.Tally()), Stored)
      ensures old(world.Clock()) <= world.Clock() <= end
    {
      world.Step(PutLands);
      world.Others(end);
      world.Turn(PutReturns, Holding(world.Clock() + Interval(world.setting.ttl)));
    }

    /** The Get of checkStale, at the first and at the second look. */
    method Get() returns (seen: Option<Record>)
      requires world.Valid() && (world.Pc() == Checking || world.Pc().Rechecking?)
      modifies world
      ensures world.Valid() && world.Undisturbed() && world.NoPut() && world.calls == old(world.calls) + 1
      ensures world.Pc() == if old(world.Pc()) == Checking then Checked(seen)
                            else Rechecked(old(world.Pc()).existing, seen)
      ensures old(world.Clock()) <= world.Clock() <= old(world.Clock()) + world.latency
    {
      var end := world.Clock() + world.latency;
      world.Others(end);
      var fault := world.Call();
      if fault != Fine {
        seen := None;
        world.Step(ReadFails);
      } else {
        seen := world.joint.lock.lock;
        world.Step(if world.Pc() == Checking then ReadLock else ReadLockAgain);
      }
      world.Others(end);
    }

    /** The Get of Release. */
    method GetForRelease() returns (r: GetResult)
      requires world.Valid() && world.Pc().ReleaseGet?
      modifies world
      ensures world.Valid() && world.Undisturbed() && world.NoPut() && world.calls == old(world.calls) + 1
      ensures world.Pc() == match r
                            case NotFound => Idle
                            case GetError => ReleaseDelete(old(world.Pc()).since)
                            case Found(record) => AfterReleaseRead(Some(record), world.me, old(world.Pc()).since)
      ensures r.GetError? ==> world.LastFault() != Fine
      ensures old(world.Clock()) <= world.Clock() <= old(world.Clock()) + world.latency
    {
      var end := world.Clock() + world.latency;
      world.Others(end);
      var fault := world.Call();
      if IsFailure(fault) || (fault == BreaksOff && world.joint.lock.lock.Some?) {
        r := GetError;
        world.Step(ReleaseReadFails);
      } else {
        r := if world.joint.lock.lock == None then NotFound else Found(world.joint.lock.lock.value);
        world.Step(ReleaseRead);
      }
      world.Others(end);
    }

    method Delete() returns (ok: bool)
      requires world.Valid() && (world.Pc() == Breaking || world.Pc().ReleaseDelete?)
      modifies world
      ensures world.Valid() && world.Undisturbed() && world.NoPut() && world.calls == old(world.calls) + 1
      ensures world.Pc() == if old(world.Pc()) == Breaking then Loop else Idle
      ensures ok == !IsFailure(world.LastFault())
      ensures old(world.Clock()) <= world.Clock() <= old(world.Clock()) + world.latency
    {
      var end := world.Clock() + world.latency;
      world.Others(end);
      var fault := world.Call();
      ok := !IsFailure(fault);
      if world.Pc() == Breaking {
        world.Step(if fault == Fails then BreakFails else BreakDelete);
      } else {
        world.Step(if fault == Fails then ReleaseFails else ReleaseDone);
      }
      world.Others(end);
    }

    // ----- Acquire -----

    /** What the lock object looks like to this worker, and whether its record is stale right now. */
    method CheckStale() returns (stale: bool, existing: string, ghost seen: Option<Record>)
      requires world.Valid() && (world.Pc() == Checking || world.Pc().Rechecking?)
      modifies world
      ensures world.Valid() && world.Undisturbed() && world.NoPut() && world.calls == old(world.calls) + 1
      ensures stale == ReadsStale(seen, world.Clock())
      ensures seen.Some? ==> existing == HolderOf(seen.value)
      ensures world.Pc() == if old(world.Pc()) == Checking then Checked(seen)
                            else Rechecked(old(world.Pc()).existing, seen)
      ensures old(world.Clock()) <= world.Clock() <= old(world.Clock()) + world.latency
    {
      var got := Get();
      seen := got;
      if got == None { return false, "", seen; }
      if got.value.Corrupt? { return true, CORRUPTED, seen; }
      if got.value.expires != 0 && world.Clock() > got.value.expires { return true, got.value.holder, seen; }
      return false, got.value.holder, seen;
    }

    /** A timer runs out, or the context is cancelled before; when both come at once, either wins. */
    method Wait(duration: nat) returns (cancelled: bool)
      requires world.Valid() && (world.Pc().Jitter? || world.Pc() == Backoff)
      modifies world`joint, world`history, world`time
      ensures world.Valid() && world.Undisturbed() && world.NoPut() && world.Pc() == old(world.Pc())
      ensures old(world.Clock()) <= world.Clock() <= old(world.Clock()) + duration
      ensures !cancelled ==> world.Clock() == old(world.Clock()) + duration
      ensures cancelled ==> world.Done()
      ensures DoneBy(world.fate, old(world.Clock()) + duration - 1) ==> cancelled
    {
      var end := world.Clock() + duration;
      cancelled := *;
      if !DoneBy(world.fate, end) { cancelled := false; }
      if DoneBy(world.fate, end - 1) { cancelled := true; }
      var part: nat := duration;
      if cancelled { part := if world.Done() then 0 else world.fate.doneAt.value - world.Clock(); }
      world.Sleep(part);
    }

    /** The record seen again at this time is stale too, and has the holder seen first; a holder that
        reads as "corrupted", as that of an unparseable record does, may be replaced by any. */
    predicate SameAgain(first: Record, again: Option<Record>, at: int) {
      && again.Some?
      && (again.value.Corrupt? || (again.value.expires != 0 && at > again.value.expires))
      && (first.Corrupt? || first.holder == "corrupted" || (again.value.Held? && again.value.holder == first.holder))
    }

    /** After a look that found a stale record: wait, look again, and delete exactly if it is the same
        and still stale. */
    method BreakStale(existing: string, ghost seen: Option<Record>)
      returns (round: Round, ghost again: Option<Record>, ghost at: int)
      requires world.Valid() && world.Pc() == Checked(seen)
      requires ReadsStale(seen, world.Clock()) && existing == HolderOf(seen.value)
      modifies world
      ensures world.Valid() && world.Undisturbed() && world.NoPut() && old(world.calls) <= world.calls
      ensures (round == Again && world.Pc() == Loop) || (round == Stopped && world.Pc() == Idle && world.Done())
      ensures round == Stopped ==> world.calls == old(world.calls)
      ensures round == Again ==> old(world.Clock()) + 100_000_000 <= at <= world.Clock()
      ensures round == Again ==> world.calls == old(world.calls) + if SameAgain(seen.value, again, at) then 2 else 1
      ensures old(world.Clock()) <= world.Clock() < old(world.Clock()) + 500_000_000 + 2 * world.latency
    {
      again, at := None, 0;
      world.Turn(SeeStale, Jitter(existing));
      var jitter: int :| 100 <= jitter < 500;
      var cancelled := Wait(jitter * 1_000_000);
      if cancelled {
        world.Turn(GiveUp, Idle);
        round := Stopped;
        return;
      }
      again, at := LookAgain(existing, seen.value);
      round := Again;
    }

    /** The second look. */
    method LookAgain(existing: string, ghost first: Record) returns (ghost again: Option<Record>, ghost at: int)
      requires world.Valid() && world.Pc() == Jitter(existing) && existing == HolderOf(first)
      modifies world
      ensures world.Valid() && world.Undisturbed() && world.NoPut() && world.Pc() == Loop
      ensures world.calls == old(world.calls) + if SameAgain(first, again, at) then 2 else 1
      ensures old(world.Clock()) <= at <= world.Clock() <= old(world.Clock()) + 2 * world.latency
    {
      world.Turn(WaitOver, Rechecking(existing));
      var stillStale, holderAgain;
      stillStale, holderAgain, again := CheckStale();
      at := world.Clock();
      DeleteIfSame(stillStale && (holderAgain == existing || existing == CORRUPTED));
    }

    /** The verdict of the second look. */
    method DeleteIfSame(same: bool)
      requires world.Valid() && world.Pc().Rechecked? && same == SameStale(world.Pc(), world.Clock())
      modifies world
      ensures world.Valid() && world.Undisturbed() && world.NoPut() && world.Pc() == Loop
      ensures world.calls == old(world.calls) + (if same then 1 else 0)
      ensures old(world.Clock()) <= world.Clock() <= old(world.Clock()) + world.latency
    {
      if same {
        world.Turn(StillStale, Breaking);
        var _ := Delete();
      } else {
        world.Turn(NoLongerStale, Loop);
      }
    }

    /** The lock is fresh: wait for a random time, longer after the fifth try. */
    method BackOff(attempt: nat, ghost seen: Option<Record>) returns (round: Round)
      requires world.Valid() && world.Pc() == Checked(seen) && !ReadsStale(seen, world.Clock())
      modifies world`joint, world`history, world`time
      ensures world.Valid() && world.Undisturbed()
      ensures world.Tally() == old(world.Tally()).(looks := old(world.Tally()).looks + 1)
      ensures (round == Again && world.Pc() == Loop) || (round == Stopped && world.Pc() == Idle && world.Done())
      ensures round == Again ==>
        old(world.Clock()) + (if attempt > 5 then 3_000_000_000 else 1_000_000_000) <= world.Clock()
      ensures old(world.Clock()) <= world.Clock()
           < old(world.Clock()) + (if attempt > 5 then 5_000_000_000 else 2_000_000_000)
    {
      world.Turn(SeeFresh, Backoff);
      var backoff: int :| 1000 <= backoff < 2000;
      if attempt > 5 { backoff :| 3000 <= backoff < 5000; }
      var cancelled := Wait(backoff * 1_000_000);
      world.Turn(if cancelled then GiveUp else WaitOver, if cancelled then Idle else Loop);
      round := if cancelled then Stopped else Again;
    }

    /** The least that a round takes which goes on: the tries after which the lock was fresh are counted. */
    function Pause(attempt: nat, attempt': nat): nat {
      if attempt' == attempt then 100_000_000 else if attempt' > 5 then 3_000_000_000 else 1_000_000_000
    }

    /** The lock object exists: break it if it is stale, or back off. */
    method InspectAndWait(attempt: nat) returns (round: Round, attempt': nat)
      requires world.Valid() && world.Pc() == Checking
      modifies world
      ensures world.Valid() && world.Undisturbed() && old(world.calls) <= world.calls
      ensures attempt <= attempt' <= attempt + 1
      ensures world.Tally() == old(world.Tally()).(looks := old(world.Tally()).looks + attempt' - attempt)
      ensures (round == Again && world.Pc() == Loop) || (round == Stopped && world.Pc() == Idle && world.Done())
      ensures round == Again ==> old(world.Clock()) + Pause(attempt, attempt') <= world.Clock()
      ensures old(world.Clock()) <= world.Clock() < old(world.Clock()) + 5_000_000_000 + 3 * world.latency
    {
      var stale, existing, seen := CheckStale();
      if stale {
        ghost var again, at;
        round, again, at := BreakStale(existing, seen);
        attempt' := attempt;
      } else {
        attempt' := attempt + 1;
        round := BackOff(attempt', seen);
      }
    }

    method TryPut() returns (r: PutResult)
      requires world.Valid() && world.Pc() == Loop
      modifies world
      ensures world.Valid() && world.Undisturbed() && world.calls == old(world.calls) + 1
      ensures Answered(r) && Counts(old(world.Tally()), r)
      ensures old(world.Clock()) <= world.Clock() <= old(world.Clock()) + world.latency
    {
      world.Turn(Stamp, Trying(world.Clock()));
      r := PutIfNotExist();
    }

    /** Where the worker stands after a round, and why it ended so: a failing put, a cancelled
        context, or the deadline. */
    predicate StandsAfter(round: Round, deadline: int)
      reads world
    {
      match round
      case Entered => Entered()
      case Failed => world.Pc() == Idle && IsFailure(world.LastFault())
      case Again => world.Pc() == Loop
      case Stopped => world.Pc() == Idle && world.Done()
      case Late => world.Pc() == Idle && deadline < world.Clock()
    }

    /** The puts of some rounds: the last of them may have taken the lock or failed, the others have
        found the lock object. */
    predicate Tallies(was: Tally, now: Tally, found: nat, looks: nat, round: Round) {
      now == Tally.Tally(was.landed + if round == Round.Entered then 1 else 0, was.found + found,
                         was.failed + if round == Failed then 1 else 0, was.looks + looks)
    }

    /** A round that puts without finding the lock object is the last one. */
    function Final(round: Round): nat {
      if round == Round.Entered || round == Failed then 1 else 0
    }

    /** One put, and what follows when the lock object exists. */
    method Attempt(attempt: nat, ghost deadline: int) returns (round: Round, attempt': nat)
      requires world.Valid() && world.Pc() == Loop
      modifies world
      ensures world.Valid() && world.Undisturbed() && StandsAfter(round, deadline) && round != Late
      ensures old(world.calls) < world.calls
      ensures attempt <= attempt' <= attempt + 1 - Final(round)
      ensures Tallies(old(world.Tally()), world.Tally(), 1 - Final(round), attempt' - attempt, round)
      ensures old(world.Clock()) + (if round == Again then Pause(attempt, attempt') else 0) <= world.Clock()
      ensures world.Clock() < old(world.Clock()) + 5_000_000_000 + 4 * world.latency
    {
      attempt' := attempt;
      var put := TryPut();
      match put
      case Stored => round := Round.Entered;
      case PutError => round := Failed;
      case AlreadyExists => round, attempt' := InspectAndWait(attempt);
    }

    /** The longest a round may take. */
    function Longest(): nat {
      5_000_000_000 + 4 * world.latency
    }

    /** A round that goes on takes its pause at least, and no round takes Longest. */
    predicate RoundTakes(deadline: int, round: Round, attempt: nat, attempt': nat, now: int, now': int) {
      && attempt <= attempt' <= attempt + 1
      && now + (if round == Again then Pause(attempt, attempt') else 0) <= now'
      && if now > deadline then now' == now else now' < now + Longest()
    }

    /** One round from now to now': it puts exactly once, unless the context is cancelled or the
        deadline has passed. */
    predicate RoundDoes(deadline: int, attempt: nat, was: Tally, now: int, round: Round, attempt': nat, tally: Tally,
                        found: nat, now': int) {
      && attempt <= attempt' <= attempt + found && Tallies(was, tally, found, attempt' - attempt, round)
      && (if DoneBy(world.fate, now) then round == Stopped && found == 0
          else if now > deadline then round == Late && found == 0
          else round != Late && found == 1 - Final(round))
      && RoundTakes(deadline, round, attempt, attempt', now, now')
    }

    /** One round of the loop. */
    method NextRound(deadline: int, attempt: nat) returns (round: Round, attempt': nat, ghost found: nat)
      requires world.Valid() && world.Pc() == Loop
      modifies world
      ensures world.Valid() && world.Undisturbed() && StandsAfter(round, deadline) && old(world.calls) <= world.calls
      ensures RoundDoes(deadline, attempt, old(world.Tally()), old(world.Clock()), round, attempt', world.Tally(),
                        found, world.Clock())
    {
      attempt', found := attempt, 0;
      if world.Done() {
        world.Turn(GiveUp, Idle);
        round := Stopped;
      } else if world.Clock() > deadline {
        world.Turn(GiveUp, Idle);
        round := Late;
      } else {
        round, attempt' := Attempt(attempt, deadline);
        found := 1 - Final(round);
      }
    }

    /** The least time spent on waits for a fresh lock: a second each for the first five, then three. */
    function Backed(looks: nat): nat {
      if looks <= 5 then 1_000_000_000 * looks else 5_000_000_000 + 3_000_000_000 * (looks - 5)
    }

    /** What some rounds in a row have taken. */
    predicate Paced(start: int, rounds: nat, looks: nat, now: int) {
      && looks <= rounds
      && start + 100_000_000 * (rounds - looks) + Backed(looks) <= now <= start + rounds * Longest()
    }

    /** The rounds so far, of which all but the last have found the lock object. */
    predicate Progress(start: int, deadline: int, found: nat, looks: nat, round: Round, now: int) {
      && looks <= found
      && (round == Again ==> Paced(start, found, looks, now))
      && (round == Late ==> deadline - start < found * Longest())
      && (round != Stopped ==> start + Backed(looks) <= now)
      && 100_000_000 * (found + Final(round) - 1) <= deadline - start
      && now < deadline + Longest()
    }

    /** What some rounds in a row have done. */
    predicate RoundsDo(start: int, deadline: int, was: Tally, tally: Tally, found: nat, looks: nat, round: Round,
                       now: int) {
      && Tallies(was, tally, found, looks, round) && Progress(start, deadline, found, looks, round, now)
      && (round == Again && found == 0 ==> now == start)
      && (round != Again && !DoneBy(world.fate, start) ==> found + Final(round) > 0)
    }

    lemma OneMoreRound(start: int, deadline: int, was: Tally, tally: Tally, found: nat, looks: nat, now: int,
                       round: Round, looks': nat, tally': Tally, more: nat, now': int)
      requires RoundsDo(start, deadline, was, tally, found, looks, Again, now) && start <= deadline
      requires RoundDoes(deadline, looks, tally, now, round, looks', tally', more, now')
      ensures RoundsDo(start, deadline, was, tally', found + more, looks', round, now')
      ensures round == Again ==> now <= deadline && now + 100_000_000 <= now'
    {
      if round == Again { assert (found + 1) * Longest() == found * Longest() + Longest(); }
    }

    function RoundOf(r: AcquireResult): Round {
      match r
      case Acquired => Round.Entered
      case StorageError => Failed
      case Cancelled => Stopped
      case TimedOut => Late
    }

    /** One more round of a loop that began at start. */
    method AnotherRound(ghost start: int, deadline: int, ghost was: Tally, attempt: nat, ghost found: nat)
      returns (round: Round, attempt': nat, ghost found': nat)
      requires world.Valid() && world.Pc() == Loop && start <= deadline
      requires RoundsDo(start, deadline, was, world.Tally(), found, attempt, Again, world.Clock())
      modifies world
      ensures world.Valid() && world.Undisturbed() && StandsAfter(round, deadline) && old(world.calls) <= world.calls
      ensures RoundsDo(start, deadline, was, world.Tally(), found', attempt', round, world.Clock())
      ensures round == Again ==> old(world.Clock()) <= deadline && old(world.Clock()) + 100_000_000 <= world.Clock()
    {
      ghost var now, tally, more := world.Clock(), world.Tally(), 0;
      round, attempt', more := NextRound(deadline, attempt);
      OneMoreRound(start, deadline, was, tally, found, attempt, now, round, attempt', world.Tally(), more,
                   world.Clock());
      found' := found + more;
    }

    /** The loop: rounds until one is the last. */
    method TryUntil(deadline: int) returns (round: Round, ghost found: nat, ghost looks: nat)
      requires world.Valid() && world.Pc() == Loop && world.Clock() <= deadline
      modifies world
      ensures world.Valid() && world.Undisturbed() && round != Again && StandsAfter(round, deadline)
      ensures old(world.calls) <= world.calls
      ensures RoundsDo(old(world.Clock()), deadline, old(world.Tally()), world.Tally(), found, looks, round,
                       world.Clock())
    {
      var attempt: nat := 0;
      found := 0;
      round := Again;
      ghost var start, was := world.Clock(), world.Tally();
      while round == Again
        invariant world.Valid() && world.Undisturbed() && StandsAfter(round, deadline)
        invariant old(world.calls) <= world.calls
        invariant RoundsDo(start, deadline, was, world.Tally(), found, attempt, round, world.Clock())
        decreases Measure(round, deadline - world.Clock())
      {
        round, attempt, found := AnotherRound(start, deadline, was, attempt, found);
      }
      looks := attempt;
    }

    /** What an Acquire from start to now with this result has done: it timed out after the deadline,
        and all its puts but the last have found the lock object. They came at least 100 ms apart, and
        at most Longest; behind a look at a fresh lock at least one second, after the fifth such look
        three. Unless the context was cancelled before, there was one. */
    predicate AcquireDoes(start: int, was: Tally, tally: Tally, found: nat, looks: nat, r: AcquireResult, now: int) {
      && Tallies(was, tally, found, looks, RoundOf(r))
      && (r == TimedOut ==> start + timeout < now && timeout < found * Longest())
      && (r != Cancelled ==> start + Backed(looks) <= now)
      && (!DoneBy(world.fate, start) ==> found + Final(RoundOf(r)) > 0)
      && found + Final(RoundOf(r)) <= timeout / 100_000_000 + 1
      && now < start + timeout + Longest()
    }

    lemma RoundsAreAcquire(start: int, was: Tally, tally: Tally, found: nat, looks: nat, r: AcquireResult, now: int)
      requires RoundsDo(start, start + timeout, was, tally, found, looks, RoundOf(r), now)
      requires r == TimedOut ==> start + timeout < now
      ensures AcquireDoes(start, was, tally, found, looks, r, now)
    {
      PutsInTime(found + Final(RoundOf(r)));
    }

    lemma PutsInTime(puts: nat)
      requires 100_000_000 * (puts - 1) <= timeout
      ensures puts <= timeout / 100_000_000 + 1
    {
    }

    /** Whatever the other workers do and whatever the random delays are, Acquire ends less than
        Longest after its deadline. It gives up only when the deadline has passed or its context is
        cancelled, and fails only when a put fails. When it succeeds the worker holds the lock, and
        Alone applies. */
    method Acquire() returns (r: AcquireResult, ghost found: nat, ghost looks: nat)
      requires Valid() && world.Pc() == Idle
      modifies this, world
      ensures Valid() && world.Undisturbed() && old(world.calls) <= world.calls
      ensures if r == Acquired then Entered() else world.Pc() == Idle
      ensures if r == Acquired then heartbeatCh != null && fresh(heartbeatCh) else heartbeatCh == old(heartbeatCh)
      ensures r == Cancelled ==> world.Done()
      ensures r == StorageError ==> IsFailure(world.LastFault())
      ensures AcquireDoes(old(world.Clock()), old(world.Tally()), world.Tally(), found, looks, r, world.Clock())
    {
      r, found, looks := TryInTime();
      if r == Acquired { heartbeatCh := new Channel(); }
    }

    /** The loop of Acquire, and how it ends. */
    method TryInTime() returns (r: AcquireResult, ghost found: nat, ghost looks: nat)
      requires world.Valid() && world.Pc() == Idle
      modifies world
      ensures world.Valid() && world.Undisturbed() && old(world.calls) <= world.calls
      ensures if r == Acquired then Entered() else world.Pc() == Idle
      ensures r == Cancelled ==> world.Done()
      ensures r == StorageError ==> IsFailure(world.LastFault())
      ensures AcquireDoes(old(world.Clock()), old(world.Tally()), world.Tally(), found, looks, r, world.Clock())
    {
      ghost var start, was := world.Clock(), world.Tally();
      world.Turn(Start, Loop);
      var round;
      round, found, looks := TryUntil(world.Clock() + timeout);
      match round {
        case Entered => r := Acquired;
        case Failed => r := StorageError;
        case Stopped => r := Cancelled;
        case Late => r := TimedOut;
      }
      RoundsAreAcquire(start, was, world.Tally(), found, looks, r, world.Clock());
    }

    /** Another worker has the lock by now, or nobody. */
    predicate GoneBefore(got: GetResult) {
      got == NotFound || (got.Found? && got.record.Held? && got.record.holder != holder)
    }

    /** Stops the heartbeat exactly once, and deletes the lock object unless it names another holder
        or is gone; a delete is the second of its calls. Before, the worker has ended its publish of
        the codename. */
    method Release() returns (ok: bool, ghost got: GetResult)
      requires Valid() && world.Pc().Holding? && !PP.ActiveIn(world.joint.repo, world.setting.codename, world.me)
      modifies this, world, heartbeatCh
      ensures Valid() && world.Undisturbed() && world.NoPut() && world.Pc() == Idle
      ensures heartbeatCh == null && (old(heartbeatCh) != null ==> old(heartbeatCh).closed)
      ensures world.calls == old(world.calls) + if GoneBefore(got) then 1 else 2
      ensures got.GetError? ==> world.fate.faults(old(world.calls)) != Fine
      ensures !ok ==> IsFailure(world.LastFault())
      ensures world.Clock() <= old(world.Clock()) + 2 * world.latency
    {
      if heartbeatCh != null {
        heartbeatCh.Close();
        heartbeatCh := null;
      }
      world.Turn(BeginRelease, ReleaseGet(world.Clock()));
      ok, got := GiveBack();
    }

    /** The calls of Release. */
    method GiveBack() returns (ok: bool, ghost got: GetResult)
      requires world.Valid() && world.Pc().ReleaseGet? && holder == world.me
      modifies world
      ensures world.Valid() && world.Undisturbed() && world.NoPut() && world.Pc() == Idle
      ensures world.calls == old(world.calls) + if GoneBefore(got) then 1 else 2
      ensures got.GetError? ==> world.fate.faults(old(world.calls)) != Fine
      ensures !ok ==> IsFailure(world.LastFault())
      ensures world.Clock() <= old(world.Clock()) + 2 * world.latency
    {
      var r := GetForRelease();
      got := r;
      ok := true;
      if r.Found? {
        if r.record.Held? && r.record.holder != holder { return; }
      } else if r == NotFound {
        return;
      }
      ok := Delete();
    }
  }
}
