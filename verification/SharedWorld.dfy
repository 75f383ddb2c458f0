/** The store as one process sees it: the lock object, the repository and the clock. Between any two
    of its own steps the other processes, and its own heartbeat, do whatever the protocol lets them
    do. Every change, whoever makes it, is a step of the joint protocol. */
module SharedWorld {
  import opened Text
  import opened PublishProtocol
  import opened JointProtocol
  import L = LockProtocol
  import LR = LockRecovery
  import LT = LockTiming

  /** The codename whose lock this is, the lifetime of its records, and whether publishes take it. */
  datatype Setting = Setting(tools: Tools, ttl: nat, codename: string, locking: bool)

  // ----- what the outside does to the process -----

  /** What may go wrong with a storage call: it fails without effect, it takes effect and fails all
      the same, or the data it reads break off. */
  datatype Fault = Fine | Fails | Lands | BreaksOff

  predicate IsFailure(f: Fault) {
    f.Fails? || f.Lands?
  }

  /** What happens to the n-th storage call of the process, and when its context is cancelled. */
  datatype Fate = Fate(faults: nat -> Fault, doneAt: Option<int>)

  predicate DoneBy(fate: Fate, now: int) {
    fate.doneAt.Some? && fate.doneAt.value <= now
  }

  /** What happened to the last of these calls. */
  function Outcome(fate: Fate, calls: nat): Fault {
    if calls == 0 then Fine else fate.faults(calls - 1)
  }

  /** A call that ends this way may have led to this step on the lock object. */
  predicate FitsEvent(e: L.Event, f: Fault) {
    match e
    case PutLands | PutExists => !IsFailure(f)
    case PutFails => IsFailure(f)
    case PutFailsLanded => f == Lands
    case ReadLock | ReadLockAgain => f == Fine
    case ReadFails | ReleaseReadFails => f != Fine
    case ReleaseRead => !IsFailure(f)
    case BreakDelete | ReleaseDone => f != Fails
    case BreakFails | ReleaseFails => f == Fails
    case _ => true
  }

  /** The same for the steps of a publisher. */
  predicate FitsAction(a: Action, f: Fault) {
    match a
    case Upload => f != Fails
    case WriteIndex => f != Fails
    case Activate(_, _, _, _) => f != Fails
    case Load(found, _, _, _) => !IsFailure(f) && (f == BreaksOff ==> found == [])
    case LoadTorn(_, _, _) => f == BreaksOff
    case Fail => IsFailure(f)
    case _ => true
  }

  /** A wait is given up only when the context has been cancelled. */
  predicate FitsWait(fate: Fate, s: L.Sys, m: L.Move) {
    m.event.GiveUp? && (L.PcOf(s, m.worker).Jitter? || L.PcOf(s, m.worker) == L.Backoff) ==> DoneBy(fate, s.now)
  }

  /** The process takes only steps that the outcome of its last call, and its context, allow. */
  predicate Honest(fate: Fate, me: string, s: L.Sys, m: JointMove, calls: nat) {
    match m
    case LockMove(move) =>
      move.worker == me ==> FitsEvent(move.event, Outcome(fate, calls)) && FitsWait(fate, s, move)
    case PublishMove(step) => step.worker == me ==> FitsAction(step.action, Outcome(fate, calls))
  }

  // ----- runs so far -----

  /** A run so far, latest step outermost, with the number of storage calls the process had made. */
  datatype History = Origin(start: Joint) | After(past: History, move: JointMove, next: Joint, calls: nat)

  ghost function Now(h: History): Joint {
    match h
    case Origin(start) => start
    case After(_, _, next, _) => next
  }

  ghost function StartOf(h: History): Joint {
    match h
    case Origin(start) => start
    case After(past, _, _, _) => StartOf(past)
  }

  ghost function CallsOf(h: History): nat {
    match h
    case Origin(_) => 0
    case After(_, _, _, calls) => calls
  }

  ghost predicate Allowed(x: Setting, s: Joint, m: JointMove, s': Joint) {
    FreeNext(x.tools, x.ttl, s, m, s') && (x.locking ==> Guarded(x.codename, s, m))
  }

  ghost predicate LastAllowed(x: Setting, h: History) {
    match h
    case Origin(start) => L.Init(start.lock) && start.repo.publishers == map[]
    case After(past, move, next, _) => Allowed(x, Now(past), move, next)
  }

  ghost predicate IsPast(p: History, h: History) {
    p == h || (h.After? && IsPast(p, h.past))
  }

  /** Every step of the run was allowed. */
  ghost predicate LegalRun(x: Setting, h: History) {
    forall p :: IsPast(p, h) ==> LastAllowed(x, p)
  }

  lemma LegalBack(x: Setting, h: History)
    requires LegalRun(x, h)
    ensures LastAllowed(x, h) && (h.After? ==> LegalRun(x, h.past))
  {
    assert IsPast(h, h);
    if h.After? {
      forall p | IsPast(p, h.past) ensures LastAllowed(x, p) { assert IsPast(p, h); }
    }
  }

  ghost function StatesOf(h: History): seq<Joint> {
    match h
    case Origin(start) => [start]
    case After(past, _, next, _) => StatesOf(past) + [next]
  }

  ghost function MovesOf(h: History): seq<JointMove> {
    match h
    case Origin(_) => []
    case After(past, move, _, _) => MovesOf(past) + [move]
  }

  lemma RunExtends(t: Tools, ttl: nat, codename: string, states: seq<Joint>, moves: seq<JointMove>, m: JointMove,
                   s': Joint)
    requires IsJointRun(t, ttl, codename, states, moves) && JointNext(t, ttl, codename, states[|moves|], m, s')
    ensures IsJointRun(t, ttl, codename, states + [s'], moves + [m])
  {
    var states', moves' := states + [s'], moves + [m];
    forall i | 0 <= i < |moves'| ensures StepAt(t, ttl, codename, states', moves', i) {
      if i < |moves| { assert StepAt(t, ttl, codename, states, moves, i); }
    }
  }

  /** Where publishes take the lock, a legal history is a run of the lock and the publishers. */
  lemma {:induction false} LegalIsRun(x: Setting, h: History)
    requires LegalRun(x, h) && x.locking
    ensures IsJointRun(x.tools, x.ttl, x.codename, StatesOf(h), MovesOf(h))
    ensures StatesOf(h)[|MovesOf(h)|] == Now(h)
  {
    LegalBack(x, h);
    match h
    case Origin(_) =>
    case After(past, move, next, _) =>
      LegalIsRun(x, past);
      RunExtends(x.tools, x.ttl, x.codename, StatesOf(past), MovesOf(past), move, next);
  }

  ghost predicate LastHonest(fate: Fate, me: string, h: History) {
    match h
    case Origin(_) => true
    case After(past, move, _, calls) => CallsOf(past) <= calls && Honest(fate, me, Now(past).lock, move, calls)
  }

  /** Every step of the process was one that the outcomes of its calls, and its context, allow. */
  ghost predicate HonestRun(fate: Fate, me: string, h: History) {
    forall p :: IsPast(p, h) ==> LastHonest(fate, me, p)
  }

  lemma HonestBack(fate: Fate, me: string, h: History)
    requires HonestRun(fate, me, h)
    ensures LastHonest(fate, me, h) && (h.After? ==> HonestRun(fate, me, h.past))
  {
    assert IsPast(h, h);
    if h.After? {
      forall p | IsPast(p, h.past) ensures LastHonest(fate, me, p) { assert IsPast(p, h); }
    }
  }

  /** The puts to the lock object: those that took it, those that found it there, those that failed;
      and how often it was then seen fresh. */
  datatype Tally = Tally(landed: nat, found: nat, failed: nat, looks: nat)

  predicate IsPut(e: L.Event) {
    e.PutLands? || e.PutExists? || e.PutFails? || e.PutFailsLanded?
  }

  function Counted(t: Tally, e: L.Event): Tally {
    match e
    case PutLands => t.(landed := t.landed + 1)
    case PutExists => t.(found := t.found + 1)
    case PutFails | PutFailsLanded => t.(failed := t.failed + 1)
    case SeeFresh => t.(looks := t.looks + 1)
    case _ => t
  }

  /** What w has put and seen so far. */
  ghost function Puts(h: History, w: string): Tally {
    match h
    case Origin(_) => Tally(0, 0, 0, 0)
    case After(past, m, _, _) =>
      if m.LockMove? && m.move.worker == w then Counted(Puts(past, w), m.move.event) else Puts(past, w)
  }

  /** A publish begun, or a Release file written with this date. */
  datatype Deed = Begun(job: Job) | Released(date: string)

  function DeedOf(a: Action): Option<Deed> {
    match a
    case Begin(job) => Some(Begun(job))
    case Activate(_, now, _, _) => Some(Released(now))
    case _ => None
  }

  /** What w has begun and released, in order. */
  ghost function DeedsOf(h: History, w: string): seq<Deed> {
    match h
    case Origin(_) => []
    case After(past, m, _, _) =>
      if m.PublishMove? && m.step.worker == w && DeedOf(m.step.action).Some?
      then DeedsOf(past, w) + [DeedOf(m.step.action).value]
      else DeedsOf(past, w)
  }

  /** w has never taken an index whose read broke off for an empty one. */
  ghost predicate NeverTorn(h: History, w: string) {
    match h
    case Origin(_) => true
    case After(past, m, _, _) =>
      NeverTorn(past, w) && !(m.PublishMove? && m.step.worker == w && m.step.action.LoadTorn?)
  }

  ghost predicate NoBrokenRead(fate: Fate, calls: nat) {
    forall n: nat :: n < calls ==> fate.faults(n) != BreaksOff
  }

  /** Stored indexes are thrown away only where a read of them broke off. */
  lemma {:induction false} HonestIsNeverTorn(fate: Fate, me: string, h: History, calls: nat)
    requires HonestRun(fate, me, h) && CallsOf(h) <= calls && NoBrokenRead(fate, calls)
    ensures NeverTorn(h, me)
  {
    HonestBack(fate, me, h);
    match h
    case Origin(_) =>
    case After(past, _, _, _) => HonestIsNeverTorn(fate, me, past, calls);
  }

  /** No look at the lock object has found it expired or unparseable. */
  ghost predicate NeverStale(h: History) {
    match h
    case Origin(_) => true
    case After(past, m, _, _) => NeverStale(past) && (m.LockMove? ==> !m.move.event.SeeStale?)
  }

  lemma {:induction false} QuietHistory(x: Setting, h: History)
    requires LegalRun(x, h) && NeverStale(h)
    ensures L.QuietInv(Now(h).lock)
  {
    LegalBack(x, h);
    match h
    case Origin(_) =>
    case After(past, m, next, _) =>
      QuietHistory(x, past);
      if m.LockMove? { L.QuietStep(x.ttl, Now(past).lock, m.move, next.lock); }
  }

  /** Calls and ticks have been in time, no heartbeat write has been lost, and only what g permits
      has fallen between a worker's second look and its delete. */
  ghost predicate InTime(d: nat, g: LR.Gap, h: History) {
    && LT.OnTime(Now(h).lock, d)
    && match h
       case Origin(_) => true
       case After(past, m, _, _) =>
         && InTime(d, g, past)
         && (m.LockMove? ==> !m.move.event.WriteLost? && LR.Respects(g, Now(past).lock, m.move))
  }

  /** Whoever is inside after such a run is alone, and the record is there and has not expired. */
  lemma {:induction false} TimedHistory(x: Setting, d: nat, g: LR.Gap, h: History)
    requires LegalRun(x, h) && InTime(d, g, h) && LR.SafeGap(g) && LT.Margin(x.ttl, d, d)
    ensures LT.TimedInv(x.ttl, d, g, Now(h).lock)
  {
    LegalBack(x, h);
    match h
    case Origin(_) =>
    case After(past, m, next, _) =>
      TimedHistory(x, d, g, past);
      if m.LockMove? { LT.TimedStep(x.ttl, d, g, Now(past).lock, m.move, next.lock); }
  }

  // ----- one process -----

  /** What the others may do to the repository next. */
  datatype Step = Step(move: Move, next: Repo)

  ghost predicate OthersMay(x: Setting, me: string, s: Joint, step: Option<Step>) {
    step.Some? ==>
      step.value.move.worker != me && Allowed(x, s, PublishMove(step.value.move), Joint(s.lock, step.value.next))
  }

  function LockEffect(x: Setting, s: Joint, m: L.Move): Joint
    requires L.Enabled(s.lock, m.worker, m.event)
  {
    Joint(L.Effect(x.ttl, s.lock, m.worker, m.event), if m.event.Crash? then AfterCrash(s.repo, m.worker) else s.repo)
  }

  /** The lock moves the process does not decide itself; its heartbeat ticks on its own. */
  predicate IsForeign(x: Setting, me: string, s: Joint, m: L.Move) {
    && (m.worker != me || L.IsAmbient(m.event) || m.event.Tick?) && L.Enabled(s.lock, m.worker, m.event)
    && (m.event.BeginRelease? ==> !ActiveIn(s.repo, x.codename, m.worker))
  }

  predicate SamePc(pc: L.Pc, pc': L.Pc) {
    pc' == pc || (pc.Holding? && pc'.Holding?)
  }

  predicate SamePublisher(w: string, r: Repo, r': Repo) {
    (w in r'.publishers <==> w in r.publishers) && (w in r.publishers ==> r'.publishers[w] == r.publishers[w])
  }

  lemma ForeignLock(x: Setting, me: string, s: Joint, m: L.Move)
    requires IsForeign(x, me, s, m)
    ensures Allowed(x, s, LockMove(m), LockEffect(x, s, m))
    ensures SamePc(L.PcOf(s.lock, me), L.PcOf(LockEffect(x, s, m).lock, me))
    ensures SamePublisher(me, s.repo, LockEffect(x, s, m).repo)
    ensures LockEffect(x, s, m).lock.now == if m.event.Advance? then m.event.time else s.lock.now
    ensures s.lock.now <= LockEffect(x, s, m).lock.now
    ensures !(m.worker == me && IsPut(m.event))
    ensures forall fate, calls :: Honest(fate, me, s.lock, LockMove(m), calls)
  {
    L.StepPc(x.ttl, s.lock, m, LockEffect(x, s, m).lock, me);
  }

  lemma ForeignStep(x: Setting, me: string, s: Joint, step: Step)
    requires OthersMay(x, me, s, Some(step))
    ensures SamePublisher(me, s.repo, step.next)
  {
  }

  /** The steps of the program of Acquire and Release between its storage calls. */
  predicate Turns(ttl: nat, now: int, at: L.Pc, e: L.Event, to: L.Pc) {
    match e
    case Start => at == L.Idle && to == L.Loop
    case GiveUp => (at == L.Loop || at.Jitter? || at == L.Backoff) && to == L.Idle
    case Stamp => at == L.Loop && to == L.Trying(now)
    case PutReturns => at.Landed? && to == L.Holding(now + L.Interval(ttl))
    case SeeFresh => at.Checked? && !L.ReadsStale(at.seen, now) && to == L.Backoff
    case SeeStale => at.Checked? && L.ReadsStale(at.seen, now) && to == L.Jitter(L.HolderOf(at.seen.value))
    case WaitOver => (at.Jitter? && to == L.Rechecking(at.existing)) || (at == L.Backoff && to == L.Loop)
    case StillStale => at.Rechecked? && SameStale(at, now) && to == L.Breaking
    case NoLongerStale => at.Rechecked? && !SameStale(at, now) && to == L.Loop
    case BeginRelease => at.Holding? && to == L.ReleaseGet(now)
    case _ => false
  }

  /** The condition for the delete: stale at both looks, with the same holder or first unparseable. */
  predicate SameStale(at: L.Pc, now: int)
    requires at.Rechecked?
  {
    L.ReadsStale(at.seen, now) && (L.HolderOf(at.seen.value) == at.existing || at.existing == L.CORRUPTED)
  }

  lemma TurnIsStep(x: Setting, s: Joint, w: string, e: L.Event, to: L.Pc)
    requires Turns(x.ttl, s.lock.now, L.PcOf(s.lock, w), e, to)
    ensures L.Enabled(s.lock, w, e) && !IsPut(e) && !e.Crash?
    ensures LockEffect(x, s, L.Move(w, e)) == Joint(L.MovePc(s.lock, w, to), s.repo)
    ensures forall f :: FitsEvent(e, f)
  {
  }

  class World {
    const setting: Setting
    /** Every storage call ends within this time. */
    const latency: nat
    const fate: Fate
    const me: string
    /** What the other publishers do, for every point in time and every state. */
    const others: (nat, Joint) -> Option<Step>
    var time: nat
    /** The storage calls of the process so far. */
    var calls: nat
    var joint: Joint
    ghost var history: History

    constructor (setting: Setting, latency: nat, fate: Fate, me: string, others: (nat, Joint) -> Option<Step>,
                 start: Joint)
      requires GoodTools(setting.tools) && L.Init(start.lock) && start.repo.publishers == map[]
      requires forall n, s :: OthersMay(setting, me, s, others(n, s))
      ensures Valid() && this.setting == setting && this.latency == latency && this.fate == fate && this.me == me
      ensures joint == start && history == Origin(start) && calls == 0
    {
      this.setting, this.latency, this.fate, this.me, this.others := setting, latency, fate, me, others;
      time, calls := 0, 0;
      joint := start;
      history := Origin(start);
    }

    ghost predicate Valid()
      reads this
    {
      && GoodTools(setting.tools) && LegalRun(setting, history) && Now(history) == joint
      && HonestRun(fate, me, history) && CallsOf(history) <= calls
      && forall n, s :: OthersMay(setting, me, s, others(n, s))
    }

    /** Where the process stands with the lock. */
    function Pc(): L.Pc
      reads this
    {
      L.PcOf(joint.lock, me)
    }

    function Clock(): int
      reads this
    {
      joint.lock.now
    }

    /** The context of the process has been cancelled. */
    predicate Done()
      reads this
    {
      DoneBy(fate, Clock())
    }

    /** What the process has put and seen so far. */
    ghost function Tally(): Tally
      reads this
    {
      Puts(history, me)
    }

    /** How the last storage call ended. */
    function LastFault(): Fault
      reads this
    {
      Outcome(fate, calls)
    }

    /** A storage call since then has failed. */
    ghost predicate FailedSince(since: nat)
      reads this
    {
      exists n: nat :: since <= n < calls && IsFailure(fate.faults(n))
    }

    /** The process is the publisher pub. */
    ghost predicate Mine(pub: Publisher)
      reads this
    {
      me in joint.repo.publishers && joint.repo.publishers[me] == pub
    }

    /** The run goes on, and the process has begun and released nothing. */
    twostate predicate SameStart()
      reads this
    {
      StartOf(history) == old(StartOf(history)) && DeedsOf(history, me) == old(DeedsOf(history, me))
    }

    /** The run goes on, and this is what the process has begun and released. */
    twostate predicate Did(deeds: seq<Deed>)
      reads this
    {
      StartOf(history) == old(StartOf(history)) && DeedsOf(history, me) == old(DeedsOf(history, me)) + deeds
    }

    /** The run goes on, and the process as a publisher stands where it stood. */
    twostate predicate Undisturbed()
      reads this
    {
      SameStart() && SamePublisher(me, old(joint.repo), joint.repo)
    }

    /** The process has not put a lock object, nor seen it fresh. */
    twostate predicate NoPut()
      reads this
    {
      Puts(history, me) == old(Puts(history, me))
    }

    /** A storage call; f is what goes wrong with it. */
    method Call() returns (f: Fault)
      requires Valid()
      modifies `calls
      ensures Valid() && calls == old(calls) + 1 && f == LastFault()
    {
      f := fate.faults(calls);
      calls := calls + 1;
    }

    /** One step, of whomever. */
    method Do(next: Joint, ghost m: JointMove)
      requires Valid() && Allowed(setting, joint, m, next) && Honest(fate, me, joint.lock, m, calls)
      modifies `joint, `history
      ensures Valid() && joint == next && history == After(old(history), m, next, calls)
    {
      joint := next;
      history := After(history, m, next, calls);
      StaysHonest();
    }

    lemma StaysHonest()
      requires history.After? && HonestRun(fate, me, history.past) && LastHonest(fate, me, history)
      ensures HonestRun(fate, me, history)
    {
    }

    /** A step of the process on the lock object. */
    method Step(e: L.Event)
      requires Valid() && L.Enabled(joint.lock, me, e) && !e.Crash?
      requires e.BeginRelease? ==> !ActiveIn(joint.repo, setting.codename, me)
      requires FitsEvent(e, LastFault()) && FitsWait(fate, joint.lock, L.Move(me, e))
      modifies `joint, `history
      ensures Valid() && Undisturbed() && joint == Joint(L.Effect(setting.ttl, old(joint.lock), me, e), old(joint.repo))
      ensures Puts(history, me) == Counted(old(Puts(history, me)), e)
    {
      Do(LockEffect(setting, joint, L.Move(me, e)), LockMove(L.Move(me, e)));
    }

    /** A step of its program that changes nothing but where it stands. */
    method Turn(e: L.Event, ghost to: L.Pc)
      requires Valid() && Turns(setting.ttl, Clock(), Pc(), e, to)
      requires e.BeginRelease? ==> !ActiveIn(joint.repo, setting.codename, me)
      requires e.GiveUp? && Pc() != L.Loop ==> Done()
      modifies `joint, `history
      ensures Valid() && Undisturbed() && Pc() == to && Clock() == old(Clock())
      ensures Tally() == Counted(old(Tally()), e) && (!e.SeeFresh? ==> NoPut())
    {
      TurnIsStep(setting, joint, me, e, to);
      Step(e);
    }

    /** A step of the process as a publisher; where publishes take the lock, it holds it. */
    method Publish(next: Repo, ghost a: Action)
      requires Valid() && Next(setting.tools, joint.repo, Move(me, a), next)
      requires setting.locking && InCodename(joint.repo, Move(me, a), setting.codename) ==> Pc().Holding?
      requires FitsAction(a, LastFault())
      modifies `joint, `history
      ensures Valid() && StartOf(history) == old(StartOf(history)) && NoPut()
      ensures if DeedOf(a).Some? then Did([DeedOf(a).value]) else SameStart()
      ensures joint == Joint(old(joint.lock), next)
    {
      Do(Joint(joint.lock, next), PublishMove(Move(me, a)));
    }

    /** One step of another publisher. */
    method OtherPublishes()
      requires Valid()
      modifies `joint, `history, `time
      ensures Valid() && Undisturbed() && NoPut() && joint.lock == old(joint.lock)
    {
      var step := others(time, joint);
      assert OthersMay(setting, me, joint, step);
      time := time + 1;
      if step.Some? {
        ForeignStep(setting, me, joint, step.value);
        Do(Joint(joint.lock, step.value.next), PublishMove(step.value.move));
      }
    }

    /** One step of another process on the lock object, of a late write, of the own heartbeat, or of
        the clock up to limit. */
    method OtherLocks(limit: int)
      requires Valid() && Clock() <= limit
      modifies `joint, `history
      ensures Valid() && Undisturbed() && NoPut() && SamePc(old(Pc()), Pc())
      ensures old(Clock()) <= Clock() <= limit
    {
      var m: L.Move := *;
      if IsForeign(setting, me, joint, m) {
        if m.event.Advance? ==> m.event.time <= limit {
          ForeignLock(setting, me, joint, m);
          Do(LockEffect(setting, joint, m), LockMove(m));
        }
      }
    }

    /** Any number of steps that the process does not decide itself, up to a time. */
    method Others(limit: int)
      requires Valid() && Clock() <= limit
      modifies `joint, `history, `time
      ensures Valid() && Undisturbed() && NoPut() && SamePc(old(Pc()), Pc())
      ensures old(Clock()) <= Clock() <= limit
    {
      var steps: nat :| true;
      while steps > 0
        invariant Valid() && Undisturbed() && NoPut() && SamePc(old(Pc()), Pc())
        invariant old(Clock()) <= Clock() <= limit
      {
        steps := steps - 1;
        var publish: bool := *;
        if publish { OtherPublishes(); } else { OtherLocks(limit); }
      }
    }

    /** A timer of the process runs out. */
    method Sleep(duration: nat)
      requires Valid()
      modifies `joint, `history, `time
      ensures Valid() && Undisturbed() && NoPut() && SamePc(old(Pc()), Pc())
      ensures Clock() == old(Clock()) + duration
    {
      var end := Clock() + duration;
      Others(end);
      if Clock() < end { Step(L.Advance(end)); }
    }
  }
}
