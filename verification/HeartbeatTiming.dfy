/** How much time the heartbeats need, exactly. A record stays unexpired while its holder works if
    and only if 3d + max(ttl / 2, 10s) <= ttl, and up to the end of Release if and only if
    4d + max(ttl / 2, 10s) <= ttl; for one worker on a lock nobody else has written, 2d and 3d.
    Acquire stamps the record before the put, a former holder's write may land just after it, the
    ticker starts when the put returns, and Release makes two calls without a heartbeat. */
module HeartbeatTiming {
  import opened Text
  import opened LockProtocol
  import opened LockRecovery
  import opened LockTiming

  // ----- any number of workers -----

  /** In every timed run no record is expired while a live worker works under the lock. */
  ghost predicate WorkInTime(ttl: nat, d: nat) {
    forall states, moves, n, w | TimedRun(ttl, d, states, moves) && 0 <= n < |states| ::
      Working(PcOf(states[n], w)) ==> NotExpired(states[n])
  }

  /** The same up to the end of Release. */
  ghost predicate ReleaseInTime(ttl: nat, d: nat) {
    forall states, moves, n, w | TimedRun(ttl, d, states, moves) && 0 <= n < |states| ::
      IsInside(states[n], w) ==> NotExpired(states[n])
  }

  lemma WorkNeeds(ttl: nat, d: nat)
    ensures WorkInTime(ttl, d) <==> 3 * d + (if ttl / 2 > 10_000_000_000 then ttl / 2 else 10_000_000_000) <= ttl
  {
    if 3 * d + Interval(ttl) <= ttl {
      forall states, moves, n, w | TimedRun(ttl, d, states, moves) && 0 <= n < |states| && Working(PcOf(states[n], w))
        ensures NotExpired(states[n])
      {
        CoverRun(ttl, d, 0, states, moves, n);
        CoveredIsNotExpired(ttl, d, 0, states[n], w);
      }
    } else {
      var states, moves, s := LateHeartbeat(ttl, d, true);
      IsTimed(ttl, d, states, moves);
      assert states[|states| - 1] == s;
    }
  }

  lemma ReleaseNeeds(ttl: nat, d: nat)
    ensures ReleaseInTime(ttl, d) <==> 4 * d + (if ttl / 2 > 10_000_000_000 then ttl / 2 else 10_000_000_000) <= ttl
  {
    if 4 * d + Interval(ttl) <= ttl {
      forall states, moves, n, w | TimedRun(ttl, d, states, moves) && 0 <= n < |states| && IsInside(states[n], w)
        ensures NotExpired(states[n])
      {
        CoverRun(ttl, d, d, states, moves, n);
        CoveredIsNotExpired(ttl, d, d, states[n], w);
      }
    } else {
      var states, moves, s := LateRelease(ttl, d, true);
      IsTimed(ttl, d, states, moves);
      assert states[|states| - 1] == s;
    }
  }

  // ----- one worker on a lock of its own -----

  /** Between the start of Acquire and the return of its put. */
  predicate Acquiring(pc: Pc) {
    !(pc.Idle? || pc.Crashed? || pc.Holding? || pc.ReleaseGet? || pc.ReleaseDelete?)
  }

  /** A step of w; it starts only when no write is under way and its last heartbeat has stopped. */
  predicate SoloMove(s: Sys, m: Move, w: string) {
    && m.worker == w && (m.event.Start? ==> s.flying == {})
    && (m.event.LateTick? ==> !Acquiring(PcOf(s, w)))
  }

  ghost predicate Solo(states: seq<Sys>, moves: seq<Move>, w: string) {
    && |states| == |moves| + 1 && states[0].lock == None && states[0].flying == {}
    && forall i :: 0 <= i < |moves| ==> SoloMove(states[i], moves[i], w)
  }

  ghost predicate SoloWorkInTime(ttl: nat, d: nat) {
    forall states, moves, n, w | TimedRun(ttl, d, states, moves) && Solo(states, moves, w) && 0 <= n < |states| ::
      Working(PcOf(states[n], w)) ==> NotExpired(states[n])
  }

  ghost predicate SoloReleaseInTime(ttl: nat, d: nat) {
    forall states, moves, n, w | TimedRun(ttl, d, states, moves) && Solo(states, moves, w) && 0 <= n < |states| ::
      IsInside(states[n], w) ==> NotExpired(states[n])
  }

  /** Before the work begins no write is under way. */
  predicate QuietStart(s: Sys, w: string) {
    Acquiring(PcOf(s, w)) ==> s.flying == {}
  }

  lemma QuietStep(ttl: nat, s: Sys, m: Move, s': Sys, w: string)
    requires QuietStart(s, w) && Next(ttl, s, m, s') && SoloMove(s, m, w)
    ensures QuietStart(s', w)
  {
  }

  lemma OwnPutCovers(ttl: nat, d: nat, rest: nat, s: Sys, m: Move, s': Sys)
    requires rest <= d && 2 * d + rest + Interval(ttl) <= ttl && Next(ttl, s, m, s') && m.event.PutLands?
    ensures Covered(ttl, d, rest, s', m.worker)
  {
  }

  lemma SoloStep(ttl: nat, d: nat, rest: nat, s: Sys, m: Move, s': Sys, w: string)
    requires rest <= d && 2 * d + rest + Interval(ttl) <= ttl
    requires QuietStart(s, w) && Covered(ttl, d, rest, s, w) && OnTime(s, d)
    requires Next(ttl, s, m, s') && SoloMove(s, m, w) && !m.event.WriteLost?
    ensures Covered(ttl, d, rest, s', w)
  {
    StepPc(ttl, s, m, s', w);
    assert PcOnTime(PcOf(s, w), s.now, d);
    if m.event.WriteLands? {
      NewRecordIsFresh(ttl, d, s, m, s');
      if Counts(rest, d, PcOf(s, w)) { FreshRecordCovers(ttl, d, rest, s', w); }
    } else if m.event.PutLands? {
      OwnPutCovers(ttl, d, rest, s, m, s');
    } else if m.event.PutFailsLanded? {
      PutPc(ttl, s, m, s', w);
    } else if IsAmbient(m.event) {
      SamePcCovered(ttl, d, rest, s, m, s', w);
    } else {
      OwnStepCovered(ttl, d, rest, s, m, s');
    }
  }

  lemma {:induction false} SoloRunInv(ttl: nat, d: nat, rest: nat, w: string, states: seq<Sys>, moves: seq<Move>,
                                      n: nat)
    requires rest <= d && 2 * d + rest + Interval(ttl) <= ttl
    requires TimedRun(ttl, d, states, moves) && Solo(states, moves, w) && n < |states|
    ensures QuietStart(states[n], w) && Covered(ttl, d, rest, states[n], w)
  {
    if n > 0 {
      SoloRunInv(ttl, d, rest, w, states, moves, n - 1);
      QuietStep(ttl, states[n - 1], moves[n - 1], states[n], w);
      SoloStep(ttl, d, rest, states[n - 1], moves[n - 1], states[n], w);
    }
  }

  lemma SoloWorkNeeds(ttl: nat, d: nat)
    ensures SoloWorkInTime(ttl, d) <==> 2 * d + (if ttl / 2 > 10_000_000_000 then ttl / 2 else 10_000_000_000) <= ttl
  {
    if 2 * d + Interval(ttl) <= ttl {
      forall states, moves, n, w |
        TimedRun(ttl, d, states, moves) && Solo(states, moves, w) && 0 <= n < |states| && Working(PcOf(states[n], w))
        ensures NotExpired(states[n])
      {
        SoloRunInv(ttl, d, 0, w, states, moves, n);
        CoveredIsNotExpired(ttl, d, 0, states[n], w);
      }
    } else {
      var states, moves, s := LateHeartbeat(ttl, d, false);
      IsTimed(ttl, d, states, moves);
      assert states[|states| - 1] == s;
    }
  }

  lemma SoloReleaseNeeds(ttl: nat, d: nat)
    ensures SoloReleaseInTime(ttl, d) <==> 3 * d + (if ttl / 2 > 10_000_000_000 then ttl / 2 else 10_000_000_000) <= ttl
  {
    if 3 * d + Interval(ttl) <= ttl {
      forall states, moves, n, w |
        TimedRun(ttl, d, states, moves) && Solo(states, moves, w) && 0 <= n < |states| && IsInside(states[n], w)
        ensures NotExpired(states[n])
      {
        SoloRunInv(ttl, d, d, w, states, moves, n);
        CoveredIsNotExpired(ttl, d, d, states[n], w);
      }
    } else {
      var states, moves, s := LateRelease(ttl, d, false);
      IsTimed(ttl, d, states, moves);
      assert states[|states| - 1] == s;
    }
  }

  // ----- too little time: the runs -----

  ghost predicate NobodyBreaks(s: Sys) {
    forall b :: !AboutToBreak(PcOf(s, b))
  }

  /** A timed run that ends in s; a solo run of "w" unless a late write is allowed. */
  ghost predicate ReachesBy(ttl: nat, d: nat, late: bool, states: seq<Sys>, moves: seq<Move>, s: Sys) {
    && OnTimeRun(ttl, d, states, moves) && Follows(NOTHING, states, moves)
    && states[|states| - 1] == s && NobodyBreaks(s)
    && (late || Solo(states, moves, "w"))
  }

  lemma IsTimed(ttl: nat, d: nat, states: seq<Sys>, moves: seq<Move>)
    requires OnTimeRun(ttl, d, states, moves) && Follows(NOTHING, states, moves)
    ensures TimedRun(ttl, d, states, moves)
  {
    assert SafeGap(NOTHING);
  }

  lemma Go(ttl: nat, d: nat, late: bool, states: seq<Sys>, moves: seq<Move>, s: Sys, e: Event)
    returns (states': seq<Sys>, moves': seq<Move>, s': Sys)
    requires ReachesBy(ttl, d, late, states, moves, s) && Enabled(s, "w", e)
    requires !e.WriteLost? && (late || SoloMove(s, Move("w", e), "w"))
    requires OnTime(Effect(ttl, s, "w", e), d) && !AboutToBreak(PcOf(Effect(ttl, s, "w", e), "w"))
    ensures ReachesBy(ttl, d, late, states', moves', s') && s' == Effect(ttl, s, "w", e)
  {
    var m := Move("w", e);
    s' := Effect(ttl, s, "w", e);
    states', moves' := states + [s'], moves + [m];
    RunExtends(ttl, states, moves, m, s');
    StillNobody(ttl, s, m, s');
    GoKeeps(states, moves, m, s', late);
  }

  lemma StillNobody(ttl: nat, s: Sys, m: Move, s': Sys)
    requires NobodyBreaks(s) && Next(ttl, s, m, s') && !AboutToBreak(PcOf(s', m.worker))
    ensures NobodyBreaks(s') && Respects(NOTHING, s, m)
  {
    forall b ensures !AboutToBreak(PcOf(s', b)) {
      StepPc(ttl, s, m, s', b);
      assert !AboutToBreak(PcOf(s, b));
    }
  }

  lemma GoKeeps(states: seq<Sys>, moves: seq<Move>, m: Move, s': Sys, late: bool)
    requires |states| == |moves| + 1 && Respects(NOTHING, states[|moves|], m) && Follows(NOTHING, states, moves)
    requires late || (Solo(states, moves, "w") && SoloMove(states[|moves|], m, "w"))
    ensures Follows(NOTHING, states + [s'], moves + [m]) && (late || Solo(states + [s'], moves + [m], "w"))
  {
    var states', moves' := states + [s'], moves + [m];
    forall i | 0 <= i < |moves'|
      ensures Respects(NOTHING, states'[i], moves'[i]) && (late || SoloMove(states'[i], moves'[i], "w"))
    {
      if i < |moves| { assert Respects(NOTHING, states[i], moves[i]) && (late || SoloMove(states[i], moves[i], "w")); }
    }
  }

  lemma WaitUntil(ttl: nat, d: nat, late: bool, states: seq<Sys>, moves: seq<Move>, s: Sys, time: int)
    returns (states': seq<Sys>, moves': seq<Move>, s': Sys)
    requires ReachesBy(ttl, d, late, states, moves, s) && time >= s.now && OnTime(s.(now := time), d)
    ensures ReachesBy(ttl, d, late, states', moves', s') && s' == s.(now := time)
  {
    states', moves', s' := states, moves, s;
    if time > s.now {
      assert !AboutToBreak(PcOf(s, "w"));
      states', moves', s' := Go(ttl, d, late, states, moves, s, Advance(time));
    }
  }

  /** The time of the put: with a late write, that write was stamped one call before. */
  function PutTime(d: nat, late: bool): int {
    if late then 1 + d else 1
  }

  lemma UntilTrying(ttl: nat, d: nat, late: bool) returns (states: seq<Sys>, moves: seq<Move>, s: Sys)
    ensures ReachesBy(ttl, d, late, states, moves, s)
    ensures s == Sys(PutTime(d, late), None, map["w" := Trying(PutTime(d, late))],
                     if late then {Write("old", 1)} else {})
  {
    s := Sys(PutTime(d, late), None, map[], if late then {Write("old", 1)} else {});
    states, moves := [s], [];
    assert ReachesBy(ttl, d, late, states, moves, s);
    states, moves, s := Go(ttl, d, late, states, moves, s, Start);
    states, moves, s := Go(ttl, d, late, states, moves, s, Stamp);
  }

  /** The put takes effect at once; the late write, if any, lands right behind it. */
  lemma UntilLanded(ttl: nat, d: nat, late: bool) returns (states: seq<Sys>, moves: seq<Move>, s: Sys)
    ensures ReachesBy(ttl, d, late, states, moves, s)
    ensures s == Sys(PutTime(d, late), Some(Held(if late then "old" else "w", 1 + ttl)),
                     map["w" := Landed(PutTime(d, late))], {})
  {
    states, moves, s := UntilTrying(ttl, d, late);
    states, moves, s := Go(ttl, d, late, states, moves, s, PutLands);
    if late { states, moves, s := Go(ttl, d, late, states, moves, s, WriteLands(Write("old", 1))); }
  }

  /** The put returns as late as possible. */
  lemma UntilWorking(ttl: nat, d: nat, late: bool) returns (states: seq<Sys>, moves: seq<Move>, s: Sys)
    ensures ReachesBy(ttl, d, late, states, moves, s)
    ensures var now := PutTime(d, late) + d;
      s == Sys(now, Some(Held(if late then "old" else "w", 1 + ttl)), map["w" := Holding(now + Interval(ttl))], {})
  {
    states, moves, s := UntilLanded(ttl, d, late);
    states, moves, s := WaitUntil(ttl, d, late, states, moves, s, PutTime(d, late) + d);
    states, moves, s := Go(ttl, d, late, states, moves, s, PutReturns);
  }

  /** The worker waits for its first tick. */
  lemma UntilFirstTick(ttl: nat, d: nat, late: bool) returns (states: seq<Sys>, moves: seq<Move>, s: Sys)
    ensures ReachesBy(ttl, d, late, states, moves, s)
    ensures var tick := PutTime(d, late) + d + Interval(ttl);
      s == Sys(tick, Some(Held(if late then "old" else "w", 1 + ttl)), map["w" := Holding(tick)], {})
  {
    states, moves, s := UntilWorking(ttl, d, late);
    states, moves, s := WaitUntil(ttl, d, late, states, moves, s, PutTime(d, late) + d + Interval(ttl));
  }

  lemma LateHeartbeat(ttl: nat, d: nat, late: bool) returns (states: seq<Sys>, moves: seq<Move>, s: Sys)
    requires PutTime(d, late) + 2 * d + Interval(ttl) > 1 + ttl
    ensures ReachesBy(ttl, d, late, states, moves, s) && Working(PcOf(s, "w")) && !NotExpired(s)
  {
    states, moves, s := UntilFirstTick(ttl, d, late);
    if PutTime(d, late) + d + Interval(ttl) <= 1 + ttl {
      states, moves, s := Go(ttl, d, late, states, moves, s, Tick);
      states, moves, s := WaitUntil(ttl, d, late, states, moves, s, ttl + 2);
    }
  }

  lemma UntilRelease(ttl: nat, d: nat, late: bool) returns (states: seq<Sys>, moves: seq<Move>, s: Sys)
    ensures ReachesBy(ttl, d, late, states, moves, s)
    ensures var tick := PutTime(d, late) + d + Interval(ttl);
      s == Sys(tick, Some(Held(if late then "old" else "w", 1 + ttl)), map["w" := ReleaseGet(tick)], {})
  {
    states, moves, s := UntilFirstTick(ttl, d, late);
    states, moves, s := Go(ttl, d, late, states, moves, s, BeginRelease);
  }

  /** Release begins just before the tick, and its read fails. */
  lemma UntilReadFailed(ttl: nat, d: nat, late: bool) returns (states: seq<Sys>, moves: seq<Move>, s: Sys)
    ensures ReachesBy(ttl, d, late, states, moves, s)
    ensures var tick := PutTime(d, late) + d + Interval(ttl);
      s == Sys(tick, Some(Held(if late then "old" else "w", 1 + ttl)), map["w" := ReleaseDelete(tick)], {})
  {
    states, moves, s := UntilRelease(ttl, d, late);
    states, moves, s := Go(ttl, d, late, states, moves, s, ReleaseReadFails);
  }

  lemma LateRelease(ttl: nat, d: nat, late: bool) returns (states: seq<Sys>, moves: seq<Move>, s: Sys)
    requires PutTime(d, late) + 3 * d + Interval(ttl) > 1 + ttl
    ensures ReachesBy(ttl, d, late, states, moves, s) && IsInside(s, "w") && !NotExpired(s)
  {
    states, moves, s := UntilReadFailed(ttl, d, late);
    states, moves, s := WaitUntil(ttl, d, late, states, moves, s, PutTime(d, late) + 3 * d + Interval(ttl));
  }
}
