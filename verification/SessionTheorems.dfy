/** What the engine promises over whole runs: bounded work, preserved routing, exact counts. */
module SessionTheorems {
  import opened Base
  import opened StatusCodes
  import opened DriverSpec
  import opened DriverProofs
  import opened Engine
  import opened MaskRuns
  import opened ScanRuns
  import opened EngineRuns

  // ---- bounded work --------------------------------------------------------------------

  /** The most bus primitives, and so ticks, a session of this kind can take. */
  function WorkBound(s: Session): nat {
    match s.kind
    case Scan => 113
    case Discover => 8
    case Sweep => 515
    case Stress => 2 * s.target + 2
    case Mix => 7 * s.target + 2
    case _ => 0
  }

  function Ticks(y: Sys, ts: seq<TickIn>): Sys
    decreases |ts|
  {
    if ts == [] then y else Ticks(Tick(y, ts[0]), ts[1..])
  }

  lemma RoomLeft(y: Sys)
    requires Inv(y) && y.s.running && (MaskRun(y.s.kind) || ScanRun(y.s.kind))
    ensures |y.io| < WorkBound(y.s)
    ensures y.s.restoring ==> |y.io| + 2 - y.s.phase <= WorkBound(y.s)
  {
    if ScanRun(y.s.kind) {
      assert Evidence(y.s, Probes(y));
    } else if Capturing(y.s, y.io) {
    } else if Working(y.s, y.io) {
    } else {
      assert Cleaning(y.s, y.io);
    }
  }

  /** From any reachable state of a scan, discovery or mask run, each tick does one bus
      primitive until the session ends, which is no later than its work bound. */
  lemma {:induction false} EndsWithinBound(y: Sys, ts: seq<TickIn>)
    requires Inv(y) && (MaskRun(y.s.kind) || ScanRun(y.s.kind))
    requires y.s.running ==> |ts| >= WorkBound(y.s) - |y.io|
    ensures !Ticks(y, ts).s.running
    ensures y.s.running ==> |y.io| < |Ticks(y, ts).io| <= WorkBound(y.s)
    decreases |ts|
  {
    if y.s.running {
      RoomLeft(y);
      InvTick(y, ts[0]);
      if y.s.restoring && y.s.phase == 0 { CleanupStartsClean(y); }
      SteadyTick(y, ts[0]);
      var y1 := Tick(y, ts[0]);
      if y1.s.running {
        EndsWithinBound(y1, ts[1..]);
      } else {
        IdleTicks(y1, ts[1..]);
      }
    } else {
      IdleTicks(y, ts);
    }
  }

  lemma {:induction false} IdleTicks(y: Sys, ts: seq<TickIn>)
    requires !y.s.running
    ensures Ticks(y, ts) == y
    decreases |ts|
  {
    if ts != [] { IdleTicks(y, ts[1..]); }
  }

  lemma CleanupTicks(y: Sys, t: TickIn)
    requires Inv(y) && y.s.running && y.s.restoring
    ensures |Tick(y, t).io| == |y.io| + 1 && Inv(Tick(y, t))
    ensures y.s.phase == 1 ==> !Tick(y, t).s.running
    ensures y.s.phase != 1 ==> Tick(y, t).s.running && Tick(y, t).s.restoring && Tick(y, t).s.phase == 1
    ensures y.s.phase <= 1
  {
    InvTick(y, t);
    assert Cleaning(y.s, y.io);
    if y.s.phase == 1 { CleanRead(y, t); }
  }

  /** A cleanup under way takes at most two more bus primitives. */
  lemma CleanupEnds(y: Sys, ts: seq<TickIn>)
    requires Inv(y) && y.s.running && y.s.restoring && |ts| >= 2
    ensures !Ticks(y, ts).s.running && |Ticks(y, ts).io| <= |y.io| + 2
  {
    CleanupTicks(y, ts[0]);
    var y1, rest := Tick(y, ts[0]), ts[1..];
    if y1.s.running {
      CleanupTicks(y1, rest[0]);
      IdleTicks(Tick(y1, rest[0]), rest[1..]);
    } else {
      IdleTicks(y1, rest);
    }
  }

  lemma StoppedState(y: Sys, env: LineEnv)
    requires Inv(y) && y.s.running
    ensures var y1 := HandleLine(y, Stop, env);
            Inv(y1) && y1.io == y.io && (y1.s.running ==> y1.s.restoring)
  {
    InvStop(y, env);
    InvSame(StopSession(y, env), HandleLine(y, Stop, env));
  }

  /** After `stop`, at most two more bus primitives run, and two ticks always suffice. */
  lemma StopEndsInTwoPrimitives(y: Sys, env: LineEnv, ts: seq<TickIn>)
    requires Inv(y) && y.s.running && |ts| >= 2
    ensures var y' := Ticks(HandleLine(y, Stop, env), ts);
            !y'.s.running && |y'.io| <= |y.io| + 2
  {
    StoppedState(y, env);
    var y1 := HandleLine(y, Stop, env);
    if y1.s.running {
      CleanupEnds(y1, ts);
    } else {
      IdleTicks(y1, ts);
    }
  }

  // ---- routing ------------------------------------------------------------------------

  /** The first `n` bus steps are the program's: all met, or all but a last one that was the
      program's next step and went wrong. */
  ghost predicate KeepsTo(io: seq<Event>, program: seq<Want>, n: nat, failed: bool) {
    if !failed then Follows(io, program, n)
    else n >= 1 && n <= |io| && n <= |program| && Follows(io, program, n - 1) && Misses(io[n - 1], program[n - 1])
  }

  /** Every bus step before the cleanup was the program's, the last one gone wrong exactly if the
      run failed before any cancellation; the cleanup is one write and one read of the mask to
      restore, and is OK only if both succeeded and the byte matched. */
  ghost predicate ProgramThenCleanup(y: Sys) {
    var n := |y.io| - 2;
    && n >= 0
    && KeepsTo(y.io, Program(y.s.kind, y.s.target), n, !y.s.primary.IsOk() && !y.s.cancelled)
    && y.io[n].Wrote? && y.io[n].mask == SafeMask(y.s)
    && y.io[n + 1].ReadBack? && y.io[n + 1].tracked
    && (y.s.cleanup.IsOk() <==>
          y.io[n].status.IsOk() && y.io[n + 1].status.IsOk() && y.io[n + 1].byte == SafeMask(y.s))
    && EntryRead(y.s.kind, y.s.original, y.io) && (y.s.kind.Sweep? ==> n >= 1)
    && (y.s.primary.IsOk() ==> n == |Program(y.s.kind, y.s.target)| && y.s.completed == y.s.target)
  }

  lemma EndedProgram(y: Sys)
    requires MaskRun(y.s.kind) && !y.s.running && NeedsCleanup(y.s) && Cleaned(y.s, y.io)
    ensures ProgramThenCleanup(y)
  {
    BodyFollows(y.s, y.io, |y.io| - 2);
  }

  lemma BodyFollows(s: Session, io: seq<Event>, n: nat)
    requires n <= |io| && BodyDone(s, io[..n])
    requires s.primary.IsOk() ==> !s.cancelled
    ensures KeepsTo(io, Program(s.kind, s.target), n, !s.primary.IsOk() && !s.cancelled)
    ensures EntryRead(s.kind, s.original, io) && (s.kind.Sweep? ==> n >= 1)
    ensures s.primary.IsOk() ==> n == |Program(s.kind, s.target)| && s.completed == s.target
  {
    var body := io[..n];
    assert forall j :: 0 <= j < n ==> body[j] == io[j];
  }

  /** Whatever fails and whenever it is stopped, a mask run that has something to restore ends
      with exactly one cleanup write and one cleanup read, after a prefix of its program; one that
      has nothing to restore did nothing but fail to read the entry mask. */
  lemma MaskRunsKeepTheirProgram(w: World, staged: Byte, inputs: seq<Input>)
    ensures var y := RunAll(Boot(w, staged), inputs);
            MaskRun(y.s.kind) && !y.s.running ==>
              if NeedsCleanup(y.s) then ProgramThenCleanup(y)
              else y.io == [] || (|y.io| == 1 && Misses(y.io[0], WantCapture))
  {
    InvHolds(w, staged, inputs);
    var y := RunAll(Boot(w, staged), inputs);
    if MaskRun(y.s.kind) && !y.s.running {
      assert StageInv(y.s, y.io);
      if NeedsCleanup(y.s) { EndedProgram(y); }
    }
  }

  /** A sweep that passes has written and verified 0, 1, ..., 255 in this order, between the
      read of the entry mask and its verified restoration. */
  lemma SweepPassVerifiesEveryByte(w: World, staged: Byte, inputs: seq<Input>, k: Byte)
    ensures var y := RunAll(Boot(w, staged), inputs);
            y.s.kind.Sweep? && !y.s.running && OutcomeOf(y.s).Passed? ==>
              && |y.io| == 515 && y.s.completed == 256
              && Meets(y.io[0], WantRead(y.s.original))
              && Meets(y.io[1 + 2 * k], WantWrite(k))
              && Meets(y.io[2 + 2 * k], WantRead(k))
              && Meets(y.io[513], WantWrite(y.s.original))
              && Meets(y.io[514], WantRead(y.s.original))
  {
    MaskRunsKeepTheirProgram(w, staged, inputs);
    InvHolds(w, staged, inputs);
    var y := RunAll(Boot(w, staged), inputs);
    if y.s.kind.Sweep? && !y.s.running && OutcomeOf(y.s).Passed? {
      PassedSweep(y, k, y.s.target);
    }
  }

  lemma PassedSweep(y: Sys, k: Byte, n: nat)
    requires k < n && |y.io| >= 1 + 2 * n && Follows(y.io, Program(Sweep, n), 1 + 2 * n)
    ensures Meets(y.io[1 + 2 * k], WantWrite(k))
    ensures Meets(y.io[2 + 2 * k], WantRead(k))
  {
    ProgramAt(Sweep, n, k, 0);
    ProgramAt(Sweep, n, k, 1);
  }

  /** A working run never ends in one tick: there is something to restore. */
  lemma WorkingGoesOn(y: Sys, t: TickIn)
    requires Inv(y) && MaskRun(y.s.kind) && y.s.running && !y.s.restoring && Working(y.s, y.io)
    ensures Tick(y, t).s.running
  {
    var y1, st := WorkSettles(y, t);
  }

  lemma VerifiedTick(y: Sys, t: TickIn)
    requires Inv(y) && MaskRun(y.s.kind) && y.s.running
    ensures var y' := Tick(y, t);
            !y'.s.running && NeedsCleanup(y'.s) && y'.s.cleanup.IsOk() ==> y'.world.hw == SafeMask(y'.s)
  {
    assert StageInv(y.s, y.io);
    if y.s.restoring {
      CleanupTicks(y, t);
      if y.s.phase == 1 { CleanRead(y, t); }
    } else if Working(y.s, y.io) {
      WorkingGoesOn(y, t);
    } else {
      CaptureEndsUncaptured(y, t);
    }
  }

  /** A run that ends while capturing has nothing to restore. */
  lemma CaptureEndsUncaptured(y: Sys, t: TickIn)
    requires y.s.kind.Sweep? && y.s.running && !y.s.restoring && !y.s.captured
    ensures !Tick(y, t).s.running ==> !NeedsCleanup(Tick(y, t).s)
  {
  }

  /** The tick that ends a mask run with a verified cleanup leaves the chip holding the mask to
      restore: the entry mask after a sweep, all-off after stress, however the run went. */
  lemma VerifiedCleanupLeavesTheMask(w: World, staged: Byte, inputs: seq<Input>, t: TickIn)
    ensures var y := RunAll(Boot(w, staged), inputs); var y' := Tick(y, t);
            MaskRun(y.s.kind) && y.s.running && !y'.s.running && NeedsCleanup(y'.s) && y'.s.cleanup.IsOk() ==>
              y'.world.hw == SafeMask(y'.s)
  {
    InvHolds(w, staged, inputs);
    var y := RunAll(Boot(w, staged), inputs);
    if MaskRun(y.s.kind) && y.s.running { VerifiedTick(y, t); }
  }

  // ---- counts -------------------------------------------------------------------------

  /** Raw probes among the steps of a program; they are never tracked. */
  function RawProbes(p: seq<Want>): (n: nat)
    ensures n <= |p|
  {
    if p == [] then 0 else RawProbes(p[..|p| - 1]) + if p[|p| - 1].WantProbe? then 1 else 0
  }

  lemma {:induction false} ProgramCounts(io: seq<Event>, p: seq<Want>)
    requires Follows(io, p, |io|) && |io| == |p|
    ensures Transfers(io, true) == |p| && Transfers(io, false) == 0
    ensures Failures(io) == 0 && Successes(io) == |p| - RawProbes(p)
    decreases |io|
  {
    if io != [] {
      var (before, e) := (io[..|io| - 1], io[|io| - 1]);
      ProgramCounts(before, p[..|p| - 1]);
      assert Meets(e, p[|p| - 1]) && before + [e] == io;
      ExtendTransfers(before, e);
      ExtendCounts(before, e);
    }
  }

  lemma {:induction false} RawProbesJoin(p: seq<Want>, q: seq<Want>)
    ensures RawProbes(p + q) == RawProbes(p) + RawProbes(q)
    decreases |q|
  {
    if q == [] {
      assert p + q == p;
    } else {
      RawProbesJoin(p, q[..|q| - 1]);
      assert (p + q)[..|p + q| - 1] == p + q[..|q| - 1];
    }
  }

  lemma {:induction false} NoProbes(p: seq<Want>)
    requires forall i :: 0 <= i < |p| ==> !p[i].WantProbe?
    ensures RawProbes(p) == 0
    decreases |p|
  {
    if p != [] { NoProbes(p[..|p| - 1]); }
  }

  lemma RoundProbes(k: RunKind, c: nat)
    ensures RawProbes(Round(k, c)) == if k.Mix? then 1 else 0
  {
    var r := Round(k, c);
    if k.Mix? {
      NoProbes(r[..4]);
      RawProbesJoin(r[..4], r[4..5]);
      NoProbes(r[5..]);
      RawProbesJoin(r[..4] + r[4..5], r[5..]);
      assert r == r[..4] + r[4..5] + r[5..];
      assert r[4..5] == [WantProbe] && [WantProbe][..0] == [];
    } else {
      NoProbes(r);
    }
  }

  lemma {:induction false} ProgramProbes(k: RunKind, n: nat)
    ensures RawProbes(Program(k, n)) == if k.Mix? then n else 0
    decreases n
  {
    if n == 0 {
      NoProbes(Program(k, 0));
    } else {
      ProgramProbes(k, n - 1);
      RawProbesJoin(Program(k, n - 1), Round(k, n - 1));
      RoundProbes(k, n - 1);
    }
  }

  /** The work table: 2N+2 transfers for stress, 7N+2 for mixed stress of which 6N+2 are
      tracked, 515 for a sweep. */
  lemma WorkTable(k: RunKind, n: nat)
    requires MaskRun(k)
    ensures |Program(k, n)| + 2 == (if k.Mix? then 7 * n + 2 else if k.Sweep? then 2 * n + 3 else 2 * n + 2)
    ensures RawProbes(Program(k, n)) == if k.Mix? then n else 0
  {
    ProgramProbes(k, n);
  }

  lemma TwoMore(body: seq<Event>, a: Event, b: Event)
    requires a.Wrote? && a.status.IsOk() && b.ReadBack? && b.status.IsOk() && b.tracked
    ensures var io := body + [a] + [b];
            && Transfers(io, true) == Transfers(body, true) + 2 && Transfers(io, false) == Transfers(body, false)
            && Failures(io) == Failures(body) && Successes(io) == Successes(body) + 2
  {
    ExtendTransfers(body, a);
    ExtendTransfers(body + [a], b);
    ExtendCounts(body, a);
    ExtendCounts(body + [a], b);
  }

  lemma CleanedCounts(io: seq<Event>, p: seq<Want>, mask: Byte)
    requires |io| == |p| + 2 && Follows(io, p, |p|)
    requires Meets(io[|p|], WantWrite(mask)) && Meets(io[|p| + 1], WantRead(mask))
    ensures Transfers(io, true) == |p| + 2 && Transfers(io, false) == 0
    ensures Failures(io) == 0 && Successes(io) == |p| + 2 - RawProbes(p)
  {
    var n := |p|;
    ProgramCounts(io[..n], p);
    TwoMore(io[..n], io[n], io[n + 1]);
    assert io == io[..n] + [io[n]] + [io[n + 1]];
  }

  /** The counts of a session that did all its work: successful transfers `all`, of which `tracked`
      moved the lifetime success counter, and no failure anywhere. */
  predicate FullyCounted(s: Session, all: nat, tracked: nat) {
    && s.transferSuccesses == all && s.transferFailures == 0
    && Sub32(s.failureAfter, s.failureBefore) == 0
    && (s.successAfter < U32_MAX ==> Sub32(s.successAfter, s.successBefore) == tracked)
  }

  lemma PassedIsCounted(y: Sys)
    requires MaskRun(y.s.kind) && !y.s.running && Accounted(y) && ProgramThenCleanup(y)
    requires y.s.primary.IsOk() && y.s.cleanup.IsOk()
    ensures var all := |Program(y.s.kind, y.s.target)| + 2;
            |y.io| == all && FullyCounted(y.s, all, all - RawProbes(Program(y.s.kind, y.s.target)))
  {
    CleanedCounts(y.io, Program(y.s.kind, y.s.target), SafeMask(y.s));
  }

  /** The counts of the table, for a passed run of each kind. */
  predicate CountedByTable(y: Sys) {
    var n := y.s.target;
    match y.s.kind
    case Stress => |y.io| == 2 * n + 2 && FullyCounted(y.s, 2 * n + 2, 2 * n + 2)
    case Mix => |y.io| == 7 * n + 2 && FullyCounted(y.s, 7 * n + 2, 6 * n + 2)
    case _ => |y.io| == 515 && FullyCounted(y.s, 515, 515)
  }

  lemma PassedByTable(y: Sys)
    requires MaskRun(y.s.kind) && !y.s.running && Accounted(y) && ProgramThenCleanup(y)
    requires y.s.primary.IsOk() && y.s.cleanup.IsOk()
    ensures CountedByTable(y)
  {
    WorkTable(y.s.kind, y.s.target);
    PassedIsCounted(y);
  }

  /** A passed mask run did, and counted, exactly the work of the table: N rounds cost 2N+2, 7N+2
      or 515 successful transfers and no failure, and the lifetime success counter moved by 2N+2,
      6N+2 or 515 unless it is saturated. */
  lemma PassedRunsAreFullyCounted(w: World, staged: Byte, inputs: seq<Input>)
    ensures var y := RunAll(Boot(w, staged), inputs);
            MaskRun(y.s.kind) && !y.s.running && OutcomeOf(y.s).Passed? ==> CountedByTable(y)
  {
    InvHolds(w, staged, inputs);
    MaskRunsKeepTheirProgram(w, staged, inputs);
    var y := RunAll(Boot(w, staged), inputs);
    if MaskRun(y.s.kind) && !y.s.running && OutcomeOf(y.s).Passed? {
      PassedByTable(y);
    }
  }
}
