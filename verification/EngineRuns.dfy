/** Every run of the engine: any interleaving of command lines, discarded lines, outside
    changes of the chip, and ticks with any transport and clock behaviour. */
module EngineRuns {
  import opened Base
  import opened StatusCodes
  import opened DriverSpec
  import opened DriverProofs
  import opened Engine
  import opened MaskRuns
  import opened ScanRuns

  function BoolToNat(b: bool): nat {
    if b then 1 else 0
  }

  /** Rows a session prints of itself before it ends. */
  predicate Opening(r: Row) {
    r.Started? || r.Topology? || r.Scanning? || r.Found? || r.ScanError? || r.SampleShown? || r.CleanupReadback?
  }

  predicate Harmless(r: Row) {
    r.Started? || r.Found? || r.Scanning? || r.SampleShown? || (r.Topology? && r.status.IsOk())
  }

  /** Rows a line can print while a session is active. */
  predicate Interjected(r: Row) {
    || r.Complaint? || r.MarkerShown? || r.Echoed? || r.HealthShown? || r.CountersShown?
    || r.NoStatistics? || r.RunLine? || r.PrimaryResult? || r.CleanupLine? || r.CleanupResult?
    || r.Detection? || r.Candidates?
  }

  predicate Clean(s: Session) {
    s.primary.IsOk() && s.cleanup.IsOk()
  }

  /** A row is the session's own, and then no failure row unless a failure is recorded, or it was
      printed by a line met meanwhile. */
  predicate Fits(s: Session, met: seq<Row>, r: Row) {
    (Opening(r) && (Clean(s) ==> Harmless(r))) || (Interjected(r) && r in met)
  }

  ghost predicate AllFit(s: Session, met: seq<Row>, rows: seq<Row>) {
    && (forall r :: r in rows ==> Fits(s, met, r))
    && (forall r :: r in met ==> r in rows)
  }

  /** While running a session's printout has opening rows and those of lines met; once ended, it
      closes with exactly the summary of its final state. */
  ghost predicate RowsOk(y: Sys) {
    if y.s.running then AllFit(y.s, y.met, y.rows)
    else y.s.available ==>
      var n := |y.rows| - |FinalRows(y.s)|;
      n >= 0 && y.rows[n..] == FinalRows(y.s) && AllFit(y.s, y.met, y.rows[..n])
  }

  ghost predicate Inv(y: Sys) {
    && MaskInv(y) && ScanInv(y) && RowsOk(y)
    && (y.s.running ==> y.s.available && !y.s.kind.NoRun? && (y.s.kind.Discover? || y.world.dev.bound))
    && (y.s.restoring && y.s.running ==> MaskRun(y.s.kind))
  }

  // ---- prompts ---------------------------------------------------------------------

  /** What a tick may change about prompts, binding and identity of the session. */
  ghost predicate Steady(y: Sys, y': Sys) {
    && y'.s.kind == y.s.kind && y'.s.available == y.s.available
    && y'.met == y.met && y'.staged == y.staged && y'.world.dev.bound == y.world.dev.bound
    && y'.prompts + BoolToNat(y'.s.running) == y.prompts + BoolToNat(y.s.running)
    && (RowsOk(y) && y.s.running ==> RowsOk(y'))
  }

  lemma SteadyAccess(y: Sys, mask: Byte, tracked: bool, r: Reply)
    ensures Steady(y, Write(y, mask, r).0) && Steady(y, Read(y, mask, tracked, r).0) && Steady(y, VerifyMask(y, mask, r).0)
    ensures var (a, b, c) := (Write(y, mask, r).0, Read(y, mask, tracked, r).0, VerifyMask(y, mask, r).0);
            && a.s.running == b.s.running == c.s.running == y.s.running
            && a.s.restoring == b.s.restoring == c.s.restoring == y.s.restoring
            && a.s.captured == b.s.captured == y.s.captured
  {
  }

  lemma FinishRows(y: Sys, ended: u32, inCommand: bool)
    requires y.s.running
    ensures RowsOk(y) ==> RowsOk(Finish(y, ended, inCommand))
  {
    var y' := Finish(y, ended, inCommand);
    var n := |y'.rows| - |FinalRows(y'.s)|;
    assert y'.rows[..n] == y.rows && y'.rows[n..] == FinalRows(y'.s);
  }

  lemma SteadyFinish(y: Sys, ended: u32)
    requires y.s.running
    ensures Steady(y, Finish(y, ended, false)) && !Finish(y, ended, false).s.running
  {
    FinishRows(y, ended, false);
  }

  /** A failure is recorded before the session ends, so failure rows already printed fit. */
  lemma SteadyFail(y: Sys, st: Status, ended: u32)
    requires y.s.running && !st.IsOk()
    ensures Steady(y, Fail(y, st, ended, false))
    ensures (forall r :: r in y.rows ==> Opening(r) || (Interjected(r) && r in y.met)) && (forall r :: r in y.met ==> r in y.rows)
            ==> RowsOk(Fail(y, st, ended, false))
    ensures Fail(y, st, ended, false).s.running ==> MaskRun(y.s.kind)
  {
    FinishRows(if y.s.primary.IsOk() then y.(s := y.s.(primary := st)) else y, ended, false);
  }

  lemma SteadySample(y: Sys, ending: bool, t: TickIn)
    requires y.s.running && !y.s.restoring && (y.s.kind.Watch? || y.s.kind.Soak?)
    ensures Steady(y, TakeSample(y, ending, t)) && (TakeSample(y, ending, t).s.running ==> !TakeSample(y, ending, t).s.restoring)
  {
    var (y1, read, observed) := Read(y, 0, true, t.reply);
    SteadyAccess(y, 0, true, t.reply);
    if !read.IsOk() {
      SteadyFail(y1, read, t.ended);
    } else if y1.s.kind.Soak? && y1.s.completed > 0 && observed != y1.s.expected {
      SteadyFail(y1, Mismatch(y1.s.expected, observed), t.ended);
    } else {
      SteadyAccept(y1, observed, ending, t);
    }
  }

  lemma SteadyTimed(y: Sys, t: TickIn)
    requires y.s.running && !y.s.restoring && (y.s.kind.Watch? || y.s.kind.Soak?)
    ensures Steady(y, TickTimed(y, t)) && (TickTimed(y, t).s.running ==> !TickTimed(y, t).s.restoring)
  {
    var ending := EndingSoak(y.s, t.current);
    if ending && y.s.completed == 0 {
      SteadyFinish(y.(s := y.s.(primary := Error(Timeout, SoakExpired))), t.ended);
    } else if !ending && AsSigned(Sub32(t.current, y.s.nextMs)) < 0 {
    } else {
      SteadySample(y, ending, t);
    }
  }

  lemma SteadyAccept(y: Sys, observed: Byte, ending: bool, t: TickIn)
    requires y.s.running && !y.s.restoring
    ensures Steady(y, AcceptSample(y, observed, ending, t))
    ensures AcceptSample(y, observed, ending, t).s.running ==> !AcceptSample(y, observed, ending, t).s.restoring
  {
    SteadyFinish(StoredSample(y, observed, t.current), t.ended);
  }

  lemma SteadyTopology(y: Sys, t: TickIn)
    requires y.s.running && y.s.kind.Scan?
    ensures Steady(y, ScanTopology(y, t))
  {
    var (y1, read, mask) := Read(y, 0, true, t.reply);
    SteadyAccess(y, 0, true, t.reply);
    if !read.IsOk() { SteadyFail(y1.(rows := y1.rows + [Topology(read, mask)]), read, t.ended); }
  }

  lemma SteadyVisit(y: Sys, st: Status)
    requires y.s.running
    ensures Steady(y, Visited(y, st)) && Visited(y, st).s.running
  {
  }

  lemma SteadyScan(y: Sys, t: TickIn)
    requires y.s.running && ScanRun(y.s.kind)
    ensures Steady(y, TickScan(y, t))
  {
    if y.s.kind.Scan? && y.s.phase == 0 {
      SteadyTopology(y, t);
    } else {
      SteadyVisit(y, t.probe);
      SteadyFinish(Visited(y, t.probe), t.ended);
    }
  }

  lemma SteadyCapture(y: Sys, t: TickIn)
    requires y.s.running
    ensures Steady(y, CaptureEntry(y, t))
  {
    var (y1, st, b) := Read(y, y.s.original, true, t.reply);
    SteadyAccess(y, y.s.original, true, t.reply);
    if !st.IsOk() { SteadyFail(y1, st, t.ended); }
  }

  lemma SteadyVerdict(y: Sys, st: Status, last: bool, ended: u32)
    requires y.s.running
    ensures Steady(y, JudgePrimitive(y, st, last, ended))
  {
    if !st.IsOk() { SteadyFail(y, st, ended); }
  }

  lemma SteadyMasks(y: Sys, t: TickIn)
    requires y.s.running && MaskRun(y.s.kind)
    ensures Steady(y, TickMasks(y, t))
  {
    if y.s.kind.Sweep? && !y.s.captured {
      SteadyCapture(y, t);
    } else {
      var (y1, st) := MaskPrimitive(y, t.reply);
      SteadyPrimitive(y, t.reply);
      SteadyVerdict(y1, st, EndsRound(y.s), t.ended);
    }
  }

  lemma SteadyPrimitive(y: Sys, r: Reply)
    ensures Steady(y, MaskPrimitive(y, r).0) && MaskPrimitive(y, r).0.s.running == y.s.running
  {
    match PrimitiveOf(y.s)
    case WriteOf(m) => SteadyAccess(y.(s := y.s.(expected := m)), m, false, r);
    case VerifyHeld => SteadyAccess(y, y.s.expected, true, r);
    case RawProbe => SteadyAccess(y, 0, false, r);
  }

  lemma SteadyJudge(y: Sys, read: Status, ended: u32)
    requires y.s.running
    ensures Steady(y, JudgeCleanup(y, read, ended))
  {
    var y1 := y.(s := y.s.(cleanup := if y.s.cleanup.IsOk() then read else y.s.cleanup),
                 rows := y.rows + if read.IsOk() then [] else [CleanupReadback(read)]);
    SteadyFinish(y1, ended);
  }

  lemma SteadyCleanup(y: Sys, t: TickIn)
    requires y.s.running && (y.s.phase == 0 ==> y.s.cleanup.IsOk())
    ensures Steady(y, TickCleanup(y, t))
  {
    var expected := if y.s.kind.Sweep? then y.s.original else 0;
    SteadyAccess(y, expected, true, t.reply);
    if y.s.phase != 0 {
      var (y1, read) := VerifyMask(y, expected, t.reply);
      SteadyJudge(y1, read, t.ended);
    }
  }

  // ---- the invariant over every run --------------------------------------------------

  lemma SteadyTick(y: Sys, t: TickIn)
    requires y.s.running && !y.s.kind.NoRun? && (y.s.restoring ==> MaskRun(y.s.kind))
    requires y.s.restoring && y.s.phase == 0 ==> y.s.cleanup.IsOk()
    ensures Steady(y, Tick(y, t))
    ensures !MaskRun(y.s.kind) && !ScanRun(y.s.kind) && Tick(y, t).s.running ==> !Tick(y, t).s.restoring
  {
    if y.s.restoring {
      SteadyCleanup(y, t);
    } else if ScanRun(y.s.kind) {
      SteadyScan(y, t);
    } else if MaskRun(y.s.kind) {
      SteadyMasks(y, t);
    } else {
      SteadyTimed(y, t);
    }
  }

  lemma CleanupStartsClean(y: Sys)
    requires Inv(y) && y.s.running && y.s.restoring && y.s.phase == 0
    ensures y.s.cleanup.IsOk()
  {
    assert StageInv(y.s, y.io);
  }

  lemma InvTick(y: Sys, t: TickIn)
    requires Inv(y)
    ensures Inv(Tick(y, t))
    ensures y.s.running && (MaskRun(y.s.kind) || ScanRun(y.s.kind)) ==>
      |Tick(y, t).io| == |y.io| + 1 && Tick(y, t).s.target == y.s.target
  {
    if y.s.running {
      if y.s.restoring && y.s.phase == 0 { CleanupStartsClean(y); }
      SteadyTick(y, t);
      if MaskRun(y.s.kind) {
        MaskTick(y, t);
      } else if ScanRun(y.s.kind) {
        ScanTick(y, t);
      }
    }
  }

  lemma InvLaunch(y: Sys, k: RunKind, count: u32, interval: u32, env: LineEnv)
    requires Inv(y) && !y.s.running && Acceptable(k, count, interval)
    ensures Inv(Start(y, k, count, interval, env)) && Start(y, k, count, interval, env).prompts == y.prompts
  {
    if CanStart(y, k, env) && ScanRun(k) {
      ScanStart(y, k, count, env);
    }
  }

  lemma InvStop(y: Sys, env: LineEnv)
    requires Inv(y) && y.s.running
    ensures var y' := StopSession(y, env);
            && Inv(y') && y'.prompts == y.prompts
            && y'.world == y.world && y'.io == y.io && y'.s.kind == y.s.kind && y'.s.target == y.s.target
            && (y'.s.running ==> MaskRun(y.s.kind) && y'.s.restoring)
  {
    if MaskRun(y.s.kind) {
      MaskStop(y, env);
    } else if ScanRun(y.s.kind) {
      ScanStop(y, env);
    }
  }

  lemma MaskIdle(y: Sys, y': Sys)
    requires MaskInv(y) && !y.s.running && y' == y.(world := y'.world, staged := y'.staged)
    ensures MaskInv(y')
  {
  }

  lemma ScanIdle(y: Sys, y': Sys)
    requires ScanInv(y) && !y.s.running && y' == y.(world := y'.world, staged := y'.staged)
    ensures ScanInv(y')
  {
  }

  /** While idle the invariant speaks of the last session only. */
  lemma InvIdle(y: Sys, y': Sys)
    requires Inv(y) && !y.s.running && y' == y.(world := y'.world, staged := y'.staged)
    ensures Inv(y')
  {
    MaskIdle(y, y');
    ScanIdle(y, y');
  }

  lemma InvForgotten(y: Sys)
    ensures Inv(y.(s := NO_SESSION))
  {
  }

  lemma StatRowsInterject(s: Session, now: u32)
    ensures forall r :: r in StatRows(s, now) ==> Interjected(r)
  {
  }

  lemma SaidInterjects(y: Sys, i: Input)
    ensures forall r :: r in Said(y, i) ==> Interjected(r)
  {
    if i.LineInput? { StatRowsInterject(y.s, i.env.shown); }
  }

  /** Lines met during a session print into its printout and change nothing else. */
  lemma InvMeet(y: Sys, printed: seq<Row>)
    requires Inv(y) && forall r :: r in printed ==> Interjected(r)
    ensures Inv(Meet(y, printed))
  {
    if y.s.running {
      var y' := Meet(y, printed);
      MaskSame(y, y');
      FoundNone(y.rows, printed);
      ScanSame(y, y');
      assert AllFit(y'.s, y'.met, y'.rows);
    }
  }

  lemma InvDispatch(y: Sys, c: Command, env: LineEnv)
    requires Inv(y)
    ensures Inv(Dispatch(y, c, env)) && Dispatch(y, c, env).prompts == y.prompts
  {
    if c.Stop? && y.s.running {
      InvStop(y, env);
    } else if y.s.running {
      SaidInterjects(y, LineInput(c, env));
      InvMeet(y, Interjection(y, c, env));
    } else if c.Launch? && !y.s.running && Acceptable(c.kind, c.count, c.intervalMs) {
      InvLaunch(y, c.kind, c.count, c.intervalMs, env);
    } else if c.StatsReset? && !y.s.running {
      InvForgotten(y);
    } else if !y.s.running {
      InvIdle(y, Dispatch(y, c, env));
    }
  }

  lemma MaskSame(y: Sys, y': Sys)
    requires MaskInv(y) && y'.s == y.s && y'.io == y.io && y'.world.dev == y.world.dev
    ensures MaskInv(y')
  {
  }

  lemma ScanSame(y: Sys, y': Sys)
    requires ScanInv(y) && y'.s == y.s && y'.io == y.io && FoundIn(y'.rows) == FoundIn(y.rows) && y'.world.dev == y.world.dev
    ensures ScanInv(y')
  {
  }

  /** The invariant speaks neither of prompts nor of the chip's byte. */
  lemma InvSame(y: Sys, y': Sys)
    requires Inv(y) && y'.s == y.s && y'.io == y.io && y'.rows == y.rows && y'.met == y.met && y'.world.dev == y.world.dev
    ensures Inv(y')
  {
    MaskSame(y, y');
    ScanSame(y, y');
  }

  /** A non-blank line or a discarded line. */
  predicate Asks(i: Input) {
    i.DiscardedLine? || (i.LineInput? && !i.c.Blank?)
  }

  lemma InvStep(y: Sys, i: Input)
    requires Inv(y)
    ensures Inv(Step(y, i))
    ensures Step(y, i).prompts + BoolToNat(Step(y, i).s.running) == y.prompts + BoolToNat(y.s.running) + BoolToNat(Asks(i) && !y.s.running)
  {
    match i
    case TickInput(t) =>
      InvTick(y, t);
      if y.s.running {
        if y.s.restoring && y.s.phase == 0 { CleanupStartsClean(y); }
        SteadyTick(y, t);
      }
    case LineInput(c, env) =>
      if !c.Blank? {
        InvDispatch(y, c, env);
        InvSame(Dispatch(y, c, env), Step(y, i));
        LineRunning(y, c, env);
      }
    case DiscardedLine =>
      InvMeet(y, [Complaint]);
      InvSame(Meet(y, [Complaint]), Step(y, i));
    case Drift(b) => InvSame(y, Step(y, i));
  }

  /** A session can start only while idle, and ends inside a line only by `stop`. */
  lemma LineRunning(y: Sys, c: Command, env: LineEnv)
    ensures !y.s.running && Dispatch(y, c, env).s.running ==> c.Launch?
    ensures y.s.running && !Dispatch(y, c, env).s.running ==> c.Stop?
  {
  }

  lemma {:induction false} InvHolds(w: World, staged: Byte, inputs: seq<Input>)
    ensures Inv(RunAll(Boot(w, staged), inputs))
    decreases |inputs|
  {
    if inputs != [] {
      InvHolds(w, staged, inputs[..|inputs| - 1]);
      InvStep(RunAll(Boot(w, staged), inputs[..|inputs| - 1]), inputs[|inputs| - 1]);
    }
  }

  /** The printout's foreign rows are exactly what the lines met during the session print. */
  lemma {:induction false} MetIsSaid(w: World, staged: Byte, inputs: seq<Input>)
    ensures RunAll(Boot(w, staged), inputs).met == MetRows(Boot(w, staged), inputs)
    decreases |inputs|
  {
    if inputs != [] {
      var (before, i) := (inputs[..|inputs| - 1], inputs[|inputs| - 1]);
      MetIsSaid(w, staged, before);
      InvHolds(w, staged, before);
      MetStep(RunAll(Boot(w, staged), before), i);
    }
  }

  lemma MetStep(y: Sys, i: Input)
    requires Inv(y)
    ensures Step(y, i).met == if y.s.running then y.met + Said(y, i) else if Step(y, i).s.running then [] else y.met
  {
    assert y.met + [] == y.met;
    if i.TickInput? && y.s.running {
      if y.s.restoring && y.s.phase == 0 { CleanupStartsClean(y); }
      SteadyTick(y, i.t);
    }
  }

  /** How many inputs asked for something while no session was running. */
  function IdleRequests(y: Sys, inputs: seq<Input>): nat
    decreases |inputs|
  {
    if inputs == [] then 0
    else
      var before := inputs[..|inputs| - 1];
      IdleRequests(y, before) + BoolToNat(Asks(inputs[|inputs| - 1]) && !RunAll(y, before).s.running)
  }

  function TickInputs(ts: seq<TickIn>): seq<Input> {
    if ts == [] then [] else TickInputs(ts[..|ts| - 1]) + [TickInput(ts[|ts| - 1])]
  }

  /** What the serial link takes for granted of an answer: a non-blank line met while idle owes one
      prompt, printed at once or when the session it started ends, whatever the ticks bring. */
  lemma {:induction false} OnePromptPerIdleLine(y: Sys, c: Command, env: LineEnv, ts: seq<TickIn>)
    requires Inv(y) && !y.s.running && !c.Blank?
    ensures var y' := RunAll(HandleLine(y, c, env), TickInputs(ts));
            Inv(y') && y'.prompts == y.prompts + BoolToNat(!y'.s.running)
    decreases |ts|
  {
    if ts == [] {
      InvStep(y, LineInput(c, env));
    } else {
      var (before, t) := (ts[..|ts| - 1], ts[|ts| - 1]);
      OnePromptPerIdleLine(y, c, env, before);
      assert TickInputs(ts)[..|TickInputs(ts)| - 1] == TickInputs(before);
      InvStep(RunAll(HandleLine(y, c, env), TickInputs(before)), TickInput(t));
    }
  }

  /** In every interleaving, each non-blank command or discarded line met while idle yields
      exactly one prompt: at once, or when the session it started ends, however it ends. */
  lemma {:induction false} PromptConservation(w: World, staged: Byte, inputs: seq<Input>)
    ensures var y := RunAll(Boot(w, staged), inputs);
            y.prompts == IdleRequests(Boot(w, staged), inputs) - BoolToNat(y.s.running)
    decreases |inputs|
  {
    if inputs != [] {
      var before := inputs[..|inputs| - 1];
      PromptConservation(w, staged, before);
      InvHolds(w, staged, before);
      InvStep(RunAll(Boot(w, staged), before), inputs[|inputs| - 1]);
    }
  }
}
