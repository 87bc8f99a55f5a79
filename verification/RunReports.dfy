/** What the closing report of a session says, read off the inputs and the bus record of any run. */
module RunReports {
  import opened Base
  import opened StatusCodes
  import opened DriverSpec
  import opened Engine
  import opened MaskRuns
  import opened ScanRuns
  import opened EngineRuns
  import opened SessionTheorems

  predicate IsStop(i: Input) {
    i.LineInput? && i.c.Stop?
  }

  predicate IsReset(i: Input) {
    i.LineInput? && i.c.StatsReset?
  }

  /** An `addr` line in range. */
  predicate IsAddress(i: Input) {
    i.LineInput? && i.c.SetAddress? && 112 <= i.c.address <= 119
  }

  /** A `stop` line met the latest session while it was active and not yet cleaning up. */
  predicate Stopped(y: Sys, inputs: seq<Input>)
    decreases |inputs|
  {
    if inputs == [] then false
    else
      var (before, i) := (inputs[..|inputs| - 1], inputs[|inputs| - 1]);
      var z := RunAll(y, before);
      if z.s.running then Stopped(y, before) || (IsStop(i) && !z.s.restoring)
      else if Step(z, i).s.running || IsReset(i) then false
      else Stopped(y, before)
  }

  /** The address staged by the last `addr` line that took effect: in range, while idle and unbound. */
  function StagedBy(y: Sys, inputs: seq<Input>): Byte
    decreases |inputs|
  {
    if inputs == [] then y.staged
    else
      var (before, i) := (inputs[..|inputs| - 1], inputs[|inputs| - 1]);
      var z := RunAll(y, before);
      if IsAddress(i) && !z.s.running && !z.world.dev.bound then i.c.address
      else StagedBy(y, before)
  }

  /** The address that was staged when the latest session started. */
  function TargetBy(y: Sys, inputs: seq<Input>): Byte
    decreases |inputs|
  {
    if inputs == [] then 0
    else
      var (before, i) := (inputs[..|inputs| - 1], inputs[|inputs| - 1]);
      var z := RunAll(y, before);
      if z.s.running then TargetBy(y, before)
      else if Step(z, i).s.running then StagedBy(y, before)
      else if IsReset(i) then 0
      else TargetBy(y, before)
  }

  /** The clock shown to the line that started the latest session. */
  function StartedAt(y: Sys, inputs: seq<Input>): u32
    decreases |inputs|
  {
    if inputs == [] then 0
    else
      var (before, i) := (inputs[..|inputs| - 1], inputs[|inputs| - 1]);
      var z := RunAll(y, before);
      if !z.s.running && Step(z, i).s.running && i.LineInput? then i.env.started
      else if !z.s.running && IsReset(i) then 0
      else StartedAt(y, before)
  }

  /** The clock shown to the input that ended the latest session. */
  function EndedAt(y: Sys, inputs: seq<Input>): u32
    decreases |inputs|
  {
    if inputs == [] then 0
    else
      var (before, i) := (inputs[..|inputs| - 1], inputs[|inputs| - 1]);
      var (z, z') := (RunAll(y, before), Step(RunAll(y, before), i));
      if z.s.running && !z'.s.running then (match i case TickInput(t) => t.ended case LineInput(_, env) => env.ended case _ => 0)
      else if !z.s.running && (z'.s.running || IsReset(i)) then 0
      else EndedAt(y, before)
  }

  predicate SameMarks(s: Session, s': Session) {
    s'.cancelled == s.cancelled && s'.targetAddress == s.targetAddress && s'.startedMs == s.startedMs
  }

  /** The end of a session is stamped with the clock of the moment, and nothing else is. */
  predicate Stamped(s: Session, s': Session, now: u32) {
    s'.endedMs == if s.running && !s'.running then now else s.endedMs
  }

  predicate SameAccess(s: Session, s': Session) {
    SameMarks(s, s') && s'.running == s.running && s'.endedMs == s.endedMs
  }

  lemma AccessMarks(y: Sys, b: Byte, tracked: bool, r: Reply)
    ensures SameAccess(y.s, Write(y, b, r).0.s) && SameAccess(y.s, Read(y, b, tracked, r).0.s)
    ensures SameAccess(y.s, VerifyMask(y, b, r).0.s)
  {
  }

  lemma FailMarks(y: Sys, st: Status, ended: u32, inCommand: bool)
    ensures SameMarks(y.s, Fail(y, st, ended, inCommand).s)
    ensures y.s.running ==> Stamped(y.s, Fail(y, st, ended, inCommand).s, ended)
  {
  }

  lemma CleanupMarks(y: Sys, t: TickIn)
    requires y.s.running
    ensures SameMarks(y.s, TickCleanup(y, t).s) && Stamped(y.s, TickCleanup(y, t).s, t.ended)
  {
    AccessMarks(y, if y.s.kind.Sweep? then y.s.original else 0, true, t.reply);
  }

  lemma ScanMarks(y: Sys, t: TickIn)
    requires y.s.running
    ensures SameMarks(y.s, TickScan(y, t).s) && Stamped(y.s, TickScan(y, t).s, t.ended)
  {
    if y.s.kind.Scan? && y.s.phase == 0 {
      var (y1, read, mask) := Read(y, 0, true, t.reply);
      AccessMarks(y, 0, true, t.reply);
      FailMarks(y1.(rows := y1.rows + [Topology(read, mask)]), read, t.ended, false);
    }
  }

  lemma PrimitiveMarks(y: Sys, r: Reply)
    ensures SameAccess(y.s, MaskPrimitive(y, r).0.s)
  {
    match PrimitiveOf(y.s)
    case WriteOf(m) => AccessMarks(y.(s := y.s.(expected := m)), m, false, r);
    case VerifyHeld => AccessMarks(y, y.s.expected, true, r);
    case RawProbe => AccessMarks(y, 0, false, r);
  }

  lemma JudgeMarks(y: Sys, st: Status, last: bool, ended: u32)
    requires y.s.running
    ensures SameMarks(y.s, JudgePrimitive(y, st, last, ended).s) && Stamped(y.s, JudgePrimitive(y, st, last, ended).s, ended)
  {
    if !st.IsOk() { FailMarks(y, st, ended, false); }
  }

  lemma MasksMarks(y: Sys, t: TickIn)
    requires y.s.running
    ensures SameMarks(y.s, TickMasks(y, t).s) && Stamped(y.s, TickMasks(y, t).s, t.ended)
  {
    if y.s.kind.Sweep? && !y.s.captured {
      var (y1, st, b) := Read(y, y.s.original, true, t.reply);
      AccessMarks(y, y.s.original, true, t.reply);
      FailMarks(y1, st, t.ended, false);
    } else {
      var (y1, st) := MaskPrimitive(y, t.reply);
      PrimitiveMarks(y, t.reply);
      JudgeMarks(y1, st, EndsRound(y.s), t.ended);
    }
  }

  lemma AcceptMarks(y: Sys, observed: Byte, ending: bool, t: TickIn)
    requires y.s.running
    ensures SameMarks(y.s, AcceptSample(y, observed, ending, t).s) && Stamped(y.s, AcceptSample(y, observed, ending, t).s, t.ended)
  {
  }

  lemma SampleMarks(y: Sys, ending: bool, t: TickIn)
    requires y.s.running
    ensures SameMarks(y.s, TakeSample(y, ending, t).s) && Stamped(y.s, TakeSample(y, ending, t).s, t.ended)
  {
    var (y1, read, observed) := Read(y, 0, true, t.reply);
    AccessMarks(y, 0, true, t.reply);
    if !read.IsOk() {
      FailMarks(y1, read, t.ended, false);
    } else if y1.s.kind.Soak? && y1.s.completed > 0 && observed != y1.s.expected {
      FailMarks(y1, Mismatch(y1.s.expected, observed), t.ended, false);
    } else {
      AcceptMarks(y1, observed, ending, t);
    }
  }

  lemma TimedMarks(y: Sys, t: TickIn)
    requires y.s.running
    ensures SameMarks(y.s, TickTimed(y, t).s) && Stamped(y.s, TickTimed(y, t).s, t.ended)
  {
    SampleMarks(y, EndingSoak(y.s, t.current), t);
  }

  /** No tick cancels a session, moves its target or its start, or stages an address. */
  lemma TickKeepsMarks(y: Sys, t: TickIn)
    requires Inv(y)
    ensures SameMarks(y.s, Tick(y, t).s) && Stamped(y.s, Tick(y, t).s, t.ended)
    ensures Tick(y, t).staged == y.staged && (!y.s.running ==> !Tick(y, t).s.running)
  {
    if y.s.running {
      if y.s.restoring && y.s.phase == 0 { CleanupStartsClean(y); }
      SteadyTick(y, t);
      if y.s.restoring {
        CleanupMarks(y, t);
      } else if ScanRun(y.s.kind) {
        ScanMarks(y, t);
      } else if MaskRun(y.s.kind) {
        MasksMarks(y, t);
      } else {
        TimedMarks(y, t);
      }
    }
  }

  lemma DispatchMarks(y: Sys, c: Command, env: LineEnv)
    ensures var (y', i) := (Dispatch(y, c, env), LineInput(c, env));
            && y'.s.cancelled ==
               (if y.s.running then y.s.cancelled || (c.Stop? && !y.s.restoring)
                else if y'.s.running || c.StatsReset? then false
                else y.s.cancelled)
            && y'.s.targetAddress ==
               (if y.s.running then y.s.targetAddress
                else if y'.s.running then y.staged
                else if c.StatsReset? then 0
                else y.s.targetAddress)
            && y'.staged == (if IsAddress(i) && !y.s.running && !y.world.dev.bound then c.address else y.staged)
            && y'.s.startedMs ==
               (if y.s.running then y.s.startedMs
                else if y'.s.running then env.started
                else if c.StatsReset? then 0
                else y.s.startedMs)
            && y'.s.endedMs ==
               (if y.s.running && !y'.s.running then env.ended
                else if !y.s.running && (y'.s.running || c.StatsReset?) then 0
                else y.s.endedMs)
  {
    if c.Stop? && y.s.running && !y.s.restoring {
      FailMarks(y.(s := y.s.(cancelled := true)), CANCELLED_STATUS, env.ended, true);
    }
  }

  lemma StepClocks(y: Sys, i: Input)
    requires Inv(y)
    ensures var y' := Step(y, i);
            && y'.s.startedMs ==
               (if !y.s.running && y'.s.running && i.LineInput? then i.env.started
                else if !y.s.running && IsReset(i) then 0
                else y.s.startedMs)
            && y'.s.endedMs ==
               (if y.s.running && !y'.s.running then (match i case TickInput(t) => t.ended case LineInput(_, env) => env.ended case _ => 0)
                else if !y.s.running && (y'.s.running || IsReset(i)) then 0
                else y.s.endedMs)
  {
    match i
    case TickInput(t) => TickKeepsMarks(y, t);
    case LineInput(c, env) => if !c.Blank? { DispatchMarks(y, c, env); }
    case _ =>
  }

  lemma StepMarks(y: Sys, i: Input)
    requires Inv(y)
    ensures var y' := Step(y, i);
            && y'.s.cancelled ==
               (if y.s.running then y.s.cancelled || (IsStop(i) && !y.s.restoring)
                else if y'.s.running || IsReset(i) then false
                else y.s.cancelled)
            && y'.s.targetAddress ==
               (if y.s.running then y.s.targetAddress
                else if y'.s.running then y.staged
                else if IsReset(i) then 0
                else y.s.targetAddress)
            && y'.staged == if IsAddress(i) && !y.s.running && !y.world.dev.bound then i.c.address else y.staged
  {
    match i
    case TickInput(t) => TickKeepsMarks(y, t);
    case LineInput(c, env) => if !c.Blank? { DispatchMarks(y, c, env); }
    case _ =>
  }

  /** Over every run: a session is marked cancelled exactly if a `stop` met it while it worked, and
      its target is the address staged when it started. */
  lemma {:induction false} MarksFollowTheInputs(w: World, staged: Byte, inputs: seq<Input>)
    ensures var (y0, y) := (Boot(w, staged), RunAll(Boot(w, staged), inputs));
            && y.s.cancelled == Stopped(y0, inputs)
            && y.staged == StagedBy(y0, inputs) && y.s.targetAddress == TargetBy(y0, inputs)
    decreases |inputs|
  {
    if inputs != [] {
      var before := inputs[..|inputs| - 1];
      MarksFollowTheInputs(w, staged, before);
      InvHolds(w, staged, before);
      StepMarks(RunAll(Boot(w, staged), before), inputs[|inputs| - 1]);
    }
  }

  /** Over every run, a session carries the clock readings of its own start and end. */
  lemma {:induction false} ClocksFollowTheInputs(w: World, staged: Byte, inputs: seq<Input>)
    ensures var (y0, y) := (Boot(w, staged), RunAll(Boot(w, staged), inputs));
            y.s.startedMs == StartedAt(y0, inputs) && y.s.endedMs == EndedAt(y0, inputs)
    decreases |inputs|
  {
    if inputs != [] {
      var before := inputs[..|inputs| - 1];
      ClocksFollowTheInputs(w, staged, before);
      InvHolds(w, staged, before);
      StepClocks(RunAll(Boot(w, staged), before), inputs[|inputs| - 1]);
    }
  }

  /** A session that took less than 2^32 ms of true time, from `a` to `b`, reports `b - a`. */
  predicate ReportsDuration(rows: seq<Row>, s: Session, ms: nat) {
    && ms < U32_RANGE
    && RunLine(s.kind, false, s.completed, s.target, s.cancelled, ms) in rows
    && (s.kind.Stress? || s.kind.Mix? ==> Duration(ms) in rows)
  }

  lemma DurationShown(s: Session, a: nat, b: nat)
    requires s.available && !s.running && s.startedMs == a % U32_RANGE && s.endedMs == b % U32_RANGE
    requires a <= b < a + U32_RANGE
    ensures ReportsDuration(FinalRows(s), s, b - a)
  {
    assert Sub32(b % U32_RANGE, a % U32_RANGE) == b - a;
    assert RunRows(s, 0)[0] == RunLine(s.kind, false, s.completed, s.target, s.cancelled, b - a);
    assert RunRows(s, 0)[0] in StatRows(s, 0);
    if s.kind.Stress? || s.kind.Mix? {
      var i := if s.kind.Mix? then 2 else 1;
      assert SummaryRows(s)[i] == Duration(b - a);
      assert Duration(b - a) in SummaryRows(s);
    }
  }

  /** The wrap of the 32-bit clock never shows in a reported duration. */
  lemma DurationIsElapsed(w: World, staged: Byte, inputs: seq<Input>, a: nat, b: nat)
    requires a <= b < a + U32_RANGE
    requires StartedAt(Boot(w, staged), inputs) == a % U32_RANGE && EndedAt(Boot(w, staged), inputs) == b % U32_RANGE
    ensures var y := RunAll(Boot(w, staged), inputs);
            y.s.available && !y.s.running ==> ReportsDuration(y.rows, y.s, b - a)
  {
    ClocksFollowTheInputs(w, staged, inputs);
    InvHolds(w, staged, inputs);
    var y := RunAll(Boot(w, staged), inputs);
    if y.s.available && !y.s.running {
      DurationShown(y.s, a, b);
      var n := |y.rows| - |FinalRows(y.s)|;
      assert forall r :: r in FinalRows(y.s) ==> r in y.rows[n..];
    }
  }

  /** The printout of an ended session closes with its verdict: cancelled exactly if a `stop` met it
      while it worked, and passed exactly if not and neither its work nor its cleanup failed. */
  lemma VerdictRowMeans(w: World, staged: Byte, inputs: seq<Input>)
    ensures var y := RunAll(Boot(w, staged), inputs);
            y.s.available && !y.s.running ==>
              && y.rows != []
              && var last := y.rows[|y.rows| - 1];
                 && last.CliResult? && last.kind == y.s.kind && last.completed == y.s.completed && last.requested == y.s.target
                 && (last.outcome.Cancelled? <==> Stopped(Boot(w, staged), inputs))
                 && (last.outcome.Passed? <==>
                       !Stopped(Boot(w, staged), inputs) && y.s.primary.IsOk() && y.s.cleanup.IsOk())
  {
    MarksFollowTheInputs(w, staged, inputs);
    InvHolds(w, staged, inputs);
    var y := RunAll(Boot(w, staged), inputs);
    if y.s.available && !y.s.running {
      var n := |y.rows| - |FinalRows(y.s)|;
      assert y.rows[n..][|FinalRows(y.s)| - 1] == y.rows[|y.rows| - 1];
    }
  }

  // ---- the cleanup state ---------------------------------------------------------------------

  /** The entry mask of a sweep was read. */
  predicate EntryTaken(io: seq<Event>) {
    io != [] && io[0].ReadBack? && io[0].status.IsOk()
  }

  /** The last two bus steps wrote `mask` and read it back. */
  predicate Restored(io: seq<Event>, mask: Byte) {
    && |io| >= 2
    && var (a, b) := (io[|io| - 2], io[|io| - 1]);
       && a.Wrote? && a.status.IsOk() && a.mask == mask
       && b.ReadBack? && b.status.IsOk() && b.byte == mask
  }

  /** The state of the cleanup, from what the session did on the bus. */
  function CleanupOnBus(k: RunKind, running: bool, io: seq<Event>): CleanupState {
    if !MaskRun(k) || (k.Sweep? && !EntryTaken(io)) then CleanupNotNeeded
    else if running then CleanupPending
    else if Restored(io, if k.Sweep? && io[0].ReadBack? then io[0].byte else 0) then CleanupVerified
    else CleanupFailed
  }

  lemma EntryKnown(s: Session, io: seq<Event>)
    requires StageInv(s, io) && s.kind.Sweep?
    ensures s.captured <==> EntryTaken(io)
    ensures s.captured ==> io[0].ReadBack? && io[0].byte == s.original
  {
    if Cleaning(s, io) && s.phase == 1 {
      assert io[..|io| - 1][0] == io[0];
    } else if Cleaned(s, io) && !s.running {
      assert io[..|io| - 2][0] == io[0];
    }
  }

  /** The cleanup state a report shows is the one the bus record establishes: not needed without a
      mask to restore, pending while active, and verified exactly if the last two bus steps restored
      the mask. */
  lemma CleanupRowMeans(w: World, staged: Byte, inputs: seq<Input>)
    ensures var y := RunAll(Boot(w, staged), inputs);
            y.s.available ==> CleanupStateOf(y.s) == CleanupOnBus(y.s.kind, y.s.running, y.io)
  {
    InvHolds(w, staged, inputs);
    var y := RunAll(Boot(w, staged), inputs);
    if MaskRun(y.s.kind) {
      if y.s.kind.Sweep? { EntryKnown(y.s, y.io); }
      assert !y.s.running && NeedsCleanup(y.s) ==> Cleaned(y.s, y.io);
    }
  }

  // ---- the detection row ---------------------------------------------------------------------

  lemma {:induction false} CountsPartition(p: seq<Event>, first: nat)
    requires InOrder(p, first)
    ensures Count(p, Ack) + Count(p, Absent) + Count(p, BusError) == |p|
    decreases |p|
  {
    if p != [] {
      var n := |p| - 1;
      assert p[n].AddressProbed?;
      assert forall j :: 0 <= j < n ==> p[..n][j] == p[j];
      CountsPartition(p[..n], first);
    }
  }

  /** The row counts the answers by kind, and gives its verdict on `target` from the answer there. */
  ghost predicate Tells(r: Row, target: Byte, first: nat, p: seq<Event>) {
    && r.Detection? && r.tested == |p| && r.target == target
    && r.ack == Count(p, Ack) && r.absent == Count(p, Absent) && r.errors == Count(p, BusError)
    && r.verdict ==
       if 112 <= target <= 119 && first <= target < first + |p| then
         match AnswerOf(Got(p, target - first)) case Ack => AckYes case Absent => AckNo case BusError => AckError
       else NotTested
  }

  lemma DetectionTells(y: Sys)
    requires ScanRun(y.s.kind) && ScanInv(y)
    ensures Tells(DetectionRow(y.s), y.s.targetAddress, FirstAddress(y.s.kind), Probes(y))
  {
    EvidenceIsConsistent(y);
    CountsPartition(Probes(y), FirstAddress(y.s.kind));
  }

  /** Over every run, the detection row of a scan or discovery counts what the bus answered so far
      and judges the address that was staged when the session started. */
  lemma DetectionRowMeans(w: World, staged: Byte, inputs: seq<Input>)
    ensures var y := RunAll(Boot(w, staged), inputs);
            ScanRun(y.s.kind) ==>
              && Tells(DetectionRow(y.s), TargetBy(Boot(w, staged), inputs), FirstAddress(y.s.kind), Probes(y))
              && DetectionRow(y.s) in StatRows(y.s, 0)
  {
    MarksFollowTheInputs(w, staged, inputs);
    InvHolds(w, staged, inputs);
    var y := RunAll(Boot(w, staged), inputs);
    if ScanRun(y.s.kind) {
      DetectionTells(y);
      DetectionIsShown(y.s);
    }
  }

  lemma DetectionIsShown(s: Session)
    requires s.available && ScanRun(s.kind)
    ensures DetectionRow(s) in StatRows(s, 0)
  {
    assert EvidenceRows(s)[0] == DetectionRow(s);
    assert DetectionRow(s) in EvidenceRows(s);
  }

  // ---- launching -----------------------------------------------------------------------------

  /** The requests the dispatcher passes on, in numbers. */
  predicate InRange(k: RunKind, count: u32, interval: u32) {
    || (k.Scan? && count == 112 && interval == 0)
    || (k.Discover? && count == 8 && interval == 0)
    || (k.Sweep? && count == 256 && interval == 0)
    || ((k.Stress? || k.Mix?) && 1 <= count <= 1000 && interval == 0)
    || (k.Watch? && 1 <= count <= 1000 && 1 <= interval <= 60000)
    || (k.Soak? && 1 <= count <= 86400 && interval == 1000)
  }

  /** A launch while idle starts a fresh session exactly if the request is in range, there is a
      clock, the bus is ready and not faulted, the driver is bound (a discovery needs no driver) and
      there is a probe where addresses are probed. A refused one leaves everything but its prompt. */
  lemma LaunchStartsExactly(y: Sys, k: RunKind, count: u32, interval: u32, env: LineEnv)
    requires !y.s.running
    ensures var y' := HandleLine(y, Launch(k, count, interval), env); var s := y'.s;
            && (s.running <==>
                  && InRange(k, count, interval) && env.hasClock && env.busReady && !env.receiveFaulted
                  && (y.world.dev.bound || k.Discover?) && (k.Scan? || k.Discover? ==> env.hasProbe))
            && (!s.running ==> y' == y.(prompts := y.prompts + 1))
            && (s.running ==>
                  && y' == y.(s := s, io := [], rows := [Started(k, count)], met := [])
                  && s.kind == k && s.target == count && s.intervalMs == interval && s.completed == 0 && s.available
                  && s.startedMs == env.started && s.nextMs == env.started && s.targetAddress == y.staged
                  && s.durationMs == (if k.Soak? then 1000 * count else 0)
                  && s.primary.IsOk() && s.cleanup.IsOk() && !s.cancelled && !s.restoring)
  {
  }
}
