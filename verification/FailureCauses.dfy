/** Why a session failed: the first trouble it met is the one it reports, with the bus step that
    caused it, and the cleanup reports its own. */
module FailureCauses {
  import opened Base
  import opened StatusCodes
  import opened DriverSpec
  import opened DriverProofs
  import opened Engine
  import opened MaskRuns
  import opened ScanRuns
  import opened EngineRuns
  import opened SessionTheorems
  import opened RunReports

  /** A byte read back other than the one expected: both are packed into the detail. */
  function WrongByte(expected: Byte, observed: Byte): Status {
    Status(I2cError, 256 * expected + observed, ReadbackMismatch)
  }

  /** The read of this session is compared with the byte it expects. */
  predicate Compared(s: Session) {
    if MaskRun(s.kind) then s.kind.Sweep? ==> s.captured else s.kind.Soak? && s.completed > 0
  }

  /** What is wrong with a bus step of the work, or OK: a probe may be refused by its address, any
      other step must succeed, and a compared read must show the expected byte. */
  function Blame(s: Session, e: Event): Status {
    if !e.Wrote? && !e.ReadBack? && !e.AddressProbed? then OK
    else if e.status.IsOk() then
      if e.ReadBack? && e.tracked && Compared(s) && e.byte != s.expected then WrongByte(s.expected, e.byte) else OK
    else if e.AddressProbed? && e.status.code.I2cNackAddr? then OK
    else e.status
  }

  /** What is wrong with one input to a working session, or OK: a `stop`, a bus step gone wrong, or a
      soak that ends without a sample. */
  function Trouble(y: Sys, i: Input): Status {
    if IsStop(i) then Status(Busy, 0, SessionCancelled)
    else if !i.TickInput? then OK
    else
      var y' := Tick(y, i.t);
      if |y'.io| > |y.io| then Blame(y.s, y'.io[|y.io|])
      else if !y'.s.running then Status(Timeout, 0, SoakExpired)
      else OK
  }

  /** The first trouble of the latest session. */
  function FirstTrouble(y: Sys, inputs: seq<Input>): Status
    decreases |inputs|
  {
    if inputs == [] then OK
    else
      var (before, i) := (inputs[..|inputs| - 1], inputs[|inputs| - 1]);
      var z := RunAll(y, before);
      var first := FirstTrouble(y, before);
      if z.s.running then (if z.s.restoring || !first.IsOk() then first else Trouble(z, i))
      else if Step(z, i).s.running || IsReset(i) then OK
      else first
  }

  /** Work done so far without trouble. */
  predicate Untroubled(y: Sys) {
    y.s.running && !y.s.restoring ==> y.s.primary == OK
  }

  /** One tick of the work that blames `e`. */
  predicate Blames(y: Sys, y': Sys, e: Event) {
    y'.io == y.io + [e] && y'.s.primary == Blame(y.s, e) && Untroubled(y')
  }

  lemma FailBlames(y: Sys, y1: Sys, st: Status, e: Event, ended: u32)
    requires y1.s.primary == OK && !st.IsOk() && st == Blame(y.s, e) && y1.io == y.io + [e]
    ensures Blames(y, Fail(y1, st, ended, false), e)
  {
  }

  lemma TopologyBlames(y: Sys, t: TickIn)
    requires y.s.running && y.s.kind.Scan? && y.world.dev.bound && y.s.primary == OK
    ensures Blames(y, ScanTopology(y, t), ReadBack(y.world.hw, MapTransportStatus(t.reply.transport), true))
  {
    var e := ReadBack(y.world.hw, MapTransportStatus(t.reply.transport), true);
    var (y1, read, mask) := Read(y, 0, true, t.reply);
    ReadGrows(y, 0, true, t.reply);
    assert y1.io == y.io + [e];
    if !read.IsOk() {
      FailBlames(y, y1.(rows := y1.rows + [Topology(read, mask)]), read, e, t.ended);
    }
  }

  lemma ProbeBlames(y: Sys, t: TickIn)
    requires y.s.running && ScanRun(y.s.kind) && y.s.primary == OK
    ensures Blames(y, ScanAddress(y, t), AddressProbed(y.s.address, t.probe))
  {
  }

  lemma CaptureBlames(y: Sys, t: TickIn)
    requires y.s.running && y.s.kind.Sweep? && !y.s.captured && y.world.dev.bound && y.s.primary == OK
    ensures Blames(y, CaptureEntry(y, t), ReadBack(y.world.hw, MapTransportStatus(t.reply.transport), true))
  {
    var e := ReadBack(y.world.hw, MapTransportStatus(t.reply.transport), true);
    var (y1, st, b) := Read(y, y.s.original, true, t.reply);
    ReadGrows(y, y.s.original, true, t.reply);
    assert y1.io == y.io + [e];
    if !st.IsOk() {
      FailBlames(y, y1, st, e, t.ended);
    }
  }

  /** The status of a mask primitive is what its bus step is blamed for. */
  lemma PrimitiveBlames(y: Sys, r: Reply) returns (e: Event)
    requires y.s.running && MaskRun(y.s.kind) && (y.s.kind.Sweep? ==> y.s.captured) && y.world.dev.bound
    ensures var (y1, st) := MaskPrimitive(y, r);
            y1.io == y.io + [e] && st == Blame(y.s, e) && y1.s.primary == y.s.primary
  {
    var st := MapTransportStatus(r.transport);
    match PrimitiveOf(y.s)
    case WriteOf(m) => e := Wrote(m, st);
    case VerifyHeld => e := ReadBack(y.world.hw, st, true);
    case RawProbe => e := ReadBack(y.world.hw, st, false);
  }

  lemma PrimitiveJudged(y: Sys, y1: Sys, st: Status, e: Event, last: bool, ended: u32)
    requires y1.s.primary == OK && y1.io == y.io + [e] && st == Blame(y.s, e)
    ensures Blames(y, JudgePrimitive(y1, st, last, ended), e)
  {
    if !st.IsOk() { FailBlames(y, y1, st, e, ended); }
  }

  lemma SampleBlames(y: Sys, ending: bool, t: TickIn)
    requires y.s.running && (y.s.kind.Watch? || y.s.kind.Soak?) && y.world.dev.bound && y.s.primary == OK
    ensures Blames(y, TakeSample(y, ending, t), ReadBack(y.world.hw, MapTransportStatus(t.reply.transport), true))
  {
    var e := ReadBack(y.world.hw, MapTransportStatus(t.reply.transport), true);
    var (y1, read, observed) := Read(y, 0, true, t.reply);
    ReadGrows(y, 0, true, t.reply);
    assert y1.io == y.io + [e];
    if !read.IsOk() {
      FailBlames(y, y1, read, e, t.ended);
    } else if y1.s.kind.Soak? && y1.s.completed > 0 && observed != y1.s.expected {
      FailBlames(y, y1, Mismatch(y1.s.expected, observed), e, t.ended);
    }
  }

  lemma WorkBlames(y: Sys, t: TickIn)
    requires Inv(y) && y.s.running && !y.s.restoring && y.s.primary == OK
    ensures Tick(y, t).s.primary == Trouble(y, TickInput(t)) && Untroubled(Tick(y, t))
  {
    if y.s.kind.Scan? && y.s.phase == 0 {
      TopologyBlames(y, t);
    } else if ScanRun(y.s.kind) {
      ProbeBlames(y, t);
    } else if y.s.kind.Sweep? && !y.s.captured {
      CaptureBlames(y, t);
    } else if MaskRun(y.s.kind) {
      var e := PrimitiveBlames(y, t.reply);
      var (y1, st) := MaskPrimitive(y, t.reply);
      PrimitiveJudged(y, y1, st, e, EndsRound(y.s), t.ended);
    } else {
      SampleBlames(y, EndingSoak(y.s, t.current), t);
    }
  }

  lemma CleanupKeepsCause(y: Sys, t: TickIn)
    requires Inv(y) && y.s.running && y.s.restoring
    ensures Tick(y, t).s.primary == y.s.primary && (Tick(y, t).s.running ==> Tick(y, t).s.restoring)
  {
    CleanupTicks(y, t);
  }

  lemma LineCause(y: Sys, c: Command, env: LineEnv)
    requires Untroubled(y)
    ensures var y' := Dispatch(y, c, env);
            && Untroubled(y')
            && y'.s.primary == if y.s.running then (if c.Stop? && !y.s.restoring then Status(Busy, 0, SessionCancelled) else y.s.primary)
                               else if y'.s.running || c.StatsReset? then OK
                               else y.s.primary
  {
  }

  lemma StepCause(y: Sys, i: Input)
    requires Inv(y) && Untroubled(y)
    ensures var y' := Step(y, i);
            && Untroubled(y')
            && y'.s.primary == if y.s.running then (if y.s.restoring then y.s.primary else Trouble(y, i))
                               else if y'.s.running || IsReset(i) then OK
                               else y.s.primary
  {
    match i
    case TickInput(t) =>
      if y.s.running {
        if y.s.restoring { CleanupKeepsCause(y, t); } else { WorkBlames(y, t); }
      }
    case LineInput(c, env) => if !c.Blank? { LineCause(y, c, env); }
    case _ =>
  }

  /** Over every run, the primary result of a session is the first trouble it met, and OK if none. */
  lemma {:induction false} FirstTroubleIsReported(w: World, staged: Byte, inputs: seq<Input>)
    ensures var y := RunAll(Boot(w, staged), inputs);
            y.s.primary == FirstTrouble(Boot(w, staged), inputs) && Untroubled(y)
    decreases |inputs|
  {
    if inputs != [] {
      var before := inputs[..|inputs| - 1];
      FirstTroubleIsReported(w, staged, before);
      InvHolds(w, staged, before);
      StepCause(RunAll(Boot(w, staged), before), inputs[|inputs| - 1]);
    }
  }

  // ---- the cleanup ---------------------------------------------------------------------------

  /** What is wrong with a cleanup that wrote `mask` in step `a` and read it back in step `b`: the
      first of a failed write, a failed read and a wrong byte. */
  function RestoreTrouble(a: Event, b: Event, mask: Byte): Status {
    if a.Wrote? && !a.status.IsOk() then a.status
    else if b.ReadBack? && !b.status.IsOk() then b.status
    else if b.ReadBack? && b.byte != mask then WrongByte(mask, b.byte)
    else OK
  }

  /** The cleanup result of an ended session is the trouble of its last two bus steps. */
  predicate CleanupReported(y: Sys) {
    var n := |y.io|;
    && n >= 2
    && var trouble := RestoreTrouble(y.io[n - 2], y.io[n - 1], SafeMask(y.s));
       if trouble.IsOk() then y.s.cleanup.IsOk() else y.s.cleanup == trouble
  }

  /** The second cleanup tick reads the mask back, judges it and ends the session. */
  lemma CleanupReads(y: Sys, t: TickIn)
    requires y.s.running && y.s.restoring && y.s.phase == 1 && y.world.dev.bound
    ensures var (y', e, mask) := (TickCleanup(y, t), ReadBack(y.world.hw, MapTransportStatus(t.reply.transport), true), SafeMask(y.s));
            && y'.io == y.io + [e] && SafeMask(y'.s) == mask
            && y'.s.cleanup == if !y.s.cleanup.IsOk() then y.s.cleanup
                               else if !e.status.IsOk() then e.status
                               else if e.byte != mask then WrongByte(mask, e.byte)
                               else OK
  {
    VerifyGrows(y, SafeMask(y.s), t.reply);
  }

  lemma CleanupJudged(y: Sys, t: TickIn)
    requires Inv(y) && MaskRun(y.s.kind) && y.s.running && y.s.restoring && y.s.phase == 1
    ensures CleanupReported(Tick(y, t))
  {
    assert Cleaning(y.s, y.io);
    CleanupReads(y, t);
    var n := |y.io|;
    assert Tick(y, t).io[n - 1] == Wrote(SafeMask(y.s), y.s.cleanup) && Tick(y, t).io[n].ReadBack?;
  }

  lemma EndingTick(y: Sys, t: TickIn)
    requires Inv(y) && MaskRun(y.s.kind) && y.s.running && !Tick(y, t).s.running && NeedsCleanup(Tick(y, t).s)
    ensures CleanupReported(Tick(y, t))
  {
    assert StageInv(y.s, y.io);
    if y.s.restoring {
      CleanupTicks(y, t);
      CleanupJudged(y, t);
    } else if Working(y.s, y.io) {
      WorkingGoesOn(y, t);
    } else {
      CaptureEndsUncaptured(y, t);
    }
  }

  /** In every run, the tick that ends a mask run with something to restore reports as its cleanup
      result the first thing that went wrong in its last two bus steps, and OK if nothing did. */
  lemma CleanupResultMeans(w: World, staged: Byte, inputs: seq<Input>, t: TickIn)
    ensures var y := RunAll(Boot(w, staged), inputs); var y' := Tick(y, t);
            MaskRun(y.s.kind) && y.s.running && !y'.s.running && NeedsCleanup(y'.s) ==> CleanupReported(y')
  {
    InvHolds(w, staged, inputs);
    var y := RunAll(Boot(w, staged), inputs);
    if MaskRun(y.s.kind) && y.s.running && !Tick(y, t).s.running && NeedsCleanup(Tick(y, t).s) {
      EndingTick(y, t);
    }
  }
}
