/** The command-line engine object. Its session record and output are updated in place; every
    method is proved to do what the functions of `Engine` say. */
module Cli {
  import opened Base
  import opened StatusCodes
  import opened DriverSpec
  import opened Driver
  import opened Engine

  class Console {
    const device: Tca9548a
    var stagedAddress: Byte
    var session: Session
    var inCommand: bool
    var rows: seq<Row>
    var prompts: nat
    ghost var io: seq<Event>
    ghost var met: seq<Row>

    ghost function View(): Sys
      reads this, device, device.bus
    {
      Sys(session, device.State(), stagedAddress, io, rows, met, prompts)
    }

    constructor (device: Tca9548a, address: Byte)
      ensures View() == Boot(device.State(), address) && this.device == device && !inCommand
    {
      this.device := device;
      stagedAddress, session, inCommand := address, NO_SESSION, false;
      rows, prompts, io, met := [], 0, [], [];
    }

    // ---- session bus access ------------------------------------------------------

    method RecordTransfer(value: Status) returns (st: Status)
      modifies this`session
      ensures session == Record(old(session), value) && st == value
    {
      st := value;
      if session.running {
        if value.IsOk() {
          session := session.(transferSuccesses := Inc(session.transferSuccesses));
        } else {
          session := session.(transferFailures := Inc(session.transferFailures));
        }
      }
    }

    method WriteAndRecord(mask: Byte, r: Reply) returns (st: Status)
      modifies this`session, this`io, device, device.bus
      ensures (View(), st) == Write(old(View()), mask, r)
    {
      st := device.WriteChannelMask(mask, r);
      if device.bound {
        io := io + [Wrote(mask, st)];
      } else {
        assert io + [] == io;
      }
      st := RecordTransfer(st);
    }

    method SelectAndRecord(channel: Byte, r: Reply) returns (st: Status)
      requires channel < 8
      modifies this`session, this`io, device, device.bus
      ensures (View(), st) == Write(old(View()), One(channel), r)
    {
      st := device.SelectChannel(channel, r);
      if device.bound {
        io := io + [Wrote(One(channel), st)];
      } else {
        assert io + [] == io;
      }
      st := RecordTransfer(st);
    }

    method ReadAndRecord(out: Byte, r: Reply) returns (st: Status, mask: Byte)
      modifies this`session, this`io, device, device.bus
      ensures (View(), st, mask) == Read(old(View()), out, true, r)
    {
      st, mask := device.ReadChannelMask(out, r);
      if device.bound {
        io := io + [ReadBack(device.bus.byte, st, true)];
      } else {
        assert io + [] == io;
      }
      st := RecordTransfer(st);
    }

    method ProbeAndRecord(r: Reply) returns (st: Status)
      modifies this`session, this`io, device, device.bus
      ensures View() == Read(old(View()), 0, false, r).0 && st == Read(old(View()), 0, false, r).1
    {
      st := device.Probe(r);
      if device.bound {
        io := io + [ReadBack(device.bus.byte, st, false)];
      } else {
        assert io + [] == io;
      }
      st := RecordTransfer(st);
    }

    method Verify(expected: Byte, r: Reply) returns (st: Status)
      modifies this`session, this`io, device, device.bus
      ensures (View(), st) == VerifyMask(old(View()), expected, r)
    {
      var observed: Byte;
      st, observed := ReadAndRecord(0, r);
      if !st.IsOk() {
        return;
      }
      if observed != expected {
        return Mismatch(expected, observed);
      }
      return OK;
    }

    // ---- ending a session ----------------------------------------------------------

    method PrintPrompt()
      modifies this`prompts
      ensures prompts == old(prompts) + if session.running then 0 else 1
    {
      if !session.running {
        prompts := prompts + 1;
      }
    }

    method FinishSession(ended: u32)
      modifies this`session, this`rows, this`prompts
      ensures View() == Finish(old(View()), ended, inCommand)
    {
      session := session.(running := false);
      session := session.(endedMs := ended);
      session := session.(successAfter := device.totalSuccess, failureAfter := device.totalFailures);
      PrintClosing();
      if !inCommand {
        PrintPrompt();
      }
    }

    method PrintClosing()
      modifies this`rows
      ensures rows == old(rows) + FinalRows(session)
    {
      PrintSummary();
      PrintRunStats(0);
      rows := rows + [CliResult(session.kind, OutcomeOf(session), session.completed, session.target)];
    }

    method PrintSummary()
      modifies this`rows
      ensures rows == old(rows) + SummaryRows(session)
    {
      var s := session;
      if s.kind.Stress? || s.kind.Mix? {
        PrintStressSummary();
      } else if s.kind.Scan? || s.kind.Discover? {
        rows := rows + [ScanDone(s.kind, s.completed == s.target, s.found, s.scanErrors)];
      } else if s.kind.Sweep? {
        var success := s.primary.IsOk() && s.cleanup.IsOk() && !s.cancelled;
        rows := rows + [SweepResult(s.completed,
                                    if s.captured then (if s.cleanup.IsOk() then RestoreOk else RestoreFailed) else NotNeeded,
                                    success)];
      }
    }

    method PrintStressSummary()
      requires session.kind.Stress? || session.kind.Mix?
      modifies this`rows
      ensures rows == old(rows) + SummaryRows(session)
    {
      if session.kind.Mix? {
        rows := rows + [MixBanner];
      }
      PrintStressCounters();
      if !session.cleanup.IsOk() {
        rows := rows + [SafeOffUnverified];
      }
    }

    method PrintStressCounters()
      modifies this`rows
      ensures var s := session;
              rows == old(rows) +
                [StressResults(s.completed, s.target, if !s.primary.IsOk() then s.primary.code else s.cleanup.code, s.cleanup.IsOk()),
                 Duration(Sub32(s.endedMs, s.startedMs)),
                 HealthDelta(Sub32(s.successAfter, s.successBefore), Sub32(s.failureAfter, s.failureBefore)),
                 DeltaSaturated(s.successAfter == U32_MAX || s.failureAfter == U32_MAX),
                 SessionTransfers(s.transferSuccesses, s.transferFailures)]
    {
      var s := session;
      var outcome := if !s.primary.IsOk() then s.primary else s.cleanup;
      rows := rows + [StressResults(s.completed, s.target, outcome.code, s.cleanup.IsOk())];
      rows := rows + [Duration(Sub32(s.endedMs, s.startedMs))];
      rows := rows + [HealthDelta(Sub32(s.successAfter, s.successBefore), Sub32(s.failureAfter, s.failureBefore))];
      rows := rows + [DeltaSaturated(s.successAfter == U32_MAX || s.failureAfter == U32_MAX)];
      rows := rows + [SessionTransfers(s.transferSuccesses, s.transferFailures)];
    }

    /** The retained statistics; `now` is the clock's answer if the session is active. */
    method PrintRunStats(now: u32)
      modifies this`rows
      ensures rows == old(rows) + StatRows(session, now)
    {
      var s := session;
      if !s.available {
        rows := rows + [NoStatistics];
        return;
      }
      rows := rows + [RunLine(s.kind, s.running, s.completed, s.target, s.cancelled,
                              Sub32(if s.running then now else s.endedMs, s.startedMs))];
      rows := rows + [PrimaryResult(s.primary)];
      rows := rows + [CleanupLine(CleanupStateOf(s))];
      rows := rows + [CleanupResult(s.cleanup)];
      if s.kind.Scan? || s.kind.Discover? {
        rows := rows + [Detection(s.completed, s.found, s.completed - s.found - s.scanErrors, s.scanErrors,
                                  s.targetAddress, TargetAck(s))];
        rows := rows + [Candidates(s.candidateAcks)];
      }
    }

    method FailSession(value: Status, ended: u32)
      modifies this`session, this`rows, this`prompts
      ensures View() == Fail(old(View()), value, ended, inCommand)
    {
      if session.primary.IsOk() {
        session := session.(primary := value);
      }
      if session.kind.Stress? || session.kind.Mix? || (session.kind.Sweep? && session.captured) {
        session := session.(restoring := true);
        session := session.(phase := 0);
      } else {
        FinishSession(ended);
      }
    }

    method StopRun(env: LineEnv)
      requires inCommand
      modifies this`session, this`rows, this`prompts
      ensures View() == StopSession(old(View()), env)
    {
      if !session.running {
        return;
      }
      if session.restoring {
        return;
      }
      session := session.(cancelled := true);
      FailSession(CANCELLED_STATUS, env.ended);
    }

    /** `refusal` is the status printed as `run` when the session cannot start. */
    method StartRun(kind: RunKind, count: u32, interval: u32, env: LineEnv) returns (refusal: Option<Status>)
      modifies this`session, this`rows, this`io, this`met
      ensures View() == Start(old(View()), kind, count, interval, env)
      ensures refusal == StartRefusal(old(View()), kind, env)
    {
      if !env.hasClock {
        return Some(Error(InvalidConfig, ClockMissing));
      }
      if !kind.Discover? && !device.bound {
        return Some(Error(NotInitialized, DriverNotBound));
      }
      if !env.busReady || env.receiveFaulted {
        return Some(Error(NotInitialized, BusUnavailable));
      }
      if (kind.Scan? || kind.Discover?) && !env.hasProbe {
        return Some(Error(Unsupported, ProbeUnavailable));
      }
      refusal := None;
      session := NO_SESSION;
      session := session.(kind := kind, available := true, running := true);
      session := session.(target := count, intervalMs := interval);
      session := session.(startedMs := env.started);
      session := session.(nextMs := session.startedMs);
      session := session.(successBefore := device.totalSuccess, failureBefore := device.totalFailures);
      session := session.(address := if kind.Scan? then 0x08 else 0x70);
      session := session.(targetAddress := stagedAddress);
      if kind.Soak? {
        session := session.(durationMs := (count * 1000) % U32_RANGE);
      }
      rows, io, met := [Started(kind, count)], [], [];
    }

    // ---- ticks -----------------------------------------------------------------------

    method TickCleaning(t: TickIn)
      requires !inCommand
      modifies this`session, this`rows, this`prompts, this`io, device, device.bus
      ensures View() == TickCleanup(old(View()), t)
    {
      var expected := if session.kind.Sweep? then session.original else 0;
      if session.phase == 0 {
        var st := WriteAndRecord(expected, t.reply);
        session := session.(cleanup := st);
        session := session.(phase := 1);
        return;
      }
      var read := Verify(expected, t.reply);
      SettleCleanup(read, t.ended);
    }

    method SettleCleanup(read: Status, ended: u32)
      requires !inCommand
      modifies this`session, this`rows, this`prompts
      ensures View() == JudgeCleanup(old(View()), read, ended)
    {
      NoteCleanup(read);
      FinishSession(ended);
    }

    method NoteCleanup(read: Status)
      modifies this`session, this`rows
      ensures session == old(session).(cleanup := if old(session).cleanup.IsOk() then read else old(session).cleanup)
      ensures rows == old(rows) + if read.IsOk() then [] else [CleanupReadback(read)]
    {
      if session.cleanup.IsOk() {
        session := session.(cleanup := read);
      }
      if !read.IsOk() {
        rows := rows + [CleanupReadback(read)];
      }
    }

    method TickTopology(t: TickIn)
      requires !inCommand
      modifies this`session, this`rows, this`prompts, this`io, device, device.bus
      ensures View() == ScanTopology(old(View()), t)
    {
      var read, topology := ReadAndRecord(0, t.reply);
      rows := rows + [Topology(read, topology)];
      if !read.IsOk() {
        FailSession(read, t.ended);
        return;
      }
      session := session.(phase := 1);
      rows := rows + [Scanning];
    }

    /** Enter the answer of one address into the evidence. */
    method CountAnswer(value: Status)
      modifies this`session
      ensures session == VisitedSession(old(session), value)
    {
      var a := session.address;
      session := session.(candidateTested := Mark(session.candidateTested, a));
      session := session.(completed := Inc(session.completed));
      if value.IsOk() {
        session := session.(candidateAcks := Mark(session.candidateAcks, a), found := session.found + 1, address := a + 1);
      } else if !value.code.I2cNackAddr? {
        session := session.(candidateErrors := Mark(session.candidateErrors, a), scanErrors := session.scanErrors + 1);
        session := session.(primary := if session.primary.IsOk() then value else session.primary);
      } else {
        session := session.(address := a + 1);
      }
    }

    method VisitAddress(value: Status)
      modifies this`session, this`rows, this`io
      ensures View() == Visited(old(View()), value)
    {
      var a := session.address;
      io := io + [AddressProbed(a, value)];
      CountAnswer(value);
      if value.IsOk() {
        rows := rows + [Found(a)];
      } else if !value.code.I2cNackAddr? {
        rows := rows + [ScanError(a, value)];
      } else {
        assert rows + [] == rows;
      }
    }

    method TickAddress(t: TickIn)
      requires !inCommand
      modifies this`session, this`rows, this`prompts, this`io
      ensures View() == ScanAddress(old(View()), t)
    {
      VisitAddress(t.probe);
      if ProbeBroken(t.probe) || session.address > 0x77 {
        FinishSession(t.ended);
      }
    }

    method MixPrimitive(t: TickIn) returns (value: Status, roundComplete: bool)
      requires session.kind.Mix?
      modifies this`session, this`io, device, device.bus
      ensures (View(), value) == MaskPrimitive(old(View()), t.reply)
      ensures roundComplete == EndsRound(old(session))
    {
      roundComplete := false;
      match session.phase
      case 0 =>
        session := session.(expected := One(session.completed % 8));
        value := SelectAndRecord(session.completed % 8, t.reply);
      case 1 => value := Verify(session.expected, t.reply);
      case 2 =>
        session := session.(expected := MixByte(session.completed));
        value := WriteAndRecord(session.expected, t.reply);
      case 3 => value := Verify(session.expected, t.reply);
      case 4 => value := ProbeAndRecord(t.reply);
      case 5 =>
        session := session.(expected := 0);
        value := WriteAndRecord(0, t.reply);
      case _ =>
        value := Verify(session.expected, t.reply);
        roundComplete := true;
    }

    method PairPrimitive(t: TickIn) returns (value: Status, roundComplete: bool)
      requires !session.kind.Mix?
      modifies this`session, this`io, device, device.bus
      ensures (View(), value) == MaskPrimitive(old(View()), t.reply)
      ensures roundComplete == EndsRound(old(session))
    {
      roundComplete := session.phase != 0;
      if session.phase != 0 {
        value := Verify(session.expected, t.reply);
      } else if session.kind.Sweep? {
        session := session.(expected := session.completed % 256);
        value := WriteAndRecord(session.expected, t.reply);
      } else {
        session := session.(expected := One(session.completed % 8));
        value := SelectAndRecord(session.completed % 8, t.reply);
      }
    }

    method TickCapture(t: TickIn)
      requires !inCommand
      modifies this`session, this`rows, this`prompts, this`io, device, device.bus
      ensures View() == CaptureEntry(old(View()), t)
    {
      var read, original := ReadAndRecord(session.original, t.reply);
      if !read.IsOk() {
        FailSession(read, t.ended);
        return;
      }
      session := session.(original := original);
      session := session.(captured := true);
    }

    method FinishRound()
      modifies this`session
      ensures View() == EndRound(old(View()))
    {
      session := session.(completed := Inc(session.completed));
      session := session.(phase := 0);
      if session.completed == session.target {
        session := session.(restoring := true);
        session := session.(phase := 0);
      }
    }

    method SettlePrimitive(value: Status, roundComplete: bool, ended: u32)
      requires !inCommand
      modifies this`session, this`rows, this`prompts
      ensures View() == JudgePrimitive(old(View()), value, roundComplete, ended)
    {
      if !value.IsOk() {
        FailSession(value, ended);
      } else if !roundComplete {
        session := session.(phase := session.phase + 1);
      } else {
        FinishRound();
      }
    }

    method TickMask(t: TickIn)
      requires !inCommand
      modifies this`session, this`rows, this`prompts, this`io, device, device.bus
      ensures View() == TickMasks(old(View()), t)
    {
      if session.kind.Sweep? && !session.captured {
        TickCapture(t);
        return;
      }
      var value, roundComplete;
      if session.kind.Mix? {
        value, roundComplete := MixPrimitive(t);
      } else {
        value, roundComplete := PairPrimitive(t);
      }
      SettlePrimitive(value, roundComplete, t.ended);
    }

    method TickSample(t: TickIn)
      requires !inCommand
      modifies this`session, this`rows, this`prompts, this`io, device, device.bus
      ensures View() == TickTimed(old(View()), t)
    {
      var current := t.current;
      var endingSoak := session.kind.Soak? && Sub32(current, session.startedMs) >= session.durationMs;
      if endingSoak && session.completed == 0 {
        session := session.(primary := Error(Timeout, SoakExpired));
        FinishSession(t.ended);
        return;
      }
      if !endingSoak && AsSigned(Sub32(current, session.nextMs)) < 0 {
        return;
      }
      SampleMask(endingSoak, t);
    }

    method SampleMask(endingSoak: bool, t: TickIn)
      requires !inCommand
      modifies this`session, this`rows, this`prompts, this`io, device, device.bus
      ensures View() == TakeSample(old(View()), endingSoak, t)
    {
      var read, observed := ReadAndRecord(0, t.reply);
      if !read.IsOk() {
        FailSession(read, t.ended);
        return;
      }
      if session.kind.Soak? && session.completed > 0 && observed != session.expected {
        FailSession(Mismatch(session.expected, observed), t.ended);
        return;
      }
      KeepSample(observed, endingSoak, t);
    }

    method StoreSample(observed: Byte, current: u32)
      modifies this`session, this`rows
      ensures View() == StoredSample(old(View()), observed, current)
    {
      if session.kind.Soak? && session.completed == 0 {
        session := session.(expected := observed);
      }
      session := session.(completed := Inc(session.completed));
      if session.kind.Watch? {
        rows := rows + [SampleShown(session.completed, observed, current)];
      } else {
        assert rows + [] == rows;
      }
      session := session.(nextMs := Add32(current, session.intervalMs));
    }

    method KeepSample(observed: Byte, endingSoak: bool, t: TickIn)
      requires !inCommand
      modifies this`session, this`rows, this`prompts
      ensures View() == AcceptSample(old(View()), observed, endingSoak, t)
    {
      StoreSample(observed, t.current);
      if endingSoak {
        FinishSession(t.ended);
        return;
      }
      if session.kind.Watch? && session.completed == session.target {
        FinishSession(t.ended);
      }
    }

    /** One turn of the main loop. */
    method TickOnce(t: TickIn)
      requires !inCommand
      modifies this`session, this`rows, this`prompts, this`io, device, device.bus
      ensures View() == Tick(old(View()), t)
    {
      if !session.running {
        return;
      }
      if session.restoring {
        TickCleaning(t);
      } else if session.kind.Scan? && session.phase == 0 {
        TickTopology(t);
      } else if session.kind.Scan? || session.kind.Discover? {
        TickAddress(t);
      } else if session.kind.Stress? || session.kind.Mix? || session.kind.Sweep? {
        TickMask(t);
      } else {
        TickSample(t);
      }
    }

    // ---- lines -------------------------------------------------------------------------

    method PerformCalls(calls: seq<Call>)
      modifies device, device.bus
      ensures device.State() == Run(old(device.State()), calls)
    {
      for i := 0 to |calls|
        invariant device.State() == Run(old(device.State()), calls[..i])
      {
        assert calls[..i + 1][..i] == calls[..i];
        var st: Status;
        match calls[i]
        case Begin(c, r) => st := device.Begin(c, r);
        case End => device.End();
        case Probe(r) => st := device.Probe(r);
        case Recover(r) => st := device.Recover(r);
        case HardReset(p, r) => st := device.HardReset(p, r);
        case Select(ch, r) => st := device.SelectChannel(ch, r);
        case WriteMask(m, r) => st := device.WriteChannelMask(m, r);
        case DisableAll(r) => st := device.DisableAll(r);
        case ReadMask(r) => var b: Byte; st, b := device.ReadChannelMask(0, r);
        case Invalidate => device.InvalidateChannelMask();
        case ExternalChange(b) => device.bus.ChangeOutside(b);
      }
      assert calls[..|calls|] == calls;
    }

    /** Rows of a line; they belong to the session's printout while one is active. */
    method PrintMet(printed: seq<Row>)
      modifies this`rows, this`met
      ensures View() == Meet(old(View()), printed)
    {
      if session.running {
        rows := rows + printed;
        met := met + printed;
      }
    }

    /** Dispatch of a line met while a session is active; `stop` is not among them. */
    method Interrupt(c: Command, env: LineEnv)
      requires session.running && !c.Stop?
      modifies this`rows, this`met
      ensures View() == Meet(old(View()), Interjection(old(View()), c, env))
    {
      match c {
        case Rejected => PrintMet([Complaint]);
        case Invalid => PrintMet([Complaint]);
        case StatsReset => PrintMet([Complaint]);
        case HilMark => PrintMet([MarkerShown]);
        case ShowHealth => PrintMet([HealthShown(device.lastError)]);
        case ShowCounters(failures) => PrintMet([CountersShown(failures)]);
        case ShowStats =>
          PrintRunStats(env.shown);
          met := met + StatRows(session, env.shown);
        case Blank => PrintMet([]);
        case Passive => PrintMet([]);
        case Unknown(token) => PrintMet([Echoed(token)]);
        case Launch(_, _, _) => PrintMet([Echoed(PlainToken)]);
        case SetAddress(_) => PrintMet([Echoed(PlainToken)]);
        case Device(_) => PrintMet([Echoed(PlainToken)]);
      }
    }

    method ProcessCommand(c: Command, env: LineEnv)
      requires !inCommand
      modifies this, device, device.bus
      ensures View() == HandleLine(old(View()), c, env) && !inCommand
    {
      if c.Blank? {
        return;
      }
      if c.Rejected? {
        PrintMet([Complaint]);
        PrintPrompt();
        return;
      }
      inCommand := true;
      if c.Stop? {
        StopRun(env);
      } else if session.running {
        Interrupt(c, env);
      } else {
        Obey(c, env);
      }
      inCommand := false;
      PrintPrompt();
    }

    /** Dispatch of a line met while idle. */
    method Obey(c: Command, env: LineEnv)
      requires !session.running && !c.Stop?
      modifies this`session, this`stagedAddress, this`rows, this`io, this`met, device, device.bus
      ensures View() == Dispatch(old(View()), c, env)
    {
      if c.StatsReset? {
        session := NO_SESSION;
      } else if c.SetAddress? {
        if 0x70 <= c.address <= 0x77 && !device.bound {
          stagedAddress := c.address;
        }
      } else if c.Launch? {
        if Acceptable(c.kind, c.count, c.intervalMs) {
          var refusal := StartRun(c.kind, c.count, c.intervalMs, env);
        }
      } else if c.Device? {
        PerformCalls(c.calls);
      }
    }

    /** The line accumulator threw a line away. */
    method ReportDiscard()
      modifies this`rows, this`met, this`prompts
      ensures View() == HandleDiscard(old(View()))
    {
      PrintMet([Complaint]);
      PrintPrompt();
    }

    // ---- whole runs --------------------------------------------------------------------

    /** Any inputs, in order, on the object. */
    method RunInputs(inputs: seq<Input>)
      requires !inCommand
      modifies this, device, device.bus
      ensures View() == RunAll(old(View()), inputs) && !inCommand
    {
      for i := 0 to |inputs|
        invariant View() == RunAll(old(View()), inputs[..i]) && !inCommand
      {
        assert inputs[..i + 1][..i] == inputs[..i];
        match inputs[i]
        case TickInput(t) => TickOnce(t);
        case LineInput(c, env) => ProcessCommand(c, env);
        case DiscardedLine => ReportDiscard();
        case Drift(b) => device.bus.ChangeOutside(b);
      }
      assert inputs[..|inputs|] == inputs;
    }
  }
}
