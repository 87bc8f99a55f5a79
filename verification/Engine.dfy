/** The diagnostic session engine on values: what one command line and one tick do. */
module Engine {
  import opened Base
  import opened StatusCodes
  import opened DriverSpec

  datatype RunKind = NoRun | Scan | Discover | Watch | Stress | Mix | Sweep | Soak

  const MAX_COUNT := 1000
  const MAX_INTERVAL_MS := 60000
  const MAX_SOAK_SECONDS := 86400

  datatype Session = Session(
    kind: RunKind, available: bool, running: bool, cancelled: bool, restoring: bool, captured: bool,
    phase: nat, address: nat, found: nat, scanErrors: nat, targetAddress: Byte,
    candidateTested: Byte, candidateAcks: Byte, candidateErrors: Byte,
    target: u32, completed: u32,
    intervalMs: u32, nextMs: u32, startedMs: u32, endedMs: u32, durationMs: u32,
    successBefore: u32, failureBefore: u32, successAfter: u32, failureAfter: u32,
    transferSuccesses: u32, transferFailures: u32,
    original: Byte, expected: Byte, primary: Status, cleanup: Status)

  const NO_SESSION := Session(NoRun, false, false, false, false, false, 0, 0, 0, 0, 0, 0, 0, 0,
                             0, 0, 0, 0, 0, 0, 0, 0, 0, 0, 0, 0, 0, 0, 0, OK, OK)

  datatype Outcome = Passed | Failed | Cancelled
  datatype Restore = RestoreOk | RestoreFailed | NotNeeded
  datatype CleanupState = CleanupNotNeeded | CleanupPending | CleanupVerified | CleanupFailed
  datatype AckVerdict = AckYes | AckNo | AckError | NotTested

  /** What a token echoed from a line looks like to the runner: nothing, the name of a bus error, or
      one of the failure texts it looks for in every response. */
  datatype Token = PlainToken | ErrorToken | FailureToken

  /** Structured output; wording and colour are not modelled. The rows from `Complaint` on are
      printed only by lines. */
  datatype Row =
    | Started(kind: RunKind, requested: u32)
    | Topology(status: Status, mask: Byte)
    | Scanning
    | Found(address: nat)
    | ScanError(address: nat, status: Status)
    | SampleShown(sample: u32, mask: Byte, timestamp: u32)
    | CleanupReadback(status: Status)
    | MixBanner
    | StressResults(completed: u32, requested: u32, code: Err, safeOff: bool)
    | Duration(ms: u32)
    | HealthDelta(success: u32, failure: u32)
    | DeltaSaturated(saturated: bool)
    | SessionTransfers(success: u32, failure: u32)
    | SafeOffUnverified
    | ScanDone(kind: RunKind, complete: bool, devices: nat, errors: nat)
    | SweepResult(completed: u32, restore: Restore, pass: bool)
    | NoStatistics
    | RunLine(kind: RunKind, active: bool, completed: u32, requested: u32, cancelled: bool, ms: u32)
    | PrimaryResult(status: Status)
    | CleanupLine(state: CleanupState)
    | CleanupResult(status: Status)
    | Detection(tested: u32, ack: nat, absent: int, errors: nat, target: Byte, verdict: AckVerdict)
    | Candidates(acks: Byte)
    | CliResult(kind: RunKind, outcome: Outcome, completed: u32, requested: u32)
    | Complaint
    | MarkerShown
    | Echoed(token: Token)
    | HealthShown(lastError: Status)
    | CountersShown(failures: u32)

  /** The engine with its driver. `io` is what this session did on the bus and `rows` what was
      printed from its start to its end, of which `met` was printed by lines met meanwhile;
      `prompts` counts the prompts printed since start-up. */
  datatype Sys = Sys(s: Session, world: World, staged: Byte, io: seq<Event>, rows: seq<Row>, met: seq<Row>, prompts: nat)

  /** The environment's answers during one tick. */
  datatype TickIn = TickIn(current: u32, ended: u32, reply: Reply, probe: Status)

  predicate MaskRun(k: RunKind) {
    k.Stress? || k.Mix? || k.Sweep?
  }

  predicate ScanRun(k: RunKind) {
    k.Scan? || k.Discover?
  }

  predicate NeedsCleanup(s: Session) {
    s.kind.Stress? || s.kind.Mix? || (s.kind.Sweep? && s.captured)
  }

  // ---- session bus access --------------------------------------------------------

  /** recordTransfer */
  function Record(s: Session, st: Status): Session {
    if !s.running then s
    else if st.IsOk() then s.(transferSuccesses := Inc(s.transferSuccesses))
    else s.(transferFailures := Inc(s.transferFailures))
  }

  function Write(y: Sys, mask: Byte, r: Reply): (Sys, Status) {
    var (w, st) := WriteIfBound(y.world, mask, r);
    (y.(world := w, s := Record(y.s, st), io := y.io + if y.world.dev.bound then [Wrote(mask, st)] else []), st)
  }

  function Read(y: Sys, out: Byte, tracked: bool, r: Reply): (Sys, Status, Byte) {
    var (w, st, b) := ReadIfBound(y.world, out, tracked, r);
    (y.(world := w, s := Record(y.s, st),
        io := y.io + if y.world.dev.bound then [ReadBack(y.world.hw, st, tracked)] else []), st, b)
  }

  function Mismatch(expected: Byte, observed: Byte): Status {
    Error(I2cError, ReadbackMismatch, expected * 256 + observed)
  }

  function VerifyMask(y: Sys, expected: Byte, r: Reply): (Sys, Status) {
    var (y', st, observed) := Read(y, 0, true, r);
    (y', if !st.IsOk() then st else if observed != expected then Mismatch(expected, observed) else OK)
  }

  // ---- ending a session ------------------------------------------------------------

  function OutcomeOf(s: Session): Outcome {
    if s.cancelled then Cancelled
    else if s.primary.IsOk() && s.cleanup.IsOk() then Passed
    else Failed
  }

  function TargetAck(s: Session): AckVerdict {
    if !(0x70 <= s.targetAddress <= 0x77) then NotTested
    else
      var bit := s.targetAddress - 0x70;
      if !Bit(s.candidateTested, bit) then NotTested
      else if Bit(s.candidateAcks, bit) then AckYes
      else if Bit(s.candidateErrors, bit) then AckError
      else AckNo
  }

  function CleanupStateOf(s: Session): CleanupState {
    if !NeedsCleanup(s) then CleanupNotNeeded
    else if s.running then CleanupPending
    else if s.cleanup.IsOk() then CleanupVerified
    else CleanupFailed
  }

  function DetectionRow(s: Session): Row {
    Detection(s.completed, s.found, s.completed - s.found - s.scanErrors, s.scanErrors, s.targetAddress, TargetAck(s))
  }

  function RunRows(s: Session, now: u32): seq<Row> {
    [RunLine(s.kind, s.running, s.completed, s.target, s.cancelled,
             Sub32(if s.running then now else s.endedMs, s.startedMs)),
     PrimaryResult(s.primary), CleanupLine(CleanupStateOf(s)), CleanupResult(s.cleanup)]
  }

  function EvidenceRows(s: Session): seq<Row> {
    if ScanRun(s.kind) then [DetectionRow(s), Candidates(s.candidateAcks)] else []
  }

  /** printRunStats, with `now` for a session still active. */
  function StatRows(s: Session, now: u32): seq<Row> {
    if !s.available then [NoStatistics] else RunRows(s, now) + EvidenceRows(s)
  }

  function SummaryRows(s: Session): seq<Row> {
    if s.kind.Stress? || s.kind.Mix? then
      (if s.kind.Mix? then [MixBanner] else [])
      + [StressResults(s.completed, s.target, if !s.primary.IsOk() then s.primary.code else s.cleanup.code, s.cleanup.IsOk()),
       Duration(Sub32(s.endedMs, s.startedMs)),
       HealthDelta(Sub32(s.successAfter, s.successBefore), Sub32(s.failureAfter, s.failureBefore)),
       DeltaSaturated(s.successAfter == U32_MAX || s.failureAfter == U32_MAX),
       SessionTransfers(s.transferSuccesses, s.transferFailures)]
      + if s.cleanup.IsOk() then [] else [SafeOffUnverified]
    else if ScanRun(s.kind) then [ScanDone(s.kind, s.completed == s.target, s.found, s.scanErrors)]
    else if s.kind.Sweep? then
      [SweepResult(s.completed, if !s.captured then NotNeeded else if s.cleanup.IsOk() then RestoreOk else RestoreFailed,
                   OutcomeOf(s).Passed?)]
    else []
  }

  function FinalRows(s: Session): seq<Row> {
    SummaryRows(s) + StatRows(s, 0) + [CliResult(s.kind, OutcomeOf(s), s.completed, s.target)]
  }

  /** `inCommand` defers the prompt to the end of the command being processed. */
  function Finish(y: Sys, ended: u32, inCommand: bool): Sys {
    var s := y.s.(running := false, endedMs := ended,
                  successAfter := y.world.dev.totalSuccess, failureAfter := y.world.dev.totalFailures);
    y.(s := s, rows := y.rows + FinalRows(s), prompts := y.prompts + if inCommand then 0 else 1)
  }

  function Fail(y: Sys, st: Status, ended: u32, inCommand: bool): Sys {
    var y1 := if y.s.primary.IsOk() then y.(s := y.s.(primary := st)) else y;
    if NeedsCleanup(y1.s) then y1.(s := y1.s.(restoring := true, phase := 0))
    else Finish(y1, ended, inCommand)
  }

  // ---- ticks -----------------------------------------------------------------------

  /** Keep the first cleanup failure, show a failed readback, and end. */
  function JudgeCleanup(y: Sys, read: Status, ended: u32): Sys {
    Finish(y.(s := y.s.(cleanup := if y.s.cleanup.IsOk() then read else y.s.cleanup),
              rows := y.rows + if read.IsOk() then [] else [CleanupReadback(read)]), ended, false)
  }

  function TickCleanup(y: Sys, t: TickIn): Sys {
    var expected := if y.s.kind.Sweep? then y.s.original else 0;
    if y.s.phase == 0 then
      var (y1, st) := Write(y, expected, t.reply);
      y1.(s := y1.s.(cleanup := st, phase := 1))
    else
      var (y1, read) := VerifyMask(y, expected, t.reply);
      JudgeCleanup(y1, read, t.ended)
  }

  function ScanTopology(y: Sys, t: TickIn): Sys {
    var (y1, read, mask) := Read(y, 0, true, t.reply);
    var y2 := y1.(rows := y1.rows + [Topology(read, mask)]);
    if !read.IsOk() then Fail(y2, read, t.ended, false)
    else y2.(s := y2.s.(phase := 1), rows := y2.rows + [Scanning])
  }

  /** `mask |= 1 << (address - 0x70)` for the eight candidate addresses, otherwise unchanged. */
  function Mark(mask: Byte, address: nat): Byte {
    if 0x70 <= address <= 0x77 then SetByteBit(mask, address - 0x70) else mask
  }

  /** An address probe neither acknowledged nor plainly refused establishes nothing and stops the scan. */
  predicate ProbeBroken(st: Status) {
    !st.IsOk() && !st.code.I2cNackAddr?
  }

  function VisitedSession(s: Session, st: Status): Session {
    var a := s.address;
    s.(candidateTested := Mark(s.candidateTested, a),
       candidateAcks := if st.IsOk() then Mark(s.candidateAcks, a) else s.candidateAcks,
       candidateErrors := if ProbeBroken(st) then Mark(s.candidateErrors, a) else s.candidateErrors,
       found := if st.IsOk() then s.found + 1 else s.found,
       scanErrors := if ProbeBroken(st) then s.scanErrors + 1 else s.scanErrors,
       primary := if ProbeBroken(st) && s.primary.IsOk() then st else s.primary,
       completed := Inc(s.completed),
       address := if ProbeBroken(st) then a else a + 1)
  }

  function ProbeRows(a: nat, st: Status): seq<Row> {
    if st.IsOk() then [Found(a)] else if ProbeBroken(st) then [ScanError(a, st)] else []
  }

  function Visited(y: Sys, st: Status): Sys {
    y.(s := VisitedSession(y.s, st), io := y.io + [AddressProbed(y.s.address, st)],
       rows := y.rows + ProbeRows(y.s.address, st))
  }

  function ScanAddress(y: Sys, t: TickIn): Sys {
    var y1 := Visited(y, t.probe);
    if ProbeBroken(t.probe) || y1.s.address > 0x77 then Finish(y1, t.ended, false) else y1
  }

  function TickScan(y: Sys, t: TickIn): Sys {
    if y.s.kind.Scan? && y.s.phase == 0 then ScanTopology(y, t) else ScanAddress(y, t)
  }

  /** `static_cast<uint8_t>(round * 37U + 0xA5U)` */
  function MixByte(round: nat): Byte {
    ((round * 37 + 0xA5) % U32_RANGE) % 256
  }

  datatype Primitive = WriteOf(mask: Byte) | VerifyHeld | RawProbe

  /** The bus operation of the current phase of a stress, mix or sweep round. */
  function PrimitiveOf(s: Session): Primitive {
    if s.kind.Mix? then
      if s.phase == 0 then WriteOf(One(s.completed % 8))
      else if s.phase == 2 then WriteOf(MixByte(s.completed))
      else if s.phase == 4 then RawProbe
      else if s.phase == 5 then WriteOf(0)
      else VerifyHeld
    else if s.phase == 0 then
      WriteOf(if s.kind.Sweep? then s.completed % 256 else One(s.completed % 8))
    else VerifyHeld
  }

  /** Whether the current phase is the last of its round. */
  predicate EndsRound(s: Session) {
    if s.kind.Mix? then s.phase >= 6 else s.phase >= 1
  }

  function MaskPrimitive(y: Sys, r: Reply): (Sys, Status) {
    match PrimitiveOf(y.s)
    case WriteOf(m) => Write(y.(s := y.s.(expected := m)), m, r)
    case VerifyHeld => VerifyMask(y, y.s.expected, r)
    case RawProbe => var (y1, st, _) := Read(y, 0, false, r); (y1, st)
  }

  function EndRound(y: Sys): Sys {
    var s := y.s.(completed := Inc(y.s.completed), phase := 0);
    y.(s := if s.completed == s.target then s.(restoring := true) else s)
  }

  function CaptureEntry(y: Sys, t: TickIn): Sys {
    var (y1, st, b) := Read(y, y.s.original, true, t.reply);
    if !st.IsOk() then Fail(y1, st, t.ended, false)
    else y1.(s := y1.s.(original := b, captured := true))
  }

  function JudgePrimitive(y: Sys, st: Status, roundComplete: bool, ended: u32): Sys {
    if !st.IsOk() then Fail(y, st, ended, false)
    else if !roundComplete then y.(s := y.s.(phase := y.s.phase + 1))
    else EndRound(y)
  }

  function TickMasks(y: Sys, t: TickIn): Sys {
    if y.s.kind.Sweep? && !y.s.captured then CaptureEntry(y, t)
    else
      var (y1, st) := MaskPrimitive(y, t.reply);
      JudgePrimitive(y1, st, EndsRound(y.s), t.ended)
  }

  function SampleRows(s: Session, observed: Byte, current: u32): seq<Row> {
    if s.kind.Watch? then [SampleShown(Inc(s.completed), observed, current)] else []
  }

  function StoredSample(y: Sys, observed: Byte, current: u32): Sys {
    y.(rows := y.rows + SampleRows(y.s, observed, current),
       s := y.s.(expected := if y.s.kind.Soak? && y.s.completed == 0 then observed else y.s.expected,
                 completed := Inc(y.s.completed), nextMs := Add32(current, y.s.intervalMs)))
  }

  function AcceptSample(y: Sys, observed: Byte, ending: bool, t: TickIn): Sys {
    var y1 := StoredSample(y, observed, t.current);
    if ending || (y1.s.kind.Watch? && y1.s.completed == y1.s.target) then Finish(y1, t.ended, false) else y1
  }

  function TakeSample(y: Sys, ending: bool, t: TickIn): Sys {
    var (y1, read, observed) := Read(y, 0, true, t.reply);
    if !read.IsOk() then Fail(y1, read, t.ended, false)
    else if y1.s.kind.Soak? && y1.s.completed > 0 && observed != y1.s.expected then
      Fail(y1, Mismatch(y1.s.expected, observed), t.ended, false)
    else AcceptSample(y1, observed, ending, t)
  }

  predicate EndingSoak(s: Session, current: u32) {
    s.kind.Soak? && Sub32(current, s.startedMs) >= s.durationMs
  }

  function TickTimed(y: Sys, t: TickIn): Sys {
    var ending := EndingSoak(y.s, t.current);
    if ending && y.s.completed == 0 then
      Finish(y.(s := y.s.(primary := Error(Timeout, SoakExpired))), t.ended, false)
    else if !ending && AsSigned(Sub32(t.current, y.s.nextMs)) < 0 then y
    else TakeSample(y, ending, t)
  }

  function Tick(y: Sys, t: TickIn): Sys {
    if !y.s.running then y
    else if y.s.restoring then TickCleanup(y, t)
    else if ScanRun(y.s.kind) then TickScan(y, t)
    else if MaskRun(y.s.kind) then TickMasks(y, t)
    else TickTimed(y, t)
  }

  // ---- command lines -----------------------------------------------------------------

  /** A received line, as the dispatcher classifies it. `Rejected` lines are not dispatched at all;
      `Invalid` ones misuse a command that is recognised even during a session; `Passive` ones
      print nothing that could alarm (help, version, cfg, bus, console, color, verbose, xfer_assert).
      an `Unknown` line
      is refused with its own first token. `Device` stands for
      every command that drives the chip at once (read, mask, select, enable, begin, hil, ...): any
      calls at all. */
  datatype Command =
    | Blank
    | Rejected
    | Invalid
    | Passive
    | HilMark
    | ShowHealth
    | ShowCounters(failures: u32)
    | ShowStats
    | StatsReset
    | Stop
    | Unknown(token: Token)
    | Launch(kind: RunKind, count: u32, intervalMs: u32)
    | SetAddress(address: u32)
    | Device(calls: seq<Call>)

  /** What the platform shows while a line is handled; the clock is read at most once for each use. */
  datatype LineEnv = LineEnv(hasClock: bool, busReady: bool, receiveFaulted: bool, hasProbe: bool,
                             started: u32, ended: u32, shown: u32)

  /** The argument ranges the dispatcher passes on to `start`. */
  predicate Acceptable(k: RunKind, count: u32, interval: u32) {
    match k
    case NoRun => false
    case Scan => count == 112 && interval == 0
    case Discover => count == 8 && interval == 0
    case Sweep => count == 256 && interval == 0
    case Stress => 1 <= count <= MAX_COUNT && interval == 0
    case Mix => 1 <= count <= MAX_COUNT && interval == 0
    case Watch => 1 <= count <= MAX_COUNT && 1 <= interval <= MAX_INTERVAL_MS
    case Soak => 1 <= count <= MAX_SOAK_SECONDS && interval == 1000
  }

  /** Why a session cannot start now, if it cannot: the status printed as `run`. */
  function StartRefusal(y: Sys, k: RunKind, env: LineEnv): Option<Status> {
    if !env.hasClock then Some(Error(InvalidConfig, ClockMissing))
    else if !k.Discover? && !y.world.dev.bound then Some(Error(NotInitialized, DriverNotBound))
    else if !env.busReady || env.receiveFaulted then Some(Error(NotInitialized, BusUnavailable))
    else if ScanRun(k) && !env.hasProbe then Some(Error(Unsupported, ProbeUnavailable))
    else None
  }

  predicate CanStart(y: Sys, k: RunKind, env: LineEnv) {
    StartRefusal(y, k, env).None?
  }

  function StartSession(y: Sys, k: RunKind, count: u32, interval: u32, env: LineEnv): Session {
    NO_SESSION.(kind := k, available := true, running := true, target := count, intervalMs := interval,
               startedMs := env.started, nextMs := env.started,
               successBefore := y.world.dev.totalSuccess, failureBefore := y.world.dev.totalFailures,
               address := if k.Scan? then 0x08 else 0x70, targetAddress := y.staged,
               durationMs := if k.Soak? then (count * 1000) % U32_RANGE else 0)
  }

  function Start(y: Sys, k: RunKind, count: u32, interval: u32, env: LineEnv): Sys {
    if !CanStart(y, k, env) then y
    else y.(s := StartSession(y, k, count, interval, env), io := [], rows := [Started(k, count)], met := [])
  }

  const CANCELLED_STATUS := Error(Busy, SessionCancelled)

  function StopSession(y: Sys, env: LineEnv): Sys {
    if !y.s.running || y.s.restoring then y
    else Fail(y.(s := y.s.(cancelled := true)), CANCELLED_STATUS, env.ended, true)
  }

  /** What a line prints while a session is active. */
  function Interjection(y: Sys, c: Command, env: LineEnv): seq<Row> {
    match c
    case Rejected => [Complaint]
    case Invalid => [Complaint]
    case StatsReset => [Complaint]
    case HilMark => [MarkerShown]
    case Unknown(token) => [Echoed(token)]
    case ShowHealth => [HealthShown(y.world.dev.lastError)]
    case ShowCounters(failures) => [CountersShown(failures)]
    case ShowStats => StatRows(y.s, env.shown)
    case Launch(_, _, _) => [Echoed(PlainToken)]
    case SetAddress(_) => [Echoed(PlainToken)]
    case Device(_) => [Echoed(PlainToken)]
    case _ => []
  }

  function Meet(y: Sys, printed: seq<Row>): Sys {
    if y.s.running then y.(rows := y.rows + printed, met := y.met + printed) else y
  }

  /** The dispatched work of a non-blank command, before its prompt. */
  function Dispatch(y: Sys, c: Command, env: LineEnv): Sys {
    if c.Stop? then StopSession(y, env)
    else if y.s.running then Meet(y, Interjection(y, c, env))
    else
      match c
      case StatsReset => y.(s := NO_SESSION)
      case Launch(k, count, interval) => if Acceptable(k, count, interval) then Start(y, k, count, interval, env) else y
      case SetAddress(a) => if 0x70 <= a <= 0x77 && !y.world.dev.bound then y.(staged := a) else y
      case Device(calls) => y.(world := DriverSpec.Run(y.world, calls))
      case _ => y
  }

  function Prompt(y: Sys): Sys {
    if y.s.running then y else y.(prompts := y.prompts + 1)
  }

  function HandleLine(y: Sys, c: Command, env: LineEnv): Sys {
    if c.Blank? then y else Prompt(Dispatch(y, c, env))
  }

  /** A line the accumulator discarded. */
  function HandleDiscard(y: Sys): Sys {
    Prompt(Meet(y, [Complaint]))
  }

  // ---- runs ----------------------------------------------------------------------------

  datatype Input =
    | TickInput(t: TickIn)
    | LineInput(c: Command, env: LineEnv)
    | DiscardedLine
    | Drift(byte: Byte)

  function Step(y: Sys, i: Input): Sys {
    match i
    case TickInput(t) => Tick(y, t)
    case LineInput(c, env) => HandleLine(y, c, env)
    case DiscardedLine => HandleDiscard(y)
    case Drift(b) => y.(world := y.world.(hw := b, drifted := true))
  }

  function RunAll(y: Sys, inputs: seq<Input>): Sys
    decreases |inputs|
  {
    if inputs == [] then y else Step(RunAll(y, inputs[..|inputs| - 1]), inputs[|inputs| - 1])
  }

  /** What an input prints while a session is active, apart from the session's own rows. */
  function Said(y: Sys, i: Input): seq<Row> {
    match i
    case LineInput(c, env) => Interjection(y, c, env)
    case DiscardedLine => [Complaint]
    case _ => []
  }

  /** Everything the lines met during the latest session printed, read off the inputs. */
  function MetRows(y: Sys, inputs: seq<Input>): seq<Row>
    decreases |inputs|
  {
    if inputs == [] then []
    else
      var (before, i) := (inputs[..|inputs| - 1], inputs[|inputs| - 1]);
      var z := RunAll(y, before);
      if z.s.running then MetRows(y, before) + Said(z, i)
      else if Step(z, i).s.running then []
      else MetRows(y, before)
  }

  function Boot(w: World, staged: Byte): Sys {
    Sys(NO_SESSION, w, staged, [], [], [], 0)
  }
}
