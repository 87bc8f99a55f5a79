/** Stress, mixed stress and sweep: in every reachable state the session has done a prefix
    of one fixed program on the bus, then at most one failing step, then its cleanup. */
module MaskRuns {
  import opened Base
  import opened StatusCodes
  import opened DriverSpec
  import opened DriverProofs
  import opened Engine

  // ---- the program a run is meant to carry out -----------------------------------

  datatype Want =
    | WantWrite(mask: Byte)
    | WantRead(mask: Byte)
    | WantCapture
    | WantProbe

  predicate Meets(e: Event, w: Want) {
    match w
    case WantWrite(m) => e.Wrote? && e.status.IsOk() && e.mask == m
    case WantRead(m) => e.ReadBack? && e.status.IsOk() && e.tracked && e.byte == m
    case WantCapture => e.ReadBack? && e.status.IsOk() && e.tracked
    case WantProbe => e.ReadBack? && e.status.IsOk() && !e.tracked
  }

  /** The transfer the step asks for, whatever came of it. */
  predicate Attempts(e: Event, w: Want) {
    match w
    case WantWrite(m) => e.Wrote? && e.mask == m
    case WantRead(_) => e.ReadBack? && e.tracked
    case WantCapture => e.ReadBack? && e.tracked
    case WantProbe => e.ReadBack? && !e.tracked
  }

  /** The step was carried out and went wrong. */
  predicate Misses(e: Event, w: Want) {
    Attempts(e, w) && !Meets(e, w)
  }

  /** The masks of mixed rounds: 0xA5, then 37 more each time, in a byte. */
  function MixedMask(c: nat): Byte {
    if c == 0 then 165
    else
      var m := MixedMask(c - 1);
      if m < 219 then m + 37 else m - 219
  }

  lemma TruncatedTwice(x: nat)
    ensures x % U32_RANGE % 256 == x % 256
  {
    var q := x / U32_RANGE;
    assert x == q * U32_RANGE + x % U32_RANGE;
    assert x == 256 * (q * 0x100_0000) + x % U32_RANGE;
  }

  lemma StepInByte(x: nat)
    ensures var m := x % 256; (x + 37) % 256 == if m < 219 then m + 37 else m - 219
  {
  }

  lemma {:induction false} MixedMaskIs(c: nat)
    ensures MixedMask(c) == (c * 37 + 165) % 256
    decreases c
  {
    if c > 0 {
      MixedMaskIs(c - 1);
      StepInByte((c - 1) * 37 + 165);
    }
  }

  lemma MixBytes(c: nat)
    ensures MixByte(c) == MixedMask(c)
  {
    TruncatedTwice(c * 37 + 165);
    MixedMaskIs(c);
  }

  function RoundLength(k: RunKind): nat {
    if k.Mix? then 7 else 2
  }

  /** The bus steps of round `c`: select, write and verify. */
  function Round(k: RunKind, c: nat): (r: seq<Want>)
    ensures |r| == RoundLength(k)
  {
    if k.Mix? then
      var (one, mixed) := (PowByte(c % 8), MixedMask(c));
      [WantWrite(one), WantRead(one), WantWrite(mixed), WantRead(mixed), WantProbe, WantWrite(0), WantRead(0)]
    else
      var m := if k.Sweep? then c % 256 else PowByte(c % 8);
      [WantWrite(m), WantRead(m)]
  }

  /** The bus steps of a whole run before its cleanup; a sweep first reads the entry mask. */
  function Program(k: RunKind, target: nat): (p: seq<Want>)
    ensures |p| == Position(k, target, 0)
  {
    if target == 0 then (if k.Sweep? then [WantCapture] else [])
    else Program(k, target - 1) + Round(k, target - 1)
  }

  /** Bus steps done when phase `p` of round `c` is next. */
  function Position(k: RunKind, c: nat, p: nat): nat {
    if k.Mix? then 7 * c + p else if k.Sweep? then 1 + 2 * c + p else 2 * c + p
  }

  lemma {:induction false} ProgramAt(k: RunKind, target: nat, c: nat, p: nat)
    requires c < target && p < RoundLength(k)
    ensures Position(k, c, p) < |Program(k, target)| && Program(k, target)[Position(k, c, p)] == Round(k, c)[p]
    decreases target
  {
    if c < target - 1 {
      ProgramAt(k, target - 1, c, p);
    }
  }

  lemma {:induction false} SweepStart(target: nat)
    ensures Program(Sweep, target)[0] == WantCapture
  {
    if target > 0 { SweepStart(target - 1); }
  }

  /** The first `n` bus events are the first `n` steps of the program. */
  ghost predicate Follows(io: seq<Event>, program: seq<Want>, n: nat) {
    n <= |io| && n <= |program| && forall j :: 0 <= j < n ==> Meets(io[j], program[j])
  }

  /** `n` program steps contain exactly `c` whole rounds. */
  predicate WholeRounds(k: RunKind, c: nat, n: nat) {
    Position(k, c, 0) <= n < Position(k, c + 1, 0)
  }

  function SafeMask(s: Session): Byte {
    if s.kind.Sweep? then s.original else 0
  }

  // ---- counting -------------------------------------------------------------------

  function Transfers(io: seq<Event>, ok: bool): nat {
    if io == [] then 0
    else
      var e := io[|io| - 1];
      Transfers(io[..|io| - 1], ok) + if (e.Wrote? || e.ReadBack?) && e.status.IsOk() == ok then 1 else 0
  }

  lemma ExtendTransfers(io: seq<Event>, e: Event)
    ensures forall ok ::
      Transfers(io + [e], ok) == Transfers(io, ok) + (if (e.Wrote? || e.ReadBack?) && e.status.IsOk() == ok then 1 else 0)
  {
    assert (io + [e])[..|io|] == io;
  }

  // ---- stages of a run ---------------------------------------------------------------

  /** What the cleanup verified byte must have been for a step waiting in phase `p`. */
  function HeldByte(k: RunKind, round: nat, p: nat): Byte {
    if k.Mix? then (if p <= 2 then PowByte(round % 8) else if p <= 5 then MixedMask(round) else 0)
    else if k.Sweep? then round % 256 else PowByte(round % 8)
  }

  ghost predicate Capturing(s: Session, io: seq<Event>) {
    s.kind.Sweep? && !s.captured && s.completed == 0 && s.phase == 0 && io == []
    && s.primary.IsOk() && s.cleanup.IsOk() && !s.cancelled && !s.restoring
  }

  /** A sweep's first bus event is the successful read of the mask it will restore. */
  predicate EntryRead(k: RunKind, original: Byte, io: seq<Event>) {
    k.Sweep? ==> io != [] && Meets(io[0], WantRead(original))
  }

  ghost predicate Working(s: Session, io: seq<Event>) {
    && (s.kind.Sweep? <==> s.captured)
    && s.primary.IsOk() && s.cleanup.IsOk() && !s.cancelled && !s.restoring
    && s.completed < s.target && s.phase < RoundLength(s.kind)
    && |io| == Position(s.kind, s.completed, s.phase)
    && Follows(io, Program(s.kind, s.target), |io|)
    && (s.phase > 0 ==> s.expected == HeldByte(s.kind, s.completed, s.phase))
    && EntryRead(s.kind, s.original, io)
  }

  /** The part of a session before its cleanup: the whole program, or a proper prefix cut
      short by `stop`, or a prefix followed by the next step gone wrong. */
  ghost predicate Body(k: RunKind, target: nat, completed: nat, original: Byte, ok: bool, cancelled: bool, body: seq<Event>) {
    var program := Program(k, target);
    && EntryRead(k, original, body)
    && if ok then
         !cancelled && completed == target && |body| == |program| && Follows(body, program, |body|)
       else if cancelled then
         completed < target && WholeRounds(k, completed, |body|) && |body| < |program| && Follows(body, program, |body|)
       else
         var n := |body| - 1;
         completed < target && 0 <= n < |program| && WholeRounds(k, completed, n)
         && Follows(body, program, n) && Misses(body[n], program[n])
  }

  ghost predicate BodyDone(s: Session, body: seq<Event>) {
    Body(s.kind, s.target, s.completed, s.original, s.primary.IsOk(), s.cancelled, body)
  }

  ghost predicate Cleaning(s: Session, io: seq<Event>) {
    && s.restoring && (s.kind.Sweep? <==> s.captured)
    && if s.phase == 0 then s.cleanup.IsOk() && BodyDone(s, io)
       else
         var n := |io| - 1;
         s.phase == 1 && n >= 0 && BodyDone(s, io[..n]) && io[n] == Wrote(SafeMask(s), s.cleanup)
  }

  ghost predicate Cleaned(s: Session, io: seq<Event>) {
    var n := |io| - 2;
    && n >= 0 && BodyDone(s, io[..n]) && (s.kind.Sweep? <==> s.captured)
    && io[n].Wrote? && io[n].mask == SafeMask(s)
    && io[n + 1].ReadBack? && io[n + 1].tracked
    && (s.cleanup.IsOk() <==> io[n].status.IsOk() && Meets(io[n + 1], WantRead(SafeMask(s))))
  }

  ghost predicate NeverCaptured(s: Session, io: seq<Event>) {
    && s.kind.Sweep? && !s.captured && !s.primary.IsOk() && s.cleanup.IsOk() && s.completed == 0
    && if s.cancelled then io == []
       else |io| == 1 && io[0].ReadBack? && io[0].tracked && !io[0].status.IsOk()
  }

  ghost predicate StageInv(s: Session, io: seq<Event>) {
    if s.running then Capturing(s, io) || Working(s, io) || Cleaning(s, io) else Cleaned(s, io) || NeverCaptured(s, io)
  }

  /** Session counters against the record, and lifetime counters against the session's share of it. */
  ghost predicate Accounted(y: Sys) {
    var s := y.s;
    && |y.io| <= Position(s.kind, s.target, 0) + 2
    && 1 <= s.target <= MAX_COUNT && (s.kind.Sweep? ==> s.target == 256)
    && s.transferSuccesses == Transfers(y.io, true)
    && s.transferFailures == Transfers(y.io, false)
    && s.transferSuccesses + s.transferFailures == |y.io|
    && (if s.running then y.world.dev.totalSuccess else s.successAfter) == Min(s.successBefore + Successes(y.io), U32_MAX)
    && (if s.running then y.world.dev.totalFailures else s.failureAfter) == Min(s.failureBefore + Failures(y.io), U32_MAX)
  }

  ghost predicate MaskInv(y: Sys) {
    MaskRun(y.s.kind) ==>
      && y.s.available && (y.s.running ==> y.world.dev.bound)
      && StageInv(y.s, y.io) && Accounted(y)
  }

  // ---- one tick ------------------------------------------------------------------------

  ghost predicate Grew(y: Sys, y': Sys, e: Event) {
    && (e.Wrote? || e.ReadBack?) && y'.io == y.io + [e] && y'.world.dev.bound
    && y'.s.target == y.s.target && y'.s.kind == y.s.kind
    && (y'.s.transferSuccesses, y'.s.transferFailures) ==
       (if e.status.IsOk() then (Inc(y.s.transferSuccesses), y.s.transferFailures)
        else (y.s.transferSuccesses, Inc(y.s.transferFailures)))
    && y'.s.successBefore == y.s.successBefore && y'.s.failureBefore == y.s.failureBefore
    && (if y'.s.running then y'.world.dev.totalSuccess else y'.s.successAfter)
       == Min(y.world.dev.totalSuccess + (if Tracked(e) && e.status.IsOk() then 1 else 0), U32_MAX)
    && (if y'.s.running then y'.world.dev.totalFailures else y'.s.failureAfter)
       == Min(y.world.dev.totalFailures + (if Tracked(e) && !e.status.IsOk() then 1 else 0), U32_MAX)
  }

  lemma GrewStaysAccounted(y: Sys, y': Sys, e: Event)
    requires y.s.running && Accounted(y) && Grew(y, y', e)
    requires |y.io| + 1 <= Position(y.s.kind, y.s.target, 0) + 2
    ensures Accounted(y')
  {
    ExtendTransfers(y.io, e);
    ExtendCounts(y.io, e);
  }

  lemma WriteGrows(y: Sys, mask: Byte, r: Reply)
    requires y.s.running && y.world.dev.bound
    ensures var (y1, st) := Write(y, mask, r); var e := Wrote(mask, st);
            && Grew(y, y1, e) && (st.IsOk() <==> Meets(e, WantWrite(mask)))
            && y1.s == y.s.(transferSuccesses := y1.s.transferSuccesses, transferFailures := y1.s.transferFailures)
            && (st.IsOk() ==> y1.world.hw == mask)
  {
  }

  lemma ReadGrows(y: Sys, out: Byte, tracked: bool, r: Reply)
    requires y.s.running && y.world.dev.bound
    ensures var (y1, st, b) := Read(y, out, tracked, r); var e := ReadBack(y.world.hw, st, tracked);
            && Grew(y, y1, e) && (st.IsOk() <==> Meets(e, if tracked then WantCapture else WantProbe))
            && (st.IsOk() ==> b == y.world.hw) && y1.world.hw == y.world.hw
            && y1.s == y.s.(transferSuccesses := y1.s.transferSuccesses, transferFailures := y1.s.transferFailures)
  {
  }

  lemma VerifyGrows(y: Sys, mask: Byte, r: Reply)
    requires y.s.running && y.world.dev.bound
    ensures var (y1, st) := VerifyMask(y, mask, r); var e := ReadBack(y.world.hw, MapTransportStatus(r.transport), true);
            && Grew(y, y1, e) && (st.IsOk() <==> Meets(e, WantRead(mask))) && y1.world.hw == y.world.hw
            && y1.s == y.s.(transferSuccesses := y1.s.transferSuccesses, transferFailures := y1.s.transferFailures)
  {
    ReadGrows(y, 0, true, r);
  }

  /** Position in the program, apart from what has been done so far. */
  predicate AtStep(y: Sys) {
    var s := y.s;
    && MaskRun(s.kind) && s.running && y.world.dev.bound && s.phase < RoundLength(s.kind)
    && (s.phase > 0 ==> s.expected == HeldByte(s.kind, s.completed, s.phase))
  }

  lemma PlannedPrimitive(s: Session)
    requires MaskRun(s.kind) && s.phase < RoundLength(s.kind)
    requires s.phase > 0 ==> s.expected == HeldByte(s.kind, s.completed, s.phase)
    ensures match Round(s.kind, s.completed)[s.phase]
            case WantWrite(m) => PrimitiveOf(s) == WriteOf(m)
            case WantRead(m) => PrimitiveOf(s) == VerifyHeld && s.expected == m
            case WantProbe => PrimitiveOf(s) == RawProbe
            case WantCapture => false
    ensures EndsRound(s) <==> s.phase + 1 == RoundLength(s.kind)
  {
    OneHot(s.completed % 8);
    MixBytes(s.completed);
  }

  lemma PrimitiveGrows(y: Sys, r: Reply)
    requires y.s.running && y.world.dev.bound
    ensures var (y1, st) := MaskPrimitive(y, r); var p := PrimitiveOf(y.s);
            && |y1.io| == |y.io| + 1 && Grew(y, y1, y1.io[|y.io|])
            && (st.IsOk() <==> Meets(y1.io[|y.io|], match p case WriteOf(m) => WantWrite(m)
                                                            case VerifyHeld => WantRead(y.s.expected)
                                                            case RawProbe => WantProbe))
            && Attempts(y1.io[|y.io|], match p case WriteOf(m) => WantWrite(m)
                                               case VerifyHeld => WantRead(y.s.expected)
                                               case RawProbe => WantProbe)
            && y1.s == y.s.(expected := if p.WriteOf? then p.mask else y.s.expected,
                            transferSuccesses := y1.s.transferSuccesses, transferFailures := y1.s.transferFailures)
  {
    match PrimitiveOf(y.s)
    case WriteOf(m) => WriteGrows(y.(s := y.s.(expected := m)), m, r);
    case VerifyHeld => VerifyGrows(y, y.s.expected, r);
    case RawProbe => ReadGrows(y, 0, false, r);
  }

  /** While working, the next primitive is the program's next step: it is the transfer the program
      asks for, and it succeeds exactly when the bus event is the one the program wants. */
  lemma PrimitiveIsNextStep(y: Sys, r: Reply)
    requires AtStep(y)
    ensures var (y1, st) := MaskPrimitive(y, r);
            && |y1.io| == |y.io| + 1 && Grew(y, y1, y1.io[|y.io|])
            && (st.IsOk() <==> Meets(y1.io[|y.io|], Round(y.s.kind, y.s.completed)[y.s.phase]))
            && Attempts(y1.io[|y.io|], Round(y.s.kind, y.s.completed)[y.s.phase])
            && y1.s == y.s.(expected := y1.s.expected, transferSuccesses := y1.s.transferSuccesses,
                            transferFailures := y1.s.transferFailures)
            && (!EndsRound(y.s) ==> y1.s.expected == HeldByte(y.s.kind, y.s.completed, y.s.phase + 1))
  {
    PlannedPrimitive(y.s);
    PrimitiveGrows(y, r);
    if !EndsRound(y.s) { HeldNext(y.s); }
  }

  lemma HeldNext(s: Session)
    requires MaskRun(s.kind) && s.phase + 1 < RoundLength(s.kind)
    ensures HeldByte(s.kind, s.completed, s.phase + 1)
            == match PrimitiveOf(s) case WriteOf(m) => m case _ => HeldByte(s.kind, s.completed, s.phase)
  {
    OneHot(s.completed % 8);
    MixBytes(s.completed);
  }

  lemma CaptureTick(y: Sys, t: TickIn)
    requires y.s.running && y.s.available && y.world.dev.bound && Capturing(y.s, y.io) && Accounted(y)
    ensures MaskInv(TickMasks(y, t)) && |TickMasks(y, t).io| == |y.io| + 1
    ensures TickMasks(y, t).s.target == y.s.target && TickMasks(y, t).s.kind == y.s.kind
  {
    var (y1, st, b) := Read(y, y.s.original, true, t.reply);
    var e := ReadBack(y.world.hw, st, true);
    ReadGrows(y, y.s.original, true, t.reply);
    var y' := TickMasks(y, t);
    GrewStaysAccounted(y, y', e);
    if st.IsOk() {
      assert y' == y1.(s := y1.s.(original := b, captured := true));
      SweepStart(y.s.target);
      assert Working(y'.s, y'.io);
    } else {
      assert NeverCaptured(y'.s, y'.io);
    }
  }

  lemma WorkSettles(y: Sys, t: TickIn) returns (y1: Sys, st: Status)
    requires AtStep(y) && y.s.primary.IsOk() && (y.s.kind.Sweep? <==> y.s.captured)
    ensures TickMasks(y, t) == JudgePrimitive(y1, st, EndsRound(y.s), t.ended)
    ensures |y1.io| == |y.io| + 1 && Grew(y, y1, y1.io[|y.io|])
    ensures st.IsOk() <==> Meets(y1.io[|y.io|], Round(y.s.kind, y.s.completed)[y.s.phase])
    ensures Attempts(y1.io[|y.io|], Round(y.s.kind, y.s.completed)[y.s.phase])
    ensures y1.s == y.s.(expected := y1.s.expected, transferSuccesses := y1.s.transferSuccesses,
                         transferFailures := y1.s.transferFailures)
    ensures !EndsRound(y.s) ==> y1.s.expected == HeldByte(y.s.kind, y.s.completed, y.s.phase + 1)
  {
    PrimitiveIsNextStep(y, t.reply);
    var p := MaskPrimitive(y, t.reply);
    y1, st := p.0, p.1;
  }

  lemma JudgedShape(y1: Sys, st: Status, last: bool, ended: u32)
    requires y1.s.primary.IsOk() && MaskRun(y1.s.kind) && (y1.s.kind.Sweep? <==> y1.s.captured)
    ensures var s := y1.s;
            JudgePrimitive(y1, st, last, ended) == y1.(s :=
              if !st.IsOk() then s.(primary := st, restoring := true, phase := 0)
              else if !last then s.(phase := s.phase + 1)
              else s.(completed := Inc(s.completed), phase := 0, restoring := s.restoring || Inc(s.completed) == s.target))
  {
  }

  lemma FollowsOn(y: Sys, e: Event)
    requires MaskRun(y.s.kind) && Working(y.s, y.io)
    ensures var (io, program, n) := (y.io + [e], Program(y.s.kind, y.s.target), |y.io|);
            var want := Round(y.s.kind, y.s.completed)[y.s.phase];
            && n < |program| && program[n] == want && Follows(io, program, n)
            && (Meets(e, want) ==> Follows(io, program, n + 1)) && EntryRead(y.s.kind, y.s.original, io)
  {
    ProgramAt(y.s.kind, y.s.target, y.s.completed, y.s.phase);
  }

  /** The next step failed: the body ends here. */
  lemma StepFailed(y: Sys, y': Sys, e: Event)
    requires MaskRun(y.s.kind) && y.s.running && Working(y.s, y.io) && y'.io == y.io + [e]
    requires Misses(e, Round(y.s.kind, y.s.completed)[y.s.phase])
    requires y'.s == y.s.(expected := y'.s.expected, transferSuccesses := y'.s.transferSuccesses,
                          transferFailures := y'.s.transferFailures, primary := y'.s.primary, restoring := true, phase := 0)
    requires !y'.s.primary.IsOk()
    ensures Cleaning(y'.s, y'.io)
  {
    FollowsOn(y, e);
    assert BodyDone(y'.s, y'.io);
  }

  /** The last step of the last round succeeded: the body is the whole program. */
  lemma RunFinished(y: Sys, y': Sys, e: Event)
    requires MaskRun(y.s.kind) && y.s.running && Working(y.s, y.io) && y'.io == y.io + [e]
    requires Meets(e, Round(y.s.kind, y.s.completed)[y.s.phase])
    requires y.s.phase + 1 == RoundLength(y.s.kind) && y.s.completed + 1 == y.s.target
    requires y'.s == y.s.(expected := y'.s.expected, transferSuccesses := y'.s.transferSuccesses,
                          transferFailures := y'.s.transferFailures, completed := y.s.target, restoring := true, phase := 0)
    ensures Cleaning(y'.s, y'.io)
  {
    FollowsOn(y, e);
    assert BodyDone(y'.s, y'.io);
  }

  /** Any other step succeeded: the run goes on with the following one. */
  lemma StepDone(y: Sys, y': Sys, e: Event)
    requires MaskRun(y.s.kind) && y.s.running && Working(y.s, y.io) && y'.io == y.io + [e]
    requires Meets(e, Round(y.s.kind, y.s.completed)[y.s.phase])
    requires y'.s == y.s.(expected := y'.s.expected, transferSuccesses := y'.s.transferSuccesses,
                          transferFailures := y'.s.transferFailures, completed := y'.s.completed, phase := y'.s.phase)
    requires if y.s.phase + 1 == RoundLength(y.s.kind) then y'.s.completed == y.s.completed + 1 < y.s.target && y'.s.phase == 0
             else y'.s.completed == y.s.completed && y'.s.phase == y.s.phase + 1
                  && y'.s.expected == HeldByte(y.s.kind, y.s.completed, y.s.phase + 1)
    ensures Working(y'.s, y'.io)
  {
    FollowsOn(y, e);
  }

  lemma SettledStage(y: Sys, y1: Sys, st: Status, last: bool, ended: u32)
    requires MaskRun(y.s.kind) && y.s.running && Working(y.s, y.io) && y1.io != [] && y1.io == y.io + [y1.io[|y1.io| - 1]]
    requires st.IsOk() <==> Meets(y1.io[|y.io|], Round(y.s.kind, y.s.completed)[y.s.phase])
    requires Attempts(y1.io[|y.io|], Round(y.s.kind, y.s.completed)[y.s.phase])
    requires last <==> y.s.phase + 1 == RoundLength(y.s.kind)
    requires y1.s == y.s.(expected := y1.s.expected, transferSuccesses := y1.s.transferSuccesses,
                          transferFailures := y1.s.transferFailures)
    requires !last ==> y1.s.expected == HeldByte(y.s.kind, y.s.completed, y.s.phase + 1)
    ensures var y' := JudgePrimitive(y1, st, last, ended); Working(y'.s, y'.io) || Cleaning(y'.s, y'.io)
  {
    JudgedShape(y1, st, last, ended);
    var y', e := JudgePrimitive(y1, st, last, ended), y1.io[|y.io|];
    if !st.IsOk() {
      StepFailed(y, y', e);
    } else if last && y.s.completed + 1 == y.s.target {
      RunFinished(y, y', e);
    } else {
      StepDone(y, y', e);
    }
  }

  lemma SettledAccounts(y: Sys, y1: Sys, st: Status, last: bool, ended: u32)
    requires y1.s.primary.IsOk() && MaskRun(y1.s.kind) && (y1.s.kind.Sweep? <==> y1.s.captured) && y1.s.available
    requires y.s.running && y1.s.running && Accounted(y) && |y1.io| > |y.io| && Grew(y, y1, y1.io[|y.io|])
    requires |y.io| + 1 <= Position(y.s.kind, y.s.target, 0) + 2
    ensures var y' := JudgePrimitive(y1, st, last, ended);
            && Accounted(y') && y'.s.kind == y.s.kind && y'.s.target == y.s.target && y'.io == y1.io
            && y'.s.running && y'.s.available && y'.world.dev.bound
  {
    JudgedShape(y1, st, last, ended);
    GrewStaysAccounted(y, JudgePrimitive(y1, st, last, ended), y1.io[|y.io|]);
  }

  lemma WorkTick(y: Sys, t: TickIn)
    requires MaskRun(y.s.kind) && y.s.running && y.s.available && y.world.dev.bound && Working(y.s, y.io) && Accounted(y)
    ensures MaskInv(TickMasks(y, t)) && |TickMasks(y, t).io| == |y.io| + 1
    ensures TickMasks(y, t).s.target == y.s.target && TickMasks(y, t).s.kind == y.s.kind
  {
    var y1, st := WorkSettles(y, t);
    var last, y' := EndsRound(y.s), TickMasks(y, t);
    assert Working(y'.s, y'.io) || Cleaning(y'.s, y'.io) by {
      PlannedPrimitive(y.s);
      SettledStage(y, y1, st, last, t.ended);
    }
    SettledAccounts(y, y1, st, last, t.ended);
  }

  lemma CleaningStage(y: Sys, y': Sys, st: Status)
    requires Cleaning(y.s, y.io) && y.s.phase == 0 && y'.io == y.io + [Wrote(SafeMask(y.s), st)]
    requires y'.s == y.s.(cleanup := st, phase := 1, transferSuccesses := y'.s.transferSuccesses,
                          transferFailures := y'.s.transferFailures)
    ensures Cleaning(y'.s, y'.io)
  {
    assert y'.io[..|y'.io| - 1] == y.io;
  }

  lemma CleanWrite(y: Sys, t: TickIn)
    requires MaskRun(y.s.kind) && y.s.running && y.s.available && y.world.dev.bound
    requires Cleaning(y.s, y.io) && y.s.phase == 0 && Accounted(y)
    ensures MaskInv(TickCleanup(y, t)) && |TickCleanup(y, t).io| == |y.io| + 1
    ensures TickCleanup(y, t).s.target == y.s.target && TickCleanup(y, t).s.kind == y.s.kind
  {
    var y' := TickCleanup(y, t);
    WriteGrows(y, SafeMask(y.s), t.reply);
    CleaningStage(y, y', MapTransportStatus(t.reply.transport));
    GrewStaysAccounted(y, y', Wrote(SafeMask(y.s), MapTransportStatus(t.reply.transport)));
  }

  lemma CleanedStage(y: Sys, y': Sys, e: Event)
    requires Cleaning(y.s, y.io) && y.s.phase == 1 && y'.io == y.io + [e] && e.ReadBack? && e.tracked
    requires y'.s.cleanup.IsOk() <==> y.s.cleanup.IsOk() && Meets(e, WantRead(SafeMask(y.s)))
    requires y'.s == y.s.(running := false, cleanup := y'.s.cleanup, endedMs := y'.s.endedMs,
                          successAfter := y'.s.successAfter, failureAfter := y'.s.failureAfter,
                          transferSuccesses := y'.s.transferSuccesses, transferFailures := y'.s.transferFailures)
    ensures Cleaned(y'.s, y'.io)
  {
    assert y'.io[..|y'.io| - 2] == y.io[..|y.io| - 1];
  }

  lemma CleanRead(y: Sys, t: TickIn)
    requires MaskRun(y.s.kind) && y.s.running && y.s.available && y.world.dev.bound
    requires Cleaning(y.s, y.io) && y.s.phase == 1 && Accounted(y)
    ensures MaskInv(TickCleanup(y, t)) && |TickCleanup(y, t).io| == |y.io| + 1
    ensures TickCleanup(y, t).s.target == y.s.target && TickCleanup(y, t).s.kind == y.s.kind
    ensures !TickCleanup(y, t).s.running
    ensures TickCleanup(y, t).s.cleanup.IsOk() ==> TickCleanup(y, t).world.hw == SafeMask(y.s)
  {
    var y', e := TickCleanup(y, t), ReadBack(y.world.hw, MapTransportStatus(t.reply.transport), true);
    VerifyGrows(y, SafeMask(y.s), t.reply);
    CleanedStage(y, y', e);
    GrewStaysAccounted(y, y', e);
  }

  /** Every tick of a mask run performs exactly one bus primitive and keeps the run on its program. */
  lemma MaskTick(y: Sys, t: TickIn)
    requires MaskRun(y.s.kind) && y.s.running && MaskInv(y)
    ensures MaskInv(Tick(y, t)) && |Tick(y, t).io| == |y.io| + 1
    ensures Tick(y, t).s.target == y.s.target && Tick(y, t).s.kind == y.s.kind
  {
    if y.s.restoring {
      if y.s.phase == 0 { CleanWrite(y, t); } else { CleanRead(y, t); }
    } else if Working(y.s, y.io) {
      WorkTick(y, t);
    } else {
      CaptureTick(y, t);
    }
  }

  lemma StopWorking(y: Sys, env: LineEnv)
    requires MaskRun(y.s.kind) && y.s.running && Working(y.s, y.io) && y.s.target >= 1
    ensures StopSession(y, env) == y.(s := y.s.(cancelled := true, primary := CANCELLED_STATUS, restoring := true, phase := 0))
    ensures Cleaning(StopSession(y, env).s, StopSession(y, env).io)
  {
    var y' := y.(s := y.s.(cancelled := true, primary := CANCELLED_STATUS, restoring := true, phase := 0));
    ProgramAt(y.s.kind, y.s.target, y.s.completed, y.s.phase);
    assert BodyDone(y'.s, y'.io);
  }

  lemma MaskStop(y: Sys, env: LineEnv)
    requires MaskRun(y.s.kind) && y.s.running && MaskInv(y)
    ensures MaskInv(StopSession(y, env))
  {
    if !y.s.restoring {
      if Working(y.s, y.io) {
        StopWorking(y, env);
      } else {
        assert NeverCaptured(StopSession(y, env).s, StopSession(y, env).io);
      }
    }
  }
}
