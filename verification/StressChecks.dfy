/** The runner's reading of a stress printout. */
module StressChecks {
  import opened Base
  import opened StatusCodes
  import opened DriverSpec
  import opened Engine
  import opened MaskRuns
  import opened EngineRuns
  import opened SessionTheorems

  // ---- stress evidence -----------------------------------------------------------------------

  /** Rows of a printout that satisfy `p`, in order: a findall. */
  function FindAll(rows: seq<Row>, p: Row -> bool): seq<Row> {
    if rows == [] then []
    else FindAll(rows[..|rows| - 1], p) + if p(rows[|rows| - 1]) then [rows[|rows| - 1]] else []
  }

  predicate BusCode(e: Err) {
    e.I2cError? || e.I2cTimeout? || e.I2cBus? || e.I2cNackAddr? || e.I2cNackData? || e.DeviceNotFound?
    || e.NotInitialized? || e.InvalidConfig? || e.InvalidParam? || e.ResetError? || e.ResetStateMismatch?
  }

  /** A row that a failure pattern common to all steps matches, or that framing refuses before them:
      a marker the runner has not asked for. */
  predicate CommonAlarm(r: Row) {
    match r
    case StressResults(_, _, _, safeOff) => !safeOff
    case HealthDelta(_, failure) => failure > 0
    case SessionTransfers(_, failure) => failure > 0
    case SafeOffUnverified => true
    case ScanDone(_, _, _, errors) => errors > 0
    case Detection(_, _, _, errors, _, _) => errors > 0
    case SweepResult(_, _, pass) => !pass
    case CliResult(_, outcome, _, _) => !outcome.Passed?
    case Complaint => true
    case MarkerShown => true
    case Echoed(token) => token.FailureToken?
    case CountersShown(failures) => failures > 0
    case _ => false
  }

  /** A row that names a bus error. */
  predicate StatusAlarm(r: Row) {
    match r
    case StressResults(_, _, code, _) => BusCode(code)
    case PrimaryResult(st) => BusCode(st.code)
    case CleanupResult(st) => BusCode(st.code)
    case CleanupReadback(st) => BusCode(st.code)
    case Topology(st, _) => BusCode(st.code)
    case ScanError(_, st) => BusCode(st.code)
    case Echoed(token) => token.ErrorToken?
    case HealthShown(st) => BusCode(st.code)
    case _ => false
  }

  predicate Alarming(r: Row) {
    CommonAlarm(r) || StatusAlarm(r)
  }

  predicate NoAlarm(rows: seq<Row>) {
    forall r :: r in rows ==> !Alarming(r)
  }

  predicate IsResult(r: Row) {
    r.StressResults? && r.completed <= 9999 && r.requested <= 9999
  }

  predicate IsCleanDelta(r: Row) {
    r.HealthDelta? && r.failure == 0
  }

  predicate IsTransfers(r: Row) {
    r.SessionTransfers?
  }

  /** The stress arm of `classify` for `stress count` or `stress_mix count`. */
  predicate StressAccepted(rows: seq<Row>, mix: bool, count: u32) {
    var transfers := FindAll(rows, IsTransfers);
    && NoAlarm(rows)
    && FindAll(rows, IsResult) == [StressResults(count, count, Err.Ok, true)]
    && |FindAll(rows, IsCleanDelta)| == 1
    && |transfers| == 1 && transfers[0].SessionTransfers?
    && transfers[0].failure == 0 && transfers[0].success == (if mix then 7 else 2) * count + 2
  }

  lemma {:induction false} SelectJoin(a: seq<Row>, b: seq<Row>, p: Row -> bool)
    ensures FindAll(a + b, p) == FindAll(a, p) + FindAll(b, p)
    decreases |b|
  {
    if b == [] {
      assert a + b == a;
    } else {
      SelectJoin(a, b[..|b| - 1], p);
      assert (a + b)[..|a + b| - 1] == a + b[..|b| - 1];
    }
  }

  lemma {:induction false} SelectNone(a: seq<Row>, p: Row -> bool)
    requires forall r :: r in a ==> !p(r)
    ensures FindAll(a, p) == []
    decreases |a|
  {
    if a != [] { SelectNone(a[..|a| - 1], p); }
  }

  lemma OwnOrMet(y: Sys)
    requires RowsOk(y) && !y.s.running && y.s.available
    ensures var n := |y.rows| - |FinalRows(y.s)|;
            && n >= 0 && y.rows == y.rows[..n] + FinalRows(y.s)
            && forall r :: r in y.rows[..n] ==> Opening(r) || Interjected(r)
  {
    var n := |y.rows| - |FinalRows(y.s)|;
    assert y.rows == y.rows[..n] + y.rows[n..];
    assert AllFit(y.s, y.met, y.rows[..n]);
  }

  /** What an ended session's printout is made of. */
  lemma PrintedRows(y: Sys)
    requires RowsOk(y) && !y.s.running && y.s.available
    ensures forall r :: r in y.met || r in FinalRows(y.s) ==> r in y.rows
    ensures forall r :: r in y.rows ==> r in FinalRows(y.s) || Fits(y.s, y.met, r)
  {
    var n := |y.rows| - |FinalRows(y.s)|;
    var body := y.rows[..n];
    assert AllFit(y.s, y.met, body);
    assert y.rows == body + FinalRows(y.s);
    assert forall r :: r in y.rows <==> r in body || r in FinalRows(y.s);
  }

  /** The printout of an ended session closes with its final rows, and no other row is of a closing kind. */
  lemma SelectFinal(y: Sys, p: Row -> bool)
    requires RowsOk(y) && !y.s.running && y.s.available
    requires forall r :: Opening(r) || Interjected(r) ==> !p(r)
    ensures FindAll(y.rows, p) == FindAll(FinalRows(y.s), p)
  {
    OwnOrMet(y);
    SelectAfter(y.rows[..|y.rows| - |FinalRows(y.s)|], FinalRows(y.s), p);
  }

  lemma SelectAfter(a: seq<Row>, b: seq<Row>, p: Row -> bool)
    requires forall r :: r in a ==> !p(r)
    ensures FindAll(a + b, p) == FindAll(b, p)
  {
    SelectNone(a, p);
    SelectJoin(a, b, p);
  }

  /** A findall whose only possible match is the row at `k`. */
  lemma {:induction false} SelectUnique(f: seq<Row>, k: nat, p: Row -> bool)
    requires k < |f| && forall i :: 0 <= i < |f| && i != k ==> !p(f[i])
    ensures FindAll(f, p) == if p(f[k]) then [f[k]] else []
    decreases |f|
  {
    var n := |f| - 1;
    if k == n {
      SelectNone(f[..n], p);
    } else {
      SelectUnique(f[..n], k, p);
    }
  }

  function ResultRow(s: Session): Row {
    StressResults(s.completed, s.target, if !s.primary.IsOk() then s.primary.code else s.cleanup.code, s.cleanup.IsOk())
  }

  function DeltaRow(s: Session): Row {
    HealthDelta(Sub32(s.successAfter, s.successBefore), Sub32(s.failureAfter, s.failureBefore))
  }

  function TransfersRow(s: Session): Row {
    SessionTransfers(s.transferSuccesses, s.transferFailures)
  }

  /** The five rows of a stress summary that the searches look through. */
  function CounterRows(s: Session): (rows: seq<Row>)
    ensures |rows| == 5
  {
    [ResultRow(s), Duration(Sub32(s.endedMs, s.startedMs)), DeltaRow(s),
     DeltaSaturated(s.successAfter == U32_MAX || s.failureAfter == U32_MAX), TransfersRow(s)]
  }

  predicate Elsewhere(r: Row) {
    !r.StressResults? && !r.HealthDelta? && !r.SessionTransfers?
  }

  /** The last rows of a stress session. */
  lemma StressRows(s: Session) returns (head: seq<Row>, tail: seq<Row>)
    requires (s.kind.Stress? || s.kind.Mix?) && s.available
    ensures FinalRows(s) == head + CounterRows(s) + tail
    ensures forall r :: r in head || r in tail ==> Elsewhere(r)
  {
    head := if s.kind.Mix? then [MixBanner] else [];
    tail := (if s.cleanup.IsOk() then [] else [SafeOffUnverified]) + StatRows(s, 0)
            + [CliResult(s.kind, OutcomeOf(s), s.completed, s.target)];
  }

  /** A findall over an ended session's printout whose only possible match is final row `k`. */
  lemma FinalFinding(y: Sys, f: seq<Row>, k: nat, p: Row -> bool)
    requires RowsOk(y) && !y.s.running && y.s.available && f == FinalRows(y.s) && k < |f|
    requires forall r :: Opening(r) || Interjected(r) ==> !p(r)
    requires forall i :: 0 <= i < |f| && i != k ==> !p(f[i])
    ensures FindAll(y.rows, p) == if p(f[k]) then [f[k]] else []
  {
    SelectFinal(y, p);
    SelectUnique(f, k, p);
  }

  ghost predicate EndedStress(y: Sys) {
    RowsOk(y) && !y.s.running && y.s.available && (y.s.kind.Stress? || y.s.kind.Mix?)
  }

  /** What the stress arm finds in the printout of an ended stress session. */
  lemma CounterFinding(y: Sys, k: nat, p: Row -> bool)
    requires EndedStress(y) && k < 5
    requires forall r :: Opening(r) || Interjected(r) || Elsewhere(r) ==> !p(r)
    requires forall i :: 0 <= i < 5 && i != k ==> !p(CounterRows(y.s)[i])
    ensures var r := CounterRows(y.s)[k]; FindAll(y.rows, p) == if p(r) then [r] else []
  {
    var head, tail := StressRows(y.s);
    var c := CounterRows(y.s);
    SelectFinal(y, p);
    SelectJoin(head + c, tail, p);
    SelectJoin(head, c, p);
    SelectNone(head, p);
    SelectNone(tail, p);
    SelectUnique(c, k, p);
  }

  lemma ResultsFound(y: Sys)
    requires EndedStress(y)
    ensures FindAll(y.rows, IsResult) == if IsResult(ResultRow(y.s)) then [ResultRow(y.s)] else []
  {
    CounterFinding(y, 0, IsResult);
  }

  lemma CleanDeltasFound(y: Sys)
    requires EndedStress(y)
    ensures FindAll(y.rows, IsCleanDelta) == if IsCleanDelta(DeltaRow(y.s)) then [DeltaRow(y.s)] else []
  {
    CounterFinding(y, 2, IsCleanDelta);
  }

  lemma TransfersFound(y: Sys)
    requires EndedStress(y)
    ensures FindAll(y.rows, IsTransfers) == [TransfersRow(y.s)]
  {
    CounterFinding(y, 4, IsTransfers);
  }

  lemma QuietJoin(a: seq<Row>, b: seq<Row>)
    ensures NoAlarm(a + b) <==> NoAlarm(a) && NoAlarm(b)
  {
    assert forall r :: r in a + b <==> r in a || r in b;
  }

  lemma QuietRow(r: Row)
    ensures NoAlarm([r]) <==> !Alarming(r)
  {
    assert r in [r];
  }

  lemma RunRowsAlarm(s: Session, now: u32)
    ensures NoAlarm(RunRows(s, now)) <==> !BusCode(s.primary.code) && !BusCode(s.cleanup.code)
  {
    QuietFour(RunLine(s.kind, s.running, s.completed, s.target, s.cancelled,
                      Sub32(if s.running then now else s.endedMs, s.startedMs)),
              PrimaryResult(s.primary), CleanupLine(CleanupStateOf(s)), CleanupResult(s.cleanup));
  }

  lemma EvidenceRowsAlarm(s: Session)
    ensures NoAlarm(EvidenceRows(s)) <==> !(ScanRun(s.kind) && s.scanErrors > 0)
  {
    QuietPair(DetectionRow(s), Candidates(s.candidateAcks));
  }

  lemma StatRowsAlarm(s: Session, now: u32)
    ensures NoAlarm(StatRows(s, now)) <==>
              !(s.available && (BusCode(s.primary.code) || BusCode(s.cleanup.code) || (ScanRun(s.kind) && s.scanErrors > 0)))
  {
    QuietRow(NoStatistics);
    RunRowsAlarm(s, now);
    EvidenceRowsAlarm(s);
    QuietJoin(RunRows(s, now), EvidenceRows(s));
  }

  lemma QuietFour(a: Row, b: Row, c: Row, d: Row)
    ensures NoAlarm([a, b, c, d]) <==> !Alarming(a) && !Alarming(b) && !Alarming(c) && !Alarming(d)
  {
    QuietPair(a, b);
    QuietPair(c, d);
    QuietJoin([a, b], [c, d]);
    assert [a, b] + [c, d] == [a, b, c, d];
  }

  lemma QuietPair(a: Row, b: Row)
    ensures NoAlarm([a, b]) <==> !Alarming(a) && !Alarming(b)
  {
    QuietRow(a);
    QuietRow(b);
    QuietJoin([a], [b]);
    assert [a] + [b] == [a, b];
  }

  lemma SummaryQuiet(s: Session)
    requires (s.kind.Stress? || s.kind.Mix?) && OutcomeOf(s).Passed?
    requires s.transferFailures == 0 && Sub32(s.failureAfter, s.failureBefore) == 0
    ensures NoAlarm(SummaryRows(s))
  {
  }

  lemma FinalRowsQuiet(s: Session)
    requires OutcomeOf(s).Passed? && NoAlarm(SummaryRows(s)) && (ScanRun(s.kind) ==> s.scanErrors == 0)
    ensures NoAlarm(FinalRows(s))
  {
    StatRowsAlarm(s, 0);
    var last := CliResult(s.kind, OutcomeOf(s), s.completed, s.target);
    QuietJoin(SummaryRows(s), StatRows(s, 0));
    QuietRow(last);
    QuietJoin(SummaryRows(s) + StatRows(s, 0), [last]);
  }

  /** A passed session's printout matches a failure pattern only in what lines met meanwhile printed. */
  lemma PassedIsQuiet(y: Sys)
    requires RowsOk(y) && !y.s.running && y.s.available && Clean(y.s)
    requires NoAlarm(FinalRows(y.s))
    ensures NoAlarm(y.rows) <==> NoAlarm(y.met)
  {
    PrintedRows(y);
    assert forall r :: Harmless(r) ==> !Alarming(r);
  }

  lemma MetIsPrinted(y: Sys)
    requires RowsOk(y) && !y.s.running && y.s.available
    ensures (forall r :: r in y.met ==> r in y.rows) && (NoAlarm(y.rows) ==> NoAlarm(y.met))
  {
    var body := y.rows[..|y.rows| - |FinalRows(y.s)|];
    assert AllFit(y.s, y.met, body);
    assert forall r :: r in body ==> r in y.rows;
  }

  /** The verdict of an ended session is printed. */
  lemma ResultIsPrinted(y: Sys)
    requires RowsOk(y) && !y.s.running && y.s.available
    ensures CliResult(y.s.kind, OutcomeOf(y.s), y.s.completed, y.s.target) in y.rows
  {
    var f, m := FinalRows(y.s), |y.rows|;
    assert f[|f| - 1] == CliResult(y.s.kind, OutcomeOf(y.s), y.s.completed, y.s.target);
    assert y.rows[m - |f|..][|f| - 1] == y.rows[m - 1];
  }

  lemma StressVerdict(y: Sys)
    requires EndedStress(y)
    requires 1 <= y.s.target <= MAX_COUNT && (y.s.cancelled ==> !y.s.primary.IsOk())
    requires y.s.primary.IsOk() ==> y.s.completed == y.s.target
    requires OutcomeOf(y.s).Passed? ==>
      y.s.transferSuccesses == (if y.s.kind.Mix? then 7 else 2) * y.s.target + 2 && y.s.transferFailures == 0
      && Sub32(y.s.failureAfter, y.s.failureBefore) == 0
    ensures StressAccepted(y.rows, y.s.kind.Mix?, y.s.target) <==> OutcomeOf(y.s).Passed? && NoAlarm(y.met)
  {
    ResultsFound(y);
    CleanDeltasFound(y);
    TransfersFound(y);
    MetIsPrinted(y);
    if OutcomeOf(y.s).Passed? {
      SummaryQuiet(y.s);
      FinalRowsQuiet(y.s);
      PassedIsQuiet(y);
    }
  }

  /** Firmware and runner agree on work done: over every run of the engine and every count the
      dispatcher accepts, the runner accepts an ended stress printout exactly when the session
      passed and no line met during it printed a row that matches a failure pattern; and a passed
      session did the work the runner's count formula asks for. */
  lemma RunnerAcceptsExactlyQuietPassedStress(w: World, staged: Byte, inputs: seq<Input>)
    ensures var y := RunAll(Boot(w, staged), inputs); var mix := y.s.kind.Mix?;
            (y.s.kind.Stress? || mix) && !y.s.running ==>
              && (StressAccepted(y.rows, mix, y.s.target) <==>
                    OutcomeOf(y.s).Passed? && NoAlarm(MetRows(Boot(w, staged), inputs)))
              && (OutcomeOf(y.s).Passed? ==> |y.io| == (if mix then 7 else 2) * y.s.target + 2)
  {
    InvHolds(w, staged, inputs);
    MetIsSaid(w, staged, inputs);
    PassedRunsAreFullyCounted(w, staged, inputs);
    var y := RunAll(Boot(w, staged), inputs);
    if (y.s.kind.Stress? || y.s.kind.Mix?) && !y.s.running {
      assert Cleaned(y.s, y.io);
      StressVerdict(y);
    }
  }

  /** Which lines alarm when met during a session: every discarded, undispatched or misused one; a
      marker; an echoed token that does; a health report with a bus error in its sticky error; transfer
      counters with failures; statistics of a session that already has an error. */
  predicate Spoils(y: Sys, i: Input) {
    match i
    case DiscardedLine => true
    case LineInput(c, _) =>
      (match c
       case Rejected => true
       case Invalid => true
       case StatsReset => true
       case HilMark => true
       case Unknown(token) => !token.PlainToken?
       case ShowHealth => BusCode(y.world.dev.lastError.code)
       case ShowCounters(failures) => failures > 0
       case ShowStats => y.s.available && (BusCode(y.s.primary.code) || BusCode(y.s.cleanup.code)
                                           || (ScanRun(y.s.kind) && y.s.scanErrors > 0))
       case _ => false)
    case _ => false
  }

  lemma SpoilingLines(y: Sys, i: Input)
    ensures NoAlarm(Said(y, i)) <==> !Spoils(y, i)
  {
    if i.LineInput? && i.c.ShowStats? {
      StatRowsAlarm(y.s, i.env.shown);
    } else if Said(y, i) != [] {
      QuietRow(Said(y, i)[0]);
      assert Said(y, i) == [Said(y, i)[0]];
    }
  }
}
