/** The runner's reading of a scan printout. */
module ScanChecks {
  import opened Base
  import opened StatusCodes
  import opened DriverSpec
  import opened Engine
  import opened MaskRuns
  import opened ScanRuns
  import opened EngineRuns
  import opened StressChecks
  import opened DiscoveryChecks

  /** "Scan topology: OK" */
  predicate IsOkTopology(r: Row) {
    r.Topology? && r.status.IsOk()
  }

  /** "Scanning I2C bus" */
  predicate IsScanning(r: Row) {
    r.Scanning?
  }

  /** "Scan complete: devices=N errors=M" */
  predicate IsScanDone(r: Row) {
    r.ScanDone? && r.kind.Scan? && r.complete
  }

  /** No failure pattern of the step matches: a scan of the plan looks for the common ones only, a
      scan of a mask procedure (`strict`) for named bus errors as well. */
  predicate Silent(rows: seq<Row>, strict: bool) {
    forall r :: r in rows ==> !CommonAlarm(r) && !(strict && StatusAlarm(r))
  }

  /** The scan arm of `classify`. */
  ghost predicate ScanAccepted(rows: seq<Row>, strict: bool) {
    var done, addresses := FindAll(rows, IsScanDone), FoundIn(rows);
    && Silent(rows, strict)
    && |FindAll(rows, IsScanning)| >= 1
    && |done| == 1 && done[0].ScanDone? && done[0].errors == 0 && done[0].devices == |addresses|
    && Distinct(addresses) && (forall a :: a in addresses ==> 0x08 <= a <= 0x77)
    && |FindAll(rows, IsOkTopology)| == 1
  }

  // ---- the topology rows ---------------------------------------------------------------

  predicate IsLandmark(r: Row) {
    IsOkTopology(r) || IsScanning(r)
  }

  /** A scan past its topology read has printed that read and the line that follows it, once each. */
  ghost predicate Landmarked(y: Sys) {
    y.s.kind.Scan? ==>
      var l := FindAll(y.rows, IsLandmark);
      if y.s.phase == 0 then l == [] else |l| == 2 && IsOkTopology(l[0]) && l[1] == Scanning
  }

  lemma NoLandmark(rows: seq<Row>, more: seq<Row>)
    requires forall r :: r in more ==> !IsLandmark(r)
    ensures FindAll(rows + more, IsLandmark) == FindAll(rows, IsLandmark)
  {
    SelectNone(more, IsLandmark);
    SelectJoin(rows, more, IsLandmark);
  }

  lemma FinalRowsNoLandmark(s: Session)
    ensures forall r :: r in FinalRows(s) ==> !IsLandmark(r)
  {
  }

  lemma LandmarkedFinish(y: Sys, ended: u32, inCommand: bool)
    requires Landmarked(y)
    ensures Landmarked(Finish(y, ended, inCommand))
  {
    var s := Finish(y, ended, inCommand).s;
    FinalRowsNoLandmark(s);
    NoLandmark(y.rows, FinalRows(s));
  }

  lemma LandmarkedPair(rows: seq<Row>, t: Row)
    requires FindAll(rows, IsLandmark) == [] && IsOkTopology(t)
    ensures FindAll(rows + [t] + [Scanning], IsLandmark) == [t, Scanning]
  {
    SelectJoin(rows, [t], IsLandmark);
    SelectJoin(rows + [t], [Scanning], IsLandmark);
    assert [t][..0] == [] && [Scanning][..0] == [];
  }

  /** A topology tick is a read, then the two rows of success or a failed end. */
  lemma TopologySplit(y: Sys, t: TickIn) returns (z: Sys, row: Row)
    requires y.s.kind.Scan? && y.s.running && y.s.primary.IsOk()
    ensures row.Topology? && z.rows == y.rows + [row] && z.s.kind == y.s.kind && z.s.phase == y.s.phase
    ensures if row.status.IsOk() then ScanTopology(y, t) == z.(s := z.s.(phase := 1), rows := z.rows + [Scanning])
            else ScanTopology(y, t) == Finish(z, t.ended, false)
  {
    var (y1, read, mask) := Read(y, 0, true, t.reply);
    row := Topology(read, mask);
    z := y1.(rows := y1.rows + [row], s := if read.IsOk() then y1.s else y1.s.(primary := read));
  }

  lemma LandmarkedTopology(y: Sys, t: TickIn)
    requires y.s.kind.Scan? && y.s.running && y.s.phase == 0 && Landmarked(y) && y.s.primary.IsOk()
    ensures Landmarked(ScanTopology(y, t))
  {
    var z, row := TopologySplit(y, t);
    if row.status.IsOk() {
      LandmarkedPair(y.rows, row);
    } else {
      NoLandmark(y.rows, [row]);
      LandmarkedFinish(z, t.ended, false);
    }
  }

  lemma LandmarkedAddress(y: Sys, t: TickIn)
    requires y.s.kind.Scan? && Landmarked(y)
    ensures Landmarked(ScanAddress(y, t))
  {
    NoLandmark(y.rows, ProbeRows(y.s.address, t.probe));
    LandmarkedFinish(Visited(y, t.probe), t.ended, false);
  }

  lemma LandmarkedMeet(y: Sys, printed: seq<Row>)
    requires Landmarked(y) && forall r :: r in printed ==> Interjected(r)
    ensures Landmarked(Meet(y, printed))
  {
    NoLandmark(y.rows, printed);
  }

  lemma LandmarkedStop(y: Sys, env: LineEnv)
    requires y.s.kind.Scan? && y.s.running && Landmarked(y)
    ensures Landmarked(StopSession(y, env))
  {
    var y1 := y.(s := y.s.(cancelled := true));
    LandmarkedFinish(y1.(s := y1.s.(primary := CANCELLED_STATUS)), env.ended, true);
    LandmarkedFinish(y1, env.ended, true);
  }

  lemma LandmarkedStopped(y: Sys, env: LineEnv)
    requires Landmarked(y)
    ensures Landmarked(StopSession(y, env))
  {
    if y.s.running && y.s.kind.Scan? { LandmarkedStop(y, env); }
  }

  lemma StartedNoLandmark(k: RunKind, count: u32)
    ensures FindAll([Started(k, count)], IsLandmark) == []
  {
    SelectNone([Started(k, count)], IsLandmark);
  }

  /** A line met while idle starts a session, forgets the last one or leaves it. */
  lemma IdleRows(y: Sys, c: Command, env: LineEnv)
    requires !y.s.running && !c.Stop?
    ensures var y' := Dispatch(y, c, env);
            || (y'.s == y.s && y'.rows == y.rows) || y'.s == NO_SESSION
            || (c.Launch? && y'.s.phase == 0 && y'.rows == [Started(c.kind, c.count)])
  {
  }

  lemma LandmarkedIdle(y: Sys, c: Command, env: LineEnv)
    requires Landmarked(y) && !y.s.running && !c.Stop?
    ensures Landmarked(Dispatch(y, c, env))
  {
    IdleRows(y, c, env);
    if c.Launch? { StartedNoLandmark(c.kind, c.count); }
  }

  lemma LandmarkedLine(y: Sys, c: Command, env: LineEnv)
    requires Landmarked(y)
    ensures Landmarked(Dispatch(y, c, env))
  {
    if c.Stop? {
      LandmarkedStopped(y, env);
    } else if y.s.running {
      SaidInterjects(y, LineInput(c, env));
      LandmarkedMeet(y, Interjection(y, c, env));
    } else {
      LandmarkedIdle(y, c, env);
    }
  }

  lemma LandmarkedTick(y: Sys, t: TickIn)
    requires Landmarked(y) && Inv(y) && y.s.running
    ensures Landmarked(Tick(y, t))
  {
    if !y.s.kind.Scan? {
      TickKeepsKind(y, t);
    } else {
      NeverRestoring(y);
      if y.s.phase == 0 {
        LandmarkedTopology(y, t);
      } else {
        LandmarkedAddress(y, t);
      }
    }
  }

  lemma NeverRestoring(y: Sys)
    requires Inv(y) && y.s.running && y.s.kind.Scan?
    ensures !y.s.restoring && y.s.primary.IsOk()
  {
  }

  lemma LandmarkedSame(y: Sys, y': Sys)
    requires Landmarked(y) && y'.s == y.s && y'.rows == y.rows
    ensures Landmarked(y')
  {
  }

  lemma LandmarkedStep(y: Sys, i: Input)
    requires Landmarked(y) && Inv(y)
    ensures Landmarked(Step(y, i))
  {
    match i
    case TickInput(t) => if y.s.running { LandmarkedTick(y, t); }
    case LineInput(c, env) =>
      LandmarkedLine(y, c, env);
      if !c.Blank? { LandmarkedSame(Dispatch(y, c, env), Step(y, i)); }
    case DiscardedLine =>
      LandmarkedMeet(y, [Complaint]);
      LandmarkedSame(Meet(y, [Complaint]), Step(y, i));
    case Drift(_) => LandmarkedSame(y, Step(y, i));
  }

  lemma TickKeepsKind(y: Sys, t: TickIn)
    requires Inv(y) && y.s.running
    ensures Tick(y, t).s.kind == y.s.kind
  {
    if y.s.restoring && y.s.phase == 0 { CleanupStartsClean(y); }
    SteadyTick(y, t);
  }

  lemma {:induction false} LandmarksHold(w: World, staged: Byte, inputs: seq<Input>)
    ensures Landmarked(RunAll(Boot(w, staged), inputs))
    decreases |inputs|
  {
    if inputs != [] {
      var before := inputs[..|inputs| - 1];
      LandmarksHold(w, staged, before);
      InvHolds(w, staged, before);
      LandmarkedStep(RunAll(Boot(w, staged), before), inputs[|inputs| - 1]);
    }
  }

  // ---- the verdict ---------------------------------------------------------------------

  /** A search for rows of one kind can be made among the landmarks. */
  lemma {:induction false} SelectWithin(rows: seq<Row>, p: Row -> bool, q: Row -> bool)
    requires forall r :: p(r) ==> q(r)
    ensures FindAll(rows, p) == FindAll(FindAll(rows, q), p)
    decreases |rows|
  {
    if rows != [] {
      var n := |rows| - 1;
      SelectWithin(rows[..n], p, q);
      if q(rows[n]) {
        SelectJoin(FindAll(rows[..n], q), [rows[n]], p);
        assert [rows[n]][..0] == [];
      } else {
        assert FindAll(rows[..n], q) + [] == FindAll(rows[..n], q);
      }
    }
  }

  lemma TwoLandmarks(rows: seq<Row>)
    requires var l := FindAll(rows, IsLandmark); |l| == 2 && IsOkTopology(l[0]) && l[1] == Scanning
    ensures |FindAll(rows, IsOkTopology)| == 1 && |FindAll(rows, IsScanning)| == 1
  {
    var l := FindAll(rows, IsLandmark);
    SelectWithin(rows, IsOkTopology, IsLandmark);
    SelectWithin(rows, IsScanning, IsLandmark);
    SelectUnique(l, 0, IsOkTopology);
    SelectUnique(l, 1, IsScanning);
  }

  function DoneScanRow(s: Session): Row {
    ScanDone(Scan, s.completed == s.target, s.found, s.scanErrors)
  }

  ghost predicate EndedScan(y: Sys) {
    RowsOk(y) && ScanInv(y) && Landmarked(y) && !y.s.running && y.s.available && y.s.kind.Scan?
  }

  lemma ScanRows(s: Session)
    requires s.kind.Scan? && s.available && !s.running
    ensures var f := FinalRows(s);
            && |f| == 8 && f[0] == DoneScanRow(s) && f[7] == CliResult(Scan, OutcomeOf(s), s.completed, s.target)
            && forall i :: 1 <= i < 8 ==> !f[i].ScanDone?
    ensures SummaryRows(s) == [DoneScanRow(s)]
  {
    var f := FinalRows(s);
    assert f == [DoneScanRow(s)] + RunRows(s, 0) + EvidenceRows(s) + [CliResult(Scan, OutcomeOf(s), s.completed, s.target)];
  }

  lemma DoneFound(y: Sys)
    requires EndedScan(y)
    ensures FindAll(y.rows, IsScanDone) == if IsScanDone(DoneScanRow(y.s)) then [DoneScanRow(y.s)] else []
  {
    ScanRows(y.s);
    var f := FinalRows(y.s);
    assert !IsScanDone(f[0]) || f[0] == DoneScanRow(y.s);
    FinalFinding(y, f, 0, IsScanDone);
  }

  lemma SilentRows(y: Sys, strict: bool)
    requires EndedScan(y) && OutcomeOf(y.s).Passed? && y.s.scanErrors == 0
    ensures Silent(y.rows, strict) <==> Silent(y.met, strict)
  {
    ScanRows(y.s);
    assert NoAlarm(SummaryRows(y.s));
    FinalRowsQuiet(y.s);
    PrintedRows(y);
    assert forall r :: Harmless(r) ==> !Alarming(r);
  }

  /** What a scan that is accepted must have printed last. */
  lemma AcceptedEnds(y: Sys, strict: bool)
    requires RowsOk(y) && !y.s.running && y.s.available && Silent(y.rows, strict)
    ensures OutcomeOf(y.s).Passed? && Silent(y.met, strict)
  {
    ResultIsPrinted(y);
    MetIsPrinted(y);
    var last := CliResult(y.s.kind, OutcomeOf(y.s), y.s.completed, y.s.target);
    assert !CommonAlarm(last);
  }

  /** A scan that passed is complete, and its found rows are as many distinct addresses. */
  lemma CompleteScan(y: Sys)
    requires EndedScan(y) && y.s.primary.IsOk()
    ensures IsScanDone(DoneScanRow(y.s)) && y.s.scanErrors == 0 && y.s.found == |FoundIn(y.rows)|
    ensures Distinct(FoundIn(y.rows)) && forall a :: a in FoundIn(y.rows) ==> 0x08 <= a <= 0x77
    ensures |FindAll(y.rows, IsOkTopology)| == 1 && |FindAll(y.rows, IsScanning)| == 1
  {
    AckedCount(Probes(y), 0x08);
    assert y.s.phase == 1;
    TwoLandmarks(y.rows);
  }

  lemma ScanVerdict(y: Sys, strict: bool)
    requires EndedScan(y)
    ensures ScanAccepted(y.rows, strict) <==> OutcomeOf(y.s).Passed? && Silent(y.met, strict)
  {
    if OutcomeOf(y.s).Passed? {
      CompleteScan(y);
      DoneFound(y);
      SilentRows(y, strict);
    } else if Silent(y.rows, strict) {
      AcceptedEnds(y, strict);
    }
  }

  lemma EndedScanHolds(w: World, staged: Byte, inputs: seq<Input>)
    ensures var y := RunAll(Boot(w, staged), inputs); y.s.kind.Scan? && !y.s.running ==> EndedScan(y)
  {
    InvHolds(w, staged, inputs);
    LandmarksHold(w, staged, inputs);
  }

  /** Over every run of the engine the runner accepts an ended scan exactly when it passed and no
      line met during it printed a row that the step's failure patterns match. */
  lemma RunnerAcceptsExactlyQuietPassedScan(w: World, staged: Byte, inputs: seq<Input>, strict: bool)
    ensures var y := RunAll(Boot(w, staged), inputs);
            y.s.kind.Scan? && !y.s.running ==>
              (ScanAccepted(y.rows, strict) <==>
                 OutcomeOf(y.s).Passed? && Silent(MetRows(Boot(w, staged), inputs), strict))
  {
    EndedScanHolds(w, staged, inputs);
    MetIsSaid(w, staged, inputs);
    var y := RunAll(Boot(w, staged), inputs);
    if y.s.kind.Scan? && !y.s.running {
      ScanVerdict(y, strict);
    }
  }
}
