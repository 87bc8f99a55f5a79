/** The runner's reading of a discovery printout. */
module DiscoveryChecks {
  import opened Base
  import opened StatusCodes
  import opened DriverSpec
  import opened Engine
  import opened ScanRuns
  import opened EngineRuns
  import opened StressChecks

  predicate IsDetection(r: Row) {
    r.Detection?
  }

  predicate IsDiscoverPass(r: Row) {
    r == CliResult(Discover, Passed, 8, 8)
  }

  /** "Discover complete: devices=N errors=0" */
  predicate IsCleanDiscover(r: Row) {
    r.ScanDone? && r.kind.Discover? && r.complete && r.errors == 0
  }

  ghost predicate Distinct(s: seq<nat>) {
    forall i, j :: 0 <= i < j < |s| ==> s[i] != s[j]
  }

  /** The discover arm of `classify`. */
  ghost predicate DiscoveryAccepted(rows: seq<Row>) {
    var detections, addresses := FindAll(rows, IsDetection), FoundIn(rows);
    && NoAlarm(rows)
    && |detections| == 1 && detections[0].Detection? && |FindAll(rows, IsDiscoverPass)| == 1
    && var d := detections[0];
       && d.tested == 8 && d.errors == 0 && d.ack == |addresses| && d.ack + d.absent == 8
       && Distinct(addresses) && (forall a :: a in addresses ==> 0x70 <= a <= 0x77)
       && 0x70 <= d.target <= 0x77
       && d.verdict == (if d.target in addresses then AckYes else AckNo)
       && FindAll(rows, IsCleanDiscover) == [ScanDone(Discover, true, d.ack, 0)]
  }

  lemma AckedStep(p: seq<Event>, first: nat, n: nat)
    requires |p| == n + 1 && InOrder(p, first)
    ensures InOrder(p[..n], first)
    ensures Got(p, n) == p[n].status && |Acked(p)| >= |Acked(p[..n])| && Acked(p)[..|Acked(p[..n])|] == Acked(p[..n])
    ensures if AnswerOf(Got(p, n)).Ack? then |Acked(p)| == |Acked(p[..n])| + 1 && Acked(p)[|Acked(p[..n])|] == first + n
            else Acked(p) == Acked(p[..n])
    ensures Count(p, Ack) == Count(p[..n], Ack) + (if AnswerOf(Got(p, n)).Ack? then 1 else 0)
  {
    var e := p[n];
    assert e.AddressProbed? && e.address == first + n;
    assert InOrder(p[..n], first) by {
      forall j | 0 <= j < n
        ensures p[..n][j].AddressProbed? && p[..n][j].address == first + j
      {
        assert p[..n][j] == p[j];
      }
    }
  }

  /** The acknowledged addresses: as many as counted, in range and without repetition. */
  lemma {:induction false} AckedCount(p: seq<Event>, first: nat)
    requires InOrder(p, first)
    ensures |Acked(p)| == Count(p, Ack)
    ensures forall i :: 0 <= i < |Acked(p)| ==> first <= Acked(p)[i] < first + |p|
    ensures Distinct(Acked(p))
    decreases |p|
  {
    if p != [] {
      var n := |p| - 1;
      AckedStep(p, first, n);
      AckedCount(p[..n], first);
    }
  }

  /** They are exactly the addresses that answered. */
  lemma {:induction false} AckedMeans(p: seq<Event>, first: nat, j: nat)
    requires InOrder(p, first) && j < |p|
    ensures first + j in Acked(p) <==> AnswerOf(Got(p, j)).Ack?
    decreases |p|
  {
    var n := |p| - 1;
    AckedStep(p, first, n);
    AckedCount(p[..n], first);
    assert forall a :: a in Acked(p[..n]) ==> a < first + n;
    if j < n {
      AckedMeans(p[..n], first, j);
      assert Got(p, j) == Got(p[..n], j);
    }
  }

  lemma {:induction false} NoErrors(p: seq<Event>, j: nat)
    requires Count(p, BusError) == 0 && j < |p| && p[j].AddressProbed?
    ensures !AnswerOf(p[j].status).BusError?
    decreases |p|
  {
    if j < |p| - 1 {
      assert p[..|p| - 1][j] == p[j];
      NoErrors(p[..|p| - 1], j);
    }
  }

  function EndRow(s: Session): Row {
    CliResult(Discover, OutcomeOf(s), s.completed, s.target)
  }

  function DoneRow(s: Session): Row {
    ScanDone(Discover, s.completed == s.target, s.found, s.scanErrors)
  }

  lemma DiscoveryRows(s: Session) returns (f: seq<Row>)
    requires s.kind.Discover? && s.available && !s.running
    ensures f == FinalRows(s)
    ensures f == [DoneRow(s), RunLine(Discover, false, s.completed, s.target, s.cancelled, Sub32(s.endedMs, s.startedMs)),
                  PrimaryResult(s.primary), CleanupLine(CleanupNotNeeded), CleanupResult(s.cleanup), DetectionRow(s),
                  Candidates(s.candidateAcks), EndRow(s)]
  {
    f := FinalRows(s);
  }

  ghost predicate EndedDiscovery(y: Sys) {
    RowsOk(y) && !y.s.running && y.s.available && y.s.kind.Discover?
  }

  /** The session's own detection row comes after those of the statistics asked for meanwhile. */
  lemma DetectionsFound(y: Sys)
    requires EndedDiscovery(y)
    ensures if NoDetection(y.met) then FindAll(y.rows, IsDetection) == [DetectionRow(y.s)]
            else |FindAll(y.rows, IsDetection)| > 1
  {
    var f := DiscoveryRows(y.s);
    var n := |y.rows| - |f|;
    SelectJoin(y.rows[..n], y.rows[n..], IsDetection);
    assert y.rows == y.rows[..n] + y.rows[n..];
    SelectUnique(f, 5, IsDetection);
    if NoDetection(y.met) {
      SelectNone(y.rows[..n], IsDetection);
    } else {
      var r :| r in y.met && r.Detection?;
      SelectSome(y.rows[..n], r, IsDetection);
    }
  }

  lemma {:induction false} SelectSome(rows: seq<Row>, r: Row, p: Row -> bool)
    requires r in rows && p(r)
    ensures FindAll(rows, p) != []
    decreases |rows|
  {
    var n := |rows| - 1;
    if r != rows[n] {
      assert rows == rows[..n] + [rows[n]];
      SelectSome(rows[..n], r, p);
    }
  }

  lemma PassesFound(y: Sys)
    requires EndedDiscovery(y)
    ensures FindAll(y.rows, IsDiscoverPass) == if IsDiscoverPass(EndRow(y.s)) then [EndRow(y.s)] else []
  {
    var f := DiscoveryRows(y.s);
    FinalFinding(y, f, 7, IsDiscoverPass);
  }

  lemma CompletionsFound(y: Sys)
    requires EndedDiscovery(y)
    ensures FindAll(y.rows, IsCleanDiscover) == if IsCleanDiscover(DoneRow(y.s)) then [DoneRow(y.s)] else []
  {
    var f := DiscoveryRows(y.s);
    FinalFinding(y, f, 0, IsCleanDiscover);
  }

  /** The printed verdict on the target is the membership of the target among the found addresses. */
  lemma TargetVerdict(y: Sys)
    requires y.s.kind.Discover? && ScanInv(y) && y.s.completed == 8 && y.s.scanErrors == 0
    requires 0x70 <= y.s.targetAddress <= 0x77
    ensures TargetAck(y.s) == if y.s.targetAddress in FoundIn(y.rows) then AckYes else AckNo
  {
    var p, j := Probes(y), y.s.targetAddress - 0x70;
    EvidenceIsConsistent(y);
    AckedMeans(p, 0x70, j);
    NoErrors(p, j);
  }

  /** What lines met during a discovery must not have printed: a failure row, or the row of the
      running statistics that the runner looks for. */
  predicate Unobtrusive(met: seq<Row>) {
    NoAlarm(met) && NoDetection(met)
  }

  predicate NoDetection(met: seq<Row>) {
    forall r :: r in met ==> !r.Detection?
  }

  /** The list of found addresses of a complete discovery without bus errors. */
  lemma CompleteEvidence(y: Sys)
    requires y.s.kind.Discover? && ScanInv(y) && !y.s.running && y.s.primary.IsOk() && 0x70 <= y.s.targetAddress <= 0x77
    ensures y.s.completed == 8 && y.s.target == 8 && y.s.scanErrors == 0 && y.s.found == |FoundIn(y.rows)| <= 8
    ensures Distinct(FoundIn(y.rows)) && forall a :: a in FoundIn(y.rows) ==> 0x70 <= a <= 0x77
    ensures TargetAck(y.s) == if y.s.targetAddress in FoundIn(y.rows) then AckYes else AckNo
  {
    AckedCount(Probes(y), 0x70);
    TargetVerdict(y);
  }

  lemma QuietDiscovery(y: Sys)
    requires EndedDiscovery(y) && OutcomeOf(y.s).Passed? && y.s.scanErrors == 0 && NoAlarm(y.met)
    ensures NoAlarm(y.rows)
  {
    assert SummaryRows(y.s) == [DoneRow(y.s)];
    FinalRowsQuiet(y.s);
    PassedIsQuiet(y);
  }

  lemma PassedDiscovery(y: Sys)
    requires EndedDiscovery(y) && ScanInv(y) && OutcomeOf(y.s).Passed? && Unobtrusive(y.met)
    requires 0x70 <= y.s.targetAddress <= 0x77
    ensures DiscoveryAccepted(y.rows)
  {
    CompleteEvidence(y);
    QuietDiscovery(y);
    DetectionsFound(y);
    PassesFound(y);
    CompletionsFound(y);
  }

  lemma DiscoveryVerdict(y: Sys)
    requires EndedDiscovery(y) && ScanInv(y)
    ensures DiscoveryAccepted(y.rows) <==>
              OutcomeOf(y.s).Passed? && 0x70 <= y.s.targetAddress <= 0x77 && Unobtrusive(y.met)
  {
    if OutcomeOf(y.s).Passed? && 0x70 <= y.s.targetAddress <= 0x77 && Unobtrusive(y.met) {
      PassedDiscovery(y);
    } else {
      PassesFound(y);
      DetectionsFound(y);
      MetIsPrinted(y);
    }
  }

  lemma EndedDiscoveryHolds(w: World, staged: Byte, inputs: seq<Input>)
    ensures var y := RunAll(Boot(w, staged), inputs);
            y.s.kind.Discover? && !y.s.running ==> EndedDiscovery(y) && ScanInv(y)
  {
    InvHolds(w, staged, inputs);
  }

  /** Over every run of the engine the runner accepts an ended discovery exactly when it passed,
      the address it was started for is one the chip can have, and no line met during it printed a
      failure row or asked for the statistics: then all eight addresses were probed without a bus
      error, and counts, candidates and target verdict agree. */
  lemma RunnerAcceptsExactlyQuietPassedDiscovery(w: World, staged: Byte, inputs: seq<Input>)
    ensures var y := RunAll(Boot(w, staged), inputs);
            y.s.kind.Discover? && !y.s.running ==>
              (DiscoveryAccepted(y.rows) <==>
                 OutcomeOf(y.s).Passed? && 0x70 <= y.s.targetAddress <= 0x77
                 && Unobtrusive(MetRows(Boot(w, staged), inputs)))
  {
    EndedDiscoveryHolds(w, staged, inputs);
    MetIsSaid(w, staged, inputs);
    var y := RunAll(Boot(w, staged), inputs);
    if y.s.kind.Discover? && !y.s.running {
      DiscoveryVerdict(y);
    }
  }
}
