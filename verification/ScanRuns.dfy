/** Scan and discovery: the retained counters and bitmaps are exactly what the bus answered. */
module ScanRuns {
  import opened Base
  import opened StatusCodes
  import opened DriverSpec
  import opened Engine

  datatype Answer = Ack | Absent | BusError

  function AnswerOf(st: Status): Answer {
    if st.IsOk() then Ack else if st.code.I2cNackAddr? then Absent else BusError
  }

  function FirstAddress(k: RunKind): nat {
    if k.Scan? then 0x08 else 0x70
  }

  /** Addresses a complete run visits. */
  function AddressCount(k: RunKind): nat {
    if k.Scan? then 112 else 8
  }

  /** The answers so far, one per address visited; a scan's first bus step is its topology read. */
  function Probes(y: Sys): seq<Event> {
    if !y.s.kind.Scan? then y.io
    else if y.io == [] then []
    else y.io[1..]
  }

  function Count(p: seq<Event>, a: Answer): (n: nat)
    ensures n <= |p|
  {
    if p == [] then 0
    else
      var e := p[|p| - 1];
      Count(p[..|p| - 1], a) + if e.AddressProbed? && AnswerOf(e.status) == a then 1 else 0
  }

  /** Addresses that acknowledged, in the order probed. */
  function Acked(p: seq<Event>): seq<nat> {
    if p == [] then []
    else
      var e := p[|p| - 1];
      Acked(p[..|p| - 1]) + if e.AddressProbed? && e.status.IsOk() && e.address >= 0 then [e.address as nat] else []
  }

  /** The `Found` rows of a printout. */
  function FoundIn(rows: seq<Row>): seq<nat> {
    if rows == [] then []
    else FoundIn(rows[..|rows| - 1]) + if rows[|rows| - 1].Found? then [rows[|rows| - 1].address] else []
  }

  ghost predicate InOrder(p: seq<Event>, first: nat) {
    forall j :: 0 <= j < |p| ==> p[j].AddressProbed? && p[j].address == first + j
  }

  /** Bit `i` of a candidate bitmap holds exactly when address 0x70+i was visited and
      answered with one of `answers`. */
  ghost predicate Marks(mask: Byte, p: seq<Event>, first: nat, answers: set<Answer>) {
    forall i: nat :: i < 8 ==>
      (Bit(mask, i) <==> first <= 0x70 + i < first + |p| && AnswerOf(Got(p, 0x70 + i - first)) in answers)
  }

  function Got(p: seq<Event>, j: nat): Status
    requires j < |p|
  {
    if p[j].AddressProbed? then p[j].status else OK
  }

  const ANY_ANSWER: set<Answer> := {Ack, Absent, BusError}

  ghost predicate Evidence(s: Session, p: seq<Event>) {
    && InOrder(p, FirstAddress(s.kind))
    && s.completed == |p| <= s.target && s.target == AddressCount(s.kind)
    && s.found == Count(p, Ack) && s.scanErrors == Count(p, BusError)
    && Marks(s.candidateTested, p, FirstAddress(s.kind), ANY_ANSWER)
    && Marks(s.candidateAcks, p, FirstAddress(s.kind), {Ack})
    && Marks(s.candidateErrors, p, FirstAddress(s.kind), {BusError})
    && (s.kind.Discover? ==> PopCount(s.candidateAcks, 8) == s.found)
  }

  ghost predicate ScanInv(y: Sys) {
    ScanRun(y.s.kind) ==>
      var s, p := y.s, Probes(y);
      && s.available && !s.restoring && s.cleanup.IsOk() && (s.running && s.kind.Scan? ==> y.world.dev.bound)
      && Evidence(s, p) && FoundIn(y.rows) == Acked(p)
      && (if s.kind.Scan? then s.phase <= 1 && (s.phase == 1 ==> y.io != [] && y.io[0].ReadBack?) else s.phase == 0)
      && (s.kind.Scan? && s.phase == 0 ==> p == [] && |y.io| <= (if s.running then 0 else 1))
      && (s.running ==> s.primary.IsOk() && !s.cancelled && s.scanErrors == 0 && s.completed < s.target
                        && s.address == FirstAddress(s.kind) + s.completed)
      && (s.cancelled ==> !s.primary.IsOk())
      && (!s.running && s.primary.IsOk() ==> s.completed == s.target && s.scanErrors == 0)
  }

  lemma CountExtend(p: seq<Event>, e: Event, a: Answer)
    requires e.AddressProbed? && e.address >= 0
    ensures Count(p + [e], a) == Count(p, a) + if AnswerOf(e.status) == a then 1 else 0
    ensures Acked(p + [e]) == Acked(p) + if e.status.IsOk() then [e.address as nat] else []
  {
    assert (p + [e])[..|p|] == p;
  }

  lemma FoundExtend(rows: seq<Row>, r: Row)
    ensures FoundIn(rows + [r]) == FoundIn(rows) + if r.Found? then [r.address] else []
  {
    assert (rows + [r])[..|rows|] == rows;
  }

  lemma {:induction false} FoundNone(rows: seq<Row>, more: seq<Row>)
    requires forall r :: r in more ==> !r.Found?
    ensures FoundIn(rows + more) == FoundIn(rows)
    decreases |more|
  {
    if more == [] {
      assert rows + more == rows;
    } else {
      var n := |more| - 1;
      FoundNone(rows, more[..n]);
      FoundExtend(rows + more[..n], more[n]);
      assert rows + more == rows + more[..n] + [more[n]];
    }
  }

  lemma MarksStep(mask: Byte, p: seq<Event>, first: nat, answers: set<Answer>, st: Status)
    requires Marks(mask, p, first, answers)
    ensures var p' := p + [AddressProbed(first + |p|, st)];
            Marks(if AnswerOf(st) in answers then Mark(mask, first + |p|) else mask, p', first, answers)
  {
    var a := first + |p|;
    var e := AddressProbed(a, st);
    forall i: nat | i < 8
      ensures Bit(Mark(mask, a), i) <==> a == 0x70 + i || Bit(mask, i)
    {
      if 0x70 <= a <= 0x77 {
        SetBitBits(mask, a - 0x70, i);
      }
    }
    assert forall j: nat :: j < |p| ==> Got(p + [e], j) == Got(p, j);
    assert Got(p + [e], |p|) == st;
  }

  /** A candidate that acknowledges adds one bit to the acknowledged ones. */
  lemma AckAddsOne(mask: Byte, p: seq<Event>, a: nat)
    requires Marks(mask, p, 0x70, {Ack}) && a == 0x70 + |p| <= 0x77
    ensures PopCount(Mark(mask, a), 8) == PopCount(mask, 8) + 1
  {
    ByteRange();
    assert !Bit(mask, a - 0x70);
    SetBitRoom(mask, a - 0x70, 8);
  }

  lemma MarksAll(s: Session, p: seq<Event>, st: Status)
    requires Evidence(s, p) && s.address == FirstAddress(s.kind) + |p|
    ensures var s', p', first := VisitedSession(s, st), p + [AddressProbed(s.address, st)], FirstAddress(s.kind);
            && Marks(s'.candidateTested, p', first, ANY_ANSWER)
            && Marks(s'.candidateAcks, p', first, {Ack}) && Marks(s'.candidateErrors, p', first, {BusError})
  {
    MarksStep(s.candidateTested, p, FirstAddress(s.kind), ANY_ANSWER, st);
    MarksStep(s.candidateAcks, p, FirstAddress(s.kind), {Ack}, st);
    MarksStep(s.candidateErrors, p, FirstAddress(s.kind), {BusError}, st);
  }

  /** One more address visited: the counters and the three bitmaps stay exact. */
  lemma EvidenceStep(s: Session, p: seq<Event>, st: Status)
    requires Evidence(s, p) && ScanRun(s.kind) && s.completed < s.target
    requires s.address == FirstAddress(s.kind) + |p|
    ensures Evidence(VisitedSession(s, st), p + [AddressProbed(s.address, st)])
  {
    MarksAll(s, p, st);
    CountExtend(p, AddressProbed(s.address, st), Ack);
    CountExtend(p, AddressProbed(s.address, st), BusError);
    if s.kind.Discover? && st.IsOk() {
      AckAddsOne(s.candidateAcks, p, s.address);
    }
  }

  lemma FinalRowsFindNothing(s: Session)
    ensures forall r :: r in FinalRows(s) ==> !r.Found?
  {
  }

  lemma FinishKeepsEvidence(y: Sys, ended: u32)
    ensures var y' := Finish(y, ended, false);
            && FoundIn(y'.rows) == FoundIn(y.rows) && Probes(y') == Probes(y) && y'.io == y.io
            && (Evidence(y.s, Probes(y)) ==> Evidence(y'.s, Probes(y')))
            && y'.s == y.s.(running := false, endedMs := y'.s.endedMs, successAfter := y'.s.successAfter,
                            failureAfter := y'.s.failureAfter)
            && y'.world == y.world
  {
    var s := Finish(y, ended, false).s;
    FinalRowsFindNothing(s);
    FoundNone(y.rows, FinalRows(s));
  }

  lemma RowsExtend(rows: seq<Row>, a: nat, st: Status)
    ensures FoundIn(rows + ProbeRows(a, st)) == FoundIn(rows) + if st.IsOk() then [a] else []
  {
    if ProbeRows(a, st) == [] {
      assert rows + ProbeRows(a, st) == rows;
    } else {
      FoundExtend(rows, ProbeRows(a, st)[0]);
    }
  }

  /** What one more visit leaves, before the run goes on or ends. */
  lemma VisitKeepsEvidence(y: Sys, st: Status)
    requires ScanRun(y.s.kind) && y.s.running && ScanInv(y) && !(y.s.kind.Scan? && y.s.phase == 0)
    ensures var y1 := Visited(y, st);
            && Evidence(y1.s, Probes(y1)) && FoundIn(y1.rows) == Acked(Probes(y1))
            && |y1.io| == |y.io| + 1 && (y.s.kind.Scan? ==> y1.io[0] == y.io[0])
            && y1.s.scanErrors == (if ProbeBroken(st) then 1 else 0) && y1.s.completed == y.s.completed + 1
            && (y1.s.primary.IsOk() <==> !ProbeBroken(st))
  {
    var p, e, y1 := Probes(y), AddressProbed(y.s.address, st), Visited(y, st);
    EvidenceStep(y.s, p, st);
    assert Probes(y1) == p + [e];
    CountExtend(p, e, Ack);
    RowsExtend(y.rows, y.s.address, st);
  }

  lemma AddressTick(y: Sys, t: TickIn)
    requires ScanRun(y.s.kind) && y.s.running && ScanInv(y) && !(y.s.kind.Scan? && y.s.phase == 0)
    ensures ScanInv(ScanAddress(y, t)) && |ScanAddress(y, t).io| == |y.io| + 1
    ensures ScanAddress(y, t).s.kind == y.s.kind
  {
    VisitKeepsEvidence(y, t.probe);
    var y1 := Visited(y, t.probe);
    if ProbeBroken(t.probe) || y1.s.address > 0x77 {
      FinishKeepsEvidence(y1, t.ended);
    }
  }

  /** What the topology read leaves behind, before a failure ends the session. */
  function Surveyed(y: Sys, r: Reply): Sys {
    var (y1, read, mask) := Read(y, 0, true, r);
    y1.(rows := y1.rows + [Topology(read, mask)] + (if read.IsOk() then [Scanning] else []),
        s := if read.IsOk() then y1.s.(phase := 1) else y1.s.(primary := read))
  }

  lemma SurveyShape(y: Sys, r: Reply)
    requires y.s.kind.Scan? && y.s.running && ScanInv(y) && y.s.phase == 0
    ensures var y1 := Surveyed(y, r);
            && y1.io == [ReadBack(y.world.hw, MapTransportStatus(r.transport), true)]
            && Evidence(y1.s, []) && Probes(y1) == [] && FoundIn(y1.rows) == []
            && y1.s == y.s.(phase := y1.s.phase, primary := y1.s.primary, transferSuccesses := y1.s.transferSuccesses,
                            transferFailures := y1.s.transferFailures)
            && (y1.s.phase == 1 <==> y1.s.primary.IsOk()) && y1.s.phase <= 1 && y1.world.dev.bound
  {
    var (y1, read, mask) := Read(y, 0, true, r);
    FoundExtend(y.rows, Topology(read, mask));
    FoundExtend(y.rows + [Topology(read, mask)], Scanning);
    assert y.rows + [Topology(read, mask)] + [] == y.rows + [Topology(read, mask)];
  }

  lemma TopologyTick(y: Sys, t: TickIn)
    requires y.s.kind.Scan? && y.s.running && ScanInv(y) && y.s.phase == 0
    ensures ScanInv(ScanTopology(y, t)) && |ScanTopology(y, t).io| == |y.io| + 1
    ensures ScanTopology(y, t).s.kind == y.s.kind
  {
    SurveyShape(y, t.reply);
    var y1 := Surveyed(y, t.reply);
    var (z, read, mask) := Read(y, 0, true, t.reply);
    assert z.rows + [Topology(read, mask)] + [] == z.rows + [Topology(read, mask)];
    assert ScanTopology(y, t) == if y1.s.primary.IsOk() then y1 else Finish(y1, t.ended, false);
    FinishKeepsEvidence(y1, t.ended);
  }

  /** Every tick of a scan or discovery performs exactly one bus primitive and keeps its evidence exact. */
  lemma ScanTick(y: Sys, t: TickIn)
    requires ScanRun(y.s.kind) && y.s.running && ScanInv(y)
    ensures ScanInv(Tick(y, t)) && |Tick(y, t).io| == |y.io| + 1 && Tick(y, t).s.kind == y.s.kind
  {
    if y.s.kind.Scan? && y.s.phase == 0 {
      TopologyTick(y, t);
    } else {
      AddressTick(y, t);
    }
  }

  lemma ScanStop(y: Sys, env: LineEnv)
    requires ScanRun(y.s.kind) && y.s.running && ScanInv(y)
    ensures ScanInv(StopSession(y, env))
  {
    var y1 := y.(s := y.s.(cancelled := true, primary := CANCELLED_STATUS));
    assert StopSession(y, env) == y1.(s := StopSession(y, env).s, rows := StopSession(y, env).rows);
    var s := StopSession(y, env).s;
    FinalRowsFindNothing(s);
    FoundNone(y.rows, FinalRows(s));
    assert Probes(StopSession(y, env)) == Probes(y);
  }

  lemma NoMarks(first: nat, answers: set<Answer>)
    ensures Marks(0, [], first, answers)
  {
    forall i: nat | i < 8 ensures !Bit(0, i) { ZeroHasNoBits(i); }
  }

  lemma FreshEvidence(s: Session)
    requires ScanRun(s.kind) && s.target == AddressCount(s.kind) && s.completed == 0 && s.found == 0 && s.scanErrors == 0
    requires s.candidateTested == 0 && s.candidateAcks == 0 && s.candidateErrors == 0
    ensures Evidence(s, [])
  {
    NoMarks(FirstAddress(s.kind), ANY_ANSWER);
    NoMarks(FirstAddress(s.kind), {Ack});
    NoMarks(FirstAddress(s.kind), {BusError});
    NoneSet(8);
  }

  /** A session that has done nothing yet. */
  lemma FreshScan(y: Sys)
    requires var s := y.s;
             && ScanRun(s.kind) && s.available && s.running && !s.restoring && !s.cancelled && s.phase == 0
             && s.cleanup.IsOk() && s.primary.IsOk() && s.target == AddressCount(s.kind) && s.completed == 0
             && s.found == 0 && s.scanErrors == 0 && s.address == FirstAddress(s.kind)
             && s.candidateTested == 0 && s.candidateAcks == 0 && s.candidateErrors == 0
    requires y.io == [] && FoundIn(y.rows) == [] && (y.s.kind.Scan? ==> y.world.dev.bound)
    ensures ScanInv(y)
  {
    FreshEvidence(y.s);
  }

  lemma ScanStart(y: Sys, k: RunKind, count: u32, env: LineEnv)
    requires ScanRun(k) && Acceptable(k, count, 0) && CanStart(y, k, env)
    ensures ScanInv(Start(y, k, count, 0, env))
  {
    FoundExtend([], Started(k, count));
    assert [] + [Started(k, count)] == [Started(k, count)];
    FreshScan(Start(y, k, count, 0, env));
  }

  lemma {:induction false} NoneSet(n: nat)
    ensures PopCount(0, n) == 0
  {
    if n > 0 { NoneSet(n - 1); }
  }

  // ---- what the evidence means -------------------------------------------------------

  lemma {:induction false} CountsDisjoint(p: seq<Event>)
    ensures Count(p, Ack) + Count(p, BusError) <= |p|
    decreases |p|
  {
    if p != [] { CountsDisjoint(p[..|p| - 1]); }
  }

  /** The counts are consistent, the acknowledged and failed candidates are disjoint parts of
      the tested ones, and the target's verdict is the bus's own answer at the address
      captured when the session started. */
  lemma EvidenceIsConsistent(y: Sys)
    requires ScanRun(y.s.kind) && ScanInv(y)
    ensures var s, p, first := y.s, Probes(y), FirstAddress(y.s.kind);
            && s.completed == |p| && s.found + s.scanErrors <= s.completed
            && (forall i: nat :: i < 8 ==>
                  && (Bit(s.candidateTested, i) <==> first <= 0x70 + i < first + |p|)
                  && (Bit(s.candidateAcks, i) ==> Bit(s.candidateTested, i))
                  && (Bit(s.candidateErrors, i) ==> Bit(s.candidateTested, i))
                  && !(Bit(s.candidateAcks, i) && Bit(s.candidateErrors, i)))
            && (0x70 <= s.targetAddress <= 0x77 ==>
                  var j := s.targetAddress - first;
                  TargetAck(s) == if j >= |p| then NotTested
                                  else match AnswerOf(Got(p, j)) case Ack => AckYes case Absent => AckNo case BusError => AckError)
  {
    CountsDisjoint(Probes(y));
    var s, p, first := y.s, Probes(y), FirstAddress(y.s.kind);
    if 0x70 <= s.targetAddress <= 0x77 {
      var i: nat := s.targetAddress - 0x70;
      assert first <= 0x70 + i;
      assert Bit(s.candidateTested, i) <==> i < first + |p| - 0x70;
    }
  }
}
