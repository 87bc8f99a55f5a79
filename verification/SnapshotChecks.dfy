/** The runner's comparison of two health or console reports, and what passing it proves. */
module SnapshotChecks {
  import opened Base
  import opened StatusCodes
  import opened DriverSpec
  import opened DriverProofs
  import opened HealthText
  import ConsoleRing

  // ---- health snapshots --------------------------------------------------------------------

  /** compare_health */
  function CompareHealth(lines: seq<string>, baseline: Option<Counters>): Option<Counters> {
    CompareCounters(ParseHealth(lines), baseline)
  }

  function CompareCounters(current: Option<Counters>, baseline: Option<Counters>): Option<Counters> {
    if current.Some? && baseline.Some?
       && (current.value.failures != baseline.value.failures || current.value.successes < baseline.value.successes)
    then None else current
  }

  ghost predicate NoTrackedFailure(h: seq<Event>) {
    forall e :: e in h ==> Tracked(e) ==> e.status.IsOk()
  }

  lemma {:induction false} FailuresAddUp(h: seq<Event>, more: seq<Event>)
    ensures Failures(h + more) == Failures(h) + Failures(more)
    ensures Failures(more) == 0 <==> NoTrackedFailure(more)
    decreases |more|
  {
    if more == [] {
      assert h + more == h;
    } else {
      var (before, e) := (more[..|more| - 1], more[|more| - 1]);
      FailuresAddUp(h, before);
      assert (h + more)[..|h + more| - 1] == h + before;
      assert more == before + [e];
    }
  }

  lemma {:induction false} RunJoin(w: World, a: seq<Call>, b: seq<Call>)
    ensures DriverSpec.Run(w, a + b) == DriverSpec.Run(DriverSpec.Run(w, a), b)
    decreases |b|
  {
    if b == [] {
      assert a + b == a;
    } else {
      RunJoin(w, a, b[..|b| - 1]);
      assert (a + b)[..|a + b| - 1] == a + b[..|b| - 1];
    }
  }

  lemma CountersCompare(hw: Byte, calls: seq<Call>, more: seq<Call>)
    ensures var (w, w') := (DriverSpec.Run(PowerOn(hw), calls), DriverSpec.Run(PowerOn(hw), calls + more));
            && w.history <= w'.history
            && (Reading(w.dev).Some? ==>
                  (CompareCounters(Reading(w'.dev), Reading(w.dev)).Some? <==>
                     w'.dev.state.Ready? && NoTrackedFailure(w'.history[|w.history|..])))
  {
    var (w, w') := (DriverSpec.Run(PowerOn(hw), calls), DriverSpec.Run(PowerOn(hw), calls + more));
    HealthRefinesHistory(hw, calls);
    HealthRefinesHistory(hw, calls + more);
    RunJoin(PowerOn(hw), calls, more);
    TotalsNeverFall(w, more);
    FailuresAddUp(w.history, w'.history[|w.history|..]);
    assert w'.history == w.history + w'.history[|w.history|..];
  }

  /** Two health reports of one run: once the first was accepted, the second passes the comparison
      exactly when the driver is READY again and no tracked transfer failed in between, even one
      the driver has since recovered from. */
  lemma HealthComparisonIsExact(hw: Byte, calls: seq<Call>, more: seq<Call>, wording: Message -> string, echo: bool)
    ensures var (w, w') := (DriverSpec.Run(PowerOn(hw), calls), DriverSpec.Run(PowerOn(hw), calls + more));
            var baseline := CompareHealth(Response(echo, HealthLines(w.dev, wording)), None);
            && w.history <= w'.history
            && (baseline.Some? ==>
                  (CompareHealth(Response(echo, HealthLines(w'.dev, wording)), baseline).Some? <==>
                     w'.dev.state.Ready? && NoTrackedFailure(w'.history[|w.history|..])))
  {
    PrinterAndReaderAgree(hw, calls, wording, echo);
    PrinterAndReaderAgree(hw, calls + more, wording, echo);
    CountersCompare(hw, calls, more);
  }

  lemma FewerSuccesses(hw: Byte, calls: seq<Call>, hw': Byte, calls': seq<Call>)
    ensures var (w, w') := (DriverSpec.Run(PowerOn(hw), calls), DriverSpec.Run(PowerOn(hw'), calls'));
            Reading(w.dev).Some? && Successes(w'.history) < Min(Successes(w.history), U32_MAX) ==>
              CompareCounters(Reading(w'.dev), Reading(w.dev)).None?
  {
    HealthRefinesHistory(hw, calls);
    HealthRefinesHistory(hw', calls');
  }

  /** A report of another run, with fewer successes on record than the baseline shows, is refused: a
      restart in between shows. */
  lemma RestartIsRefused(hw: Byte, calls: seq<Call>, hw': Byte, calls': seq<Call>, wording: Message -> string, echo: bool)
    ensures var (w, w') := (DriverSpec.Run(PowerOn(hw), calls), DriverSpec.Run(PowerOn(hw'), calls'));
            var baseline := CompareHealth(Response(echo, HealthLines(w.dev, wording)), None);
            baseline.Some? && Successes(w'.history) < Min(Successes(w.history), U32_MAX) ==>
              CompareHealth(Response(echo, HealthLines(w'.dev, wording)), baseline).None?
  {
    PrinterAndReaderAgree(hw, calls, wording, echo);
    PrinterAndReaderAgree(hw', calls', wording, echo);
    FewerSuccesses(hw, calls, hw', calls');
  }

  // ---- console snapshots ---------------------------------------------------------------------

  datatype Connection = Connected | Disconnected | Unobservable

  /** The fields of the console row. */
  datatype ConsoleRow = ConsoleRow(backend: string, connected: Connection, accepted: u32,
                                   droppedBytes: u32, droppedMessages: u32, rxOverflows: u32)

  function ConsoleReport(q: ConsoleRing.Ring, backend: string, connected: Connection): ConsoleRow {
    ConsoleRow(backend, connected, q.acceptedBytes, q.droppedBytes, q.droppedMessages, q.rxOverflows)
  }

  /** parse_console: a disconnected host or a saturated loss counter proves nothing. */
  predicate ConsoleReadable(r: ConsoleRow) {
    !r.connected.Disconnected? && r.droppedBytes < U32_MAX && r.droppedMessages < U32_MAX && r.rxOverflows < U32_MAX
  }

  /** compare_console */
  predicate ConsolePasses(r: ConsoleRow, baseline: ConsoleRow) {
    && ConsoleReadable(r) && r.backend == baseline.backend
    && r.droppedBytes == baseline.droppedBytes && r.droppedMessages == baseline.droppedMessages
    && r.rxOverflows == baseline.rxOverflows && r.accepted >= baseline.accepted
  }

  /** Two console reports of one run: while the later one is readable it passes the comparison
      exactly when no record was dropped and no input overflowed in between. */
  lemma ConsoleComparisonIsExact(capacity: nat, mark: string, ops: seq<ConsoleRing.Op>, more: seq<ConsoleRing.Op>,
                                 backend: string, c1: Connection, c2: Connection)
    requires capacity >= 64 && |mark| == ConsoleRing.LOSS_LENGTH
    ensures var start := ConsoleRing.Empty(capacity, mark);
            var (q, q') := (ConsoleRing.Run(start, ops), ConsoleRing.Run(start, ops + more));
            var (r, r') := (ConsoleReport(q, backend, c1), ConsoleReport(q', backend, c2));
            && q.log <= q'.log
            && (ConsoleReadable(r') ==>
                  (ConsolePasses(r', r) <==> ConsoleRing.NoDrop(q'.log[|q.log|..]) && ConsoleRing.NoOverflow(more)))
  {
    var start := ConsoleRing.Empty(capacity, mark);
    ConsoleRing.RunJoin(start, ops, more);
    ConsoleRing.LogGrows(ConsoleRing.Run(start, ops), more);
    if ConsoleReadable(ConsoleReport(ConsoleRing.Run(start, ops + more), backend, c2)) {
      ConsoleRing.EqualCountersMeanNoLoss(capacity, mark, ops, more);
      ConsoleRing.EqualOverflowsMeanNone(capacity, mark, ops, more);
    }
  }
}
