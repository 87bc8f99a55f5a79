/** What a watch prints: its samples, in order, with true bytes and times. */
module WatchRows {
  import opened Base
  import opened StatusCodes
  import opened DriverSpec
  import opened Engine
  import opened StressChecks
  import opened TimedRuns

  predicate IsSample(r: Row) {
    r.SampleShown?
  }

  /** The rows that show `samples`: numbered from 1, each with its byte and the 32-bit view of its time. */
  function ShownSamples(samples: seq<Sample>): seq<Row> {
    if samples == [] then []
    else
      var n := |samples|;
      ShownSamples(samples[..n - 1])
      + (if n <= U32_MAX then [SampleShown(n, samples[n - 1].byte, samples[n - 1].at % U32_RANGE)] else [])
  }

  lemma OneSample(rows: seq<Row>, r: Row)
    ensures FindAll(rows + [r], IsSample) == FindAll(rows, IsSample) + if IsSample(r) then [r] else []
  {
    assert (rows + [r])[..|rows|] == rows;
  }

  lemma NoneAdded(rows: seq<Row>, more: seq<Row>)
    requires forall r :: r in more ==> !IsSample(r)
    ensures FindAll(rows + more, IsSample) == FindAll(rows, IsSample)
  {
    SelectNone(more, IsSample);
    SelectJoin(rows, more, IsSample);
  }

  lemma FinalRowsShowNone(s: Session)
    ensures forall r :: r in FinalRows(s) ==> !IsSample(r)
  {
    assert forall r :: r in SummaryRows(s) ==> !IsSample(r);
    assert forall r :: r in StatRows(s, 0) ==> !IsSample(r);
  }

  /** Ending a session prints no sample. */
  lemma FinishShowsNone(y: Sys, ended: u32)
    ensures FindAll(Finish(y, ended, false).rows, IsSample) == FindAll(y.rows, IsSample)
    ensures Finish(y, ended, false).s.completed == y.s.completed
  {
    var f := FinalRows(Finish(y, ended, false).s);
    FinalRowsShowNone(Finish(y, ended, false).s);
    NoneAdded(y.rows, f);
  }

  lemma FailShowsNone(y: Sys, st: Status, ended: u32)
    requires y.s.kind.Watch? || y.s.kind.Soak?
    ensures FindAll(Fail(y, st, ended, false).rows, IsSample) == FindAll(y.rows, IsSample)
    ensures Fail(y, st, ended, false).s.completed == y.s.completed
  {
    FinishShowsNone(if y.s.primary.IsOk() then y.(s := y.s.(primary := st)) else y, ended);
  }

  /** What a sample adds to the samples shown. */
  function NewSample(s: Session, byte: Byte, current: u32): seq<Row> {
    if s.kind.Watch? then [SampleShown(Inc(s.completed), byte, current)] else []
  }

  lemma AcceptShows(y: Sys, observed: Byte, ending: bool, t: TickIn)
    ensures FindAll(AcceptSample(y, observed, ending, t).rows, IsSample)
            == FindAll(y.rows, IsSample) + NewSample(y.s, observed, t.current)
    ensures AcceptSample(y, observed, ending, t).s.completed == Inc(y.s.completed)
  {
    var y1 := StoredSample(y, observed, t.current);
    if y.s.kind.Watch? {
      OneSample(y.rows, SampleShown(Inc(y.s.completed), observed, t.current));
    } else {
      assert y.rows + [] == y.rows;
    }
    FinishShowsNone(y1, t.ended);
  }

  /** A turn shows a sample exactly when it takes one. */
  lemma TickShows(y: Sys, t: TickIn)
    requires y.s.running && !y.s.restoring && (y.s.kind.Watch? || y.s.kind.Soak?) && y.world.dev.bound
    requires y.s.completed < U32_MAX
    ensures FindAll(Tick(y, t).rows, IsSample) == FindAll(y.rows, IsSample) +
            if Tick(y, t).s.completed != y.s.completed then NewSample(y.s, y.world.hw, t.current) else []
  {
    var ending := EndingSoak(y.s, t.current);
    if ending && y.s.completed == 0 {
      FinishShowsNone(y.(s := y.s.(primary := Error(Timeout, SoakExpired))), t.ended);
    } else if ending || AsSigned(Sub32(t.current, y.s.nextMs)) >= 0 {
      ReadFacts(y, t.reply);
      var (y1, read, observed) := Read(y, 0, true, t.reply);
      assert y1.rows == y.rows;
      if !read.IsOk() {
        FailShowsNone(y1, read, t.ended);
      } else if y1.s.kind.Soak? && y1.s.completed > 0 && observed != y1.s.expected {
        FailShowsNone(y1, Mismatch(y1.s.expected, observed), t.ended);
      } else {
        AcceptShows(y1, observed, ending, t);
      }
    }
  }

  /** The samples of a turn, on both sides. */
  lemma SampleAdded(r: Truth, now: nat, byte: Byte, ok: bool)
    ensures var r' := TruthTick(r, now, byte, ok);
            if |r'.samples| > |r.samples| then
              r'.samples == r.samples + [Sample(now, byte)]
              && (|r'.samples| <= U32_MAX ==>
                    ShownSamples(r'.samples) == ShownSamples(r.samples) + [SampleShown(|r'.samples|, byte, now % U32_RANGE)])
            else r'.samples == r.samples
  {
    var r' := TruthTick(r, now, byte, ok);
    if |r'.samples| > |r.samples| {
      assert r'.samples[..|r.samples|] == r.samples;
    }
  }

  /** One turn keeps the printout in step with the truth. */
  lemma ShownTurn(y: Sys, r: Truth, last: nat, turn: Turn)
    requires Shows(y, r) && Sound(r, last)
    requires last <= turn.now < last + 0x8000_0000 && turn.t.current == turn.now % U32_RANGE
    requires y.world.hw == turn.byte
    requires FindAll(y.rows, IsSample) == if r.soak then [] else ShownSamples(r.samples)
    ensures FindAll(Tick(y, turn.t).rows, IsSample) ==
            if r.soak then [] else ShownSamples(TruthTick(r, turn.now, turn.byte, ReplyOk(turn.t)).samples)
  {
    ShowsTick(y, r, last, turn);
    SampleAdded(r, turn.now, turn.byte, ReplyOk(turn.t));
    if y.s.running {
      FewSamples(r, last);
      TickShows(y, turn.t);
    }
  }

  /** For every schedule a watch prints exactly the samples of the true clock, in order; a soak prints none. */
  lemma {:induction false} PrintedSamplesAreTrue(y: Sys, r: Truth, turns: seq<Turn>)
    requires Shows(y, r) && Sound(r, r.start) && Ticking(r.start, turns)
    requires FindAll(y.rows, IsSample) == if r.soak then [] else ShownSamples(r.samples)
    ensures FindAll(Turns(y, turns).rows, IsSample) == if r.soak then [] else ShownSamples(TrueTurns(r, turns).samples)
    decreases |turns|
  {
    if turns != [] {
      var turn, before := turns[|turns| - 1], turns[..|turns| - 1];
      PrintedSamplesAreTrue(y, r, before);
      WrappedClockIsExact(y, r, before);
      TermsKept(r, before);
      var y1 := Turns(y, before);
      ShownTurn(y1.(world := y1.world.(hw := turn.byte)), TrueTurns(r, before), Latest(r.start, before), turn);
    }
  }

  /** From its command on, a watch prints its true samples and nothing else of the kind. */
  lemma WatchPrintsItsSamples(y: Sys, count: u32, interval: u32, env: LineEnv, start: nat, turns: seq<Turn>)
    requires Acceptable(Watch, count, interval) && CanStart(y, Watch, env)
    requires env.started == start % U32_RANGE && Ticking(start, turns)
    ensures FindAll(Turns(Start(y, Watch, count, interval, env), turns).rows, IsSample)
            == ShownSamples(TrueTurns(FirstTruth(Watch, count, interval, start), turns).samples)
  {
    var r := FirstTruth(Watch, count, interval, start);
    StartShows(y, Watch, count, interval, env, start);
    OneSample([], Started(Watch, count));
    assert [] + [Started(Watch, count)] == [Started(Watch, count)];
    PrintedSamplesAreTrue(Start(y, Watch, count, interval, env), r, turns);
  }
}
