/** Watch and soak against a clock that never wraps: the engine's 32-bit comparisons decide
    exactly what the true times decide, as long as ticks are less than 2^31 ms apart. */
module TimedRuns {
  import opened Base
  import opened StatusCodes
  import opened DriverSpec
  import opened Engine

  datatype Sample = Sample(at: nat, byte: Byte)

  datatype Ending = Going | Complete | ExpiredEmpty | ReadFailed | Changed

  /** A watch or soak on the true clock, with no wrapping and no counters. */
  datatype Truth = Truth(soak: bool, target: nat, interval: nat, duration: nat,
                         start: nat, samples: seq<Sample>, ending: Ending) {
    /** When the next sample is due. */
    function Next(): nat {
      if samples == [] then start else samples[|samples| - 1].at + interval
    }
  }

  function TruthTick(r: Truth, now: nat, byte: Byte, ok: bool): Truth {
    if !r.ending.Going? then r
    else
      var over := r.soak && now >= r.start + r.duration;
      if over && r.samples == [] then r.(ending := ExpiredEmpty)
      else if !over && now < r.Next() then r
      else if !ok then r.(ending := ReadFailed)
      else if r.soak && r.samples != [] && byte != r.samples[0].byte then r.(ending := Changed)
      else
        var samples := r.samples + [Sample(now, byte)];
        r.(samples := samples,
           ending := if over || (!r.soak && |samples| == r.target) then Complete else Going)
  }

  /** One loop turn at true time `now`, with the chip holding `byte`. */
  datatype Turn = Turn(now: nat, byte: Byte, t: TickIn)

  function ReplyOk(t: TickIn): bool {
    t.reply.transport.code.TrOk?
  }

  function Turns(y: Sys, turns: seq<Turn>): Sys
    decreases |turns|
  {
    if turns == [] then y
    else
      var turn := turns[|turns| - 1];
      var y1 := Turns(y, turns[..|turns| - 1]);
      Tick(y1.(world := y1.world.(hw := turn.byte)), turn.t)
  }

  function TrueTurns(r: Truth, turns: seq<Turn>): Truth
    decreases |turns|
  {
    if turns == [] then r
    else
      var turn := turns[|turns| - 1];
      TruthTick(TrueTurns(r, turns[..|turns| - 1]), turn.now, turn.byte, ReplyOk(turn.t))
  }

  /** True time of the latest turn. */
  function Latest(start: nat, turns: seq<Turn>): nat {
    if turns == [] then start else turns[|turns| - 1].now
  }

  /** The loop reads a 32-bit view of the true clock and turns less than 2^31 ms apart. */
  ghost predicate Ticking(start: nat, turns: seq<Turn>)
    decreases |turns|
  {
    turns != [] ==>
      var (turn, before) := (turns[|turns| - 1], turns[..|turns| - 1]);
      && Ticking(start, before)
      && Latest(start, before) <= turn.now < Latest(start, before) + 0x8000_0000
      && turn.t.current == turn.now % U32_RANGE
  }

  ghost predicate Spaced(r: Truth) {
    && (forall i, j :: 0 <= i < j < |r.samples| && (j < |r.samples| - 1 || !r.soak || r.ending.Going?) ==>
          r.samples[i].at + r.interval <= r.samples[j].at)
    && (r.soak ==> forall i :: 0 <= i < |r.samples| && (i < |r.samples| - 1 || !r.ending.Complete?) ==>
          r.samples[i].at < r.start + r.duration)
    && (r.soak ==> forall i :: 0 <= i < |r.samples| ==> r.samples[i].byte == r.samples[0].byte)
  }

  ghost predicate Sound(r: Truth, last: nat) {
    && r.start <= last && 1 <= r.interval <= MAX_INTERVAL_MS
    && (r.soak ==> r.interval == 1000 && 1000 <= r.duration <= 86400000)
    && (!r.soak ==> 1 <= r.target <= MAX_COUNT && |r.samples| <= r.target
                    && (r.ending.Complete? <==> |r.samples| == r.target))
    && Spaced(r)
    && (forall i :: 0 <= i < |r.samples| ==> r.start <= r.samples[i].at <= last)
    && (r.ending.Going? ==> last <= r.Next() && (r.soak ==> last < r.start + r.duration))
    && (r.soak && r.ending.Complete? ==>
          |r.samples| >= 2 && r.samples[|r.samples| - 1].at >= r.start + r.duration)
    && (r.soak && r.samples != [] && r.ending.Going? ==>
          1000 * (|r.samples| - 1) <= r.samples[|r.samples| - 1].at - r.start)
  }

  /** The engine's session shows the truth through 32-bit fields. */
  ghost predicate Shows(y: Sys, r: Truth) {
    var s := y.s;
    && s.kind == (if r.soak then Soak else Watch) && s.available && !s.restoring && !s.cancelled
    && s.cleanup.IsOk() && (s.running ==> y.world.dev.bound)
    && s.target == (if r.soak then s.target else r.target) && s.intervalMs == r.interval
    && (r.soak ==> s.durationMs == r.duration)
    && s.startedMs == r.start % U32_RANGE
    && (s.running <==> r.ending.Going?)
    && (s.running ==> s.nextMs == r.Next() % U32_RANGE)
    && s.completed == |r.samples|
    && (r.soak && r.samples != [] ==> s.expected == r.samples[0].byte)
    && (s.primary.IsOk() <==> r.ending.Going? || r.ending.Complete?)
  }

  lemma WrappedDifference(now: nat, then': nat)
    requires then' <= now < then' + U32_RANGE
    ensures Sub32(now % U32_RANGE, then' % U32_RANGE) == now - then'
  {
  }

  lemma WrappedDue(now: nat, next: nat)
    requires next - 0x8000_0000 <= now < next + 0x8000_0000
    ensures AsSigned(Sub32(now % U32_RANGE, next % U32_RANGE)) < 0 <==> now < next
  {
    if now >= next {
      WrappedDifference(now, next);
    } else {
      WrappedDifference(next, now);
    }
  }

  lemma WrappedSum(now: nat, interval: nat)
    requires interval <= MAX_INTERVAL_MS
    ensures Add32(now % U32_RANGE, interval) == (now + interval) % U32_RANGE
  {
  }

  lemma SpacedSample(r: Truth, now: nat, byte: Byte, ending: Ending)
    requires Spaced(r) && r.ending.Going? && r.interval >= 1
    requires r.soak && r.samples != [] ==> byte == r.samples[0].byte
    requires ending.Going? || ending.Complete?
    requires now >= r.Next() || (r.soak && ending.Complete?)
    requires r.soak && ending.Going? ==> now < r.start + r.duration
    ensures Spaced(r.(samples := r.samples + [Sample(now, byte)], ending := ending))
  {
    var n := |r.samples|;
    var r' := r.(samples := r.samples + [Sample(now, byte)], ending := ending);
    forall i, j | 0 <= i < j < n + 1 && (j < n || !r.soak || ending.Going?)
      ensures r'.samples[i].at + r.interval <= r'.samples[j].at
    {
      if j == n && i < n - 1 {
        assert r.samples[i].at + r.interval <= r.samples[n - 1].at;
      }
    }
  }

  lemma SoundSample(r: Truth, last: nat, now: nat, byte: Byte, ending: Ending)
    requires Sound(r, last) && last <= now && r.ending.Going?
    requires r.soak && r.samples != [] ==> byte == r.samples[0].byte
    requires var over := r.soak && now >= r.start + r.duration;
             && (if over then r.samples != [] else now >= r.Next())
             && ending == if over || (!r.soak && |r.samples| + 1 == r.target) then Complete else Going
    ensures Sound(r.(samples := r.samples + [Sample(now, byte)], ending := ending), now)
  {
    SpacedSample(r, now, byte, ending);
    var r' := r.(samples := r.samples + [Sample(now, byte)], ending := ending);
    assert forall i :: 0 <= i < |r.samples| ==> r'.samples[i] == r.samples[i];
  }

  lemma SoundEnding(r: Truth, last: nat, now: nat, ending: Ending)
    requires Sound(r, last) && last <= now
    requires ending.Going? ==> r.ending.Going? && now <= r.Next() && (r.soak ==> now < r.start + r.duration)
    requires ending == r.ending || !ending.Complete?
    requires ending != r.ending ==> r.ending.Going?
    ensures Sound(r.(ending := ending), now)
  {
  }

  lemma SoundTick(r: Truth, last: nat, now: nat, byte: Byte, ok: bool)
    requires Sound(r, last) && last <= now
    ensures Sound(TruthTick(r, now, byte, ok), now)
  {
    var r' := TruthTick(r, now, byte, ok);
    if r.ending.Going? && |r'.samples| > |r.samples| {
      SoundSample(r, last, now, byte, r'.ending);
    } else {
      SoundEnding(r, last, now, r'.ending);
    }
  }

  /** What a turn that reads the chip does to the session. */
  ghost predicate Sampled(y: Sys, y': Sys, ending: bool, t: TickIn) {
    var s, s', hw := y.s, y'.s, y.world.hw;
    && SameTerms(s, s') && |y'.io| == |y.io| + 1 && y'.world.dev.bound
    && if ReplyOk(t) && (s.kind.Soak? && s.completed > 0 ==> hw == s.expected) then
         && s'.primary.IsOk() && s'.completed == Inc(s.completed)
         && s'.nextMs == Add32(t.current, s.intervalMs)
         && s'.expected == (if s.kind.Soak? && s.completed == 0 then hw else s.expected)
         && (s'.running <==> !ending && !(s.kind.Watch? && s'.completed == s.target))
       else
         !s'.primary.IsOk() && !s'.running && s'.completed == s.completed && s'.expected == s.expected
  }

  /** What a turn of a watch or soak leaves alone. */
  predicate SameTerms(s: Session, s': Session) {
    && s'.kind == s.kind && s'.available == s.available && s'.restoring == s.restoring && s'.cancelled == s.cancelled
    && s'.cleanup == s.cleanup && s'.target == s.target && s'.intervalMs == s.intervalMs
    && s'.durationMs == s.durationMs && s'.startedMs == s.startedMs
  }

  lemma RefusedSample(y: Sys, st: Status, t: TickIn)
    requires y.s.running && (y.s.kind.Watch? || y.s.kind.Soak?) && y.s.primary.IsOk() && !st.IsOk()
    ensures var y' := Fail(y, st, t.ended, false);
            && SameTerms(y.s, y'.s) && !y'.s.primary.IsOk() && !y'.s.running && y'.s.completed == y.s.completed
            && y'.s.expected == y.s.expected && y'.io == y.io && y'.world == y.world
  {
  }

  lemma AcceptedSample(y: Sys, observed: Byte, ending: bool, t: TickIn)
    requires y.s.running && (y.s.kind.Watch? || y.s.kind.Soak?) && y.s.primary.IsOk()
    ensures var y' := AcceptSample(y, observed, ending, t); var s, s' := y.s, y'.s;
            && SameTerms(s, s') && s'.primary.IsOk() && s'.completed == Inc(s.completed)
            && s'.nextMs == Add32(t.current, s.intervalMs)
            && s'.expected == (if s.kind.Soak? && s.completed == 0 then observed else s.expected)
            && (s'.running <==> !ending && !(s.kind.Watch? && s'.completed == s.target))
            && y'.io == y.io && y'.world == y.world
  {
  }

  lemma ReadFacts(y: Sys, r: Reply)
    requires y.s.running && y.world.dev.bound
    ensures var (y1, st, b) := Read(y, 0, true, r);
            && y1.s == y.s.(transferSuccesses := y1.s.transferSuccesses, transferFailures := y1.s.transferFailures)
            && |y1.io| == |y.io| + 1 && y1.world.dev.bound
            && (st.IsOk() <==> r.transport.code.TrOk?) && (st.IsOk() ==> b == y.world.hw)
  {
  }

  lemma SampleTick(y: Sys, ending: bool, t: TickIn)
    requires y.s.running && y.world.dev.bound && y.s.primary.IsOk()
    requires y.s.kind.Watch? || y.s.kind.Soak?
    ensures Sampled(y, TakeSample(y, ending, t), ending, t)
  {
    ReadFacts(y, t.reply);
    var (y1, read, observed) := Read(y, 0, true, t.reply);
    if !read.IsOk() {
      RefusedSample(y1, read, t);
    } else if y1.s.kind.Soak? && y1.s.completed > 0 && observed != y1.s.expected {
      RefusedSample(y1, Mismatch(y1.s.expected, observed), t);
    } else {
      AcceptedSample(y1, observed, ending, t);
    }
  }

  /** A turn that reads the chip, on both clocks. */
  lemma ShowsSample(y: Sys, y': Sys, r: Truth, turn: Turn)
    requires Shows(y, r) && r.ending.Going? && y.world.hw == turn.byte && |r.samples| < U32_MAX
    requires var over := r.soak && turn.now >= r.start + r.duration;
             && Sampled(y, y', over, turn.t)
             && (if over then r.samples != [] else turn.now >= r.Next())
    requires Add32(turn.t.current, r.interval) == (turn.now + r.interval) % U32_RANGE
    ensures Shows(y', TruthTick(r, turn.now, turn.byte, ReplyOk(turn.t)))
  {
    var r' := TruthTick(r, turn.now, turn.byte, ReplyOk(turn.t));
    if |r'.samples| > |r.samples| {
      assert r'.Next() == turn.now + r.interval;
      assert r'.samples[0].byte == if r.samples == [] then turn.byte else r.samples[0].byte;
    }
  }

  lemma {:induction false} FewSamples(r: Truth, last: nat)
    requires Sound(r, last) && r.ending.Going?
    ensures |r.samples| <= 86401
  {
  }

  /** One turn: the engine does on its wrapped clock what the truth does on the real one. */
  lemma ShowsTick(y: Sys, r: Truth, last: nat, turn: Turn)
    requires Shows(y, r) && Sound(r, last)
    requires last <= turn.now < last + 0x8000_0000 && turn.t.current == turn.now % U32_RANGE
    requires y.world.hw == turn.byte
    ensures Shows(Tick(y, turn.t), TruthTick(r, turn.now, turn.byte, ReplyOk(turn.t)))
  {
    if y.s.running {
      WrappedDue(turn.now, r.Next());
      if r.soak { WrappedDifference(turn.now, r.start); }
      var over := r.soak && turn.now >= r.start + r.duration;
      if over && r.samples == [] {
      } else if !over && turn.now < r.Next() {
      } else {
        WrappedSum(turn.now, r.interval);
        FewSamples(r, last);
        SampleTick(y, over, turn.t);
        assert Tick(y, turn.t) == TakeSample(y, over, turn.t);
        ShowsSample(y, TakeSample(y, over, turn.t), r, turn);
      }
    }
  }

  /** For every schedule of turns, chip behaviour and transfer outcome, a watch or soak on the
      32-bit clock takes its samples, ends and judges exactly as on the true clock. */
  lemma {:induction false} WrappedClockIsExact(y: Sys, r: Truth, turns: seq<Turn>)
    requires Shows(y, r) && Sound(r, r.start) && Ticking(r.start, turns)
    ensures Shows(Turns(y, turns), TrueTurns(r, turns))
    ensures Sound(TrueTurns(r, turns), Latest(r.start, turns))
    decreases |turns|
  {
    if turns != [] {
      var turn, before := turns[|turns| - 1], turns[..|turns| - 1];
      WrappedClockIsExact(y, r, before);
      var y1 := Turns(y, before);
      ShowsTick(y1.(world := y1.world.(hw := turn.byte)), TrueTurns(r, before), Latest(r.start, before), turn);
      SoundTick(TrueTurns(r, before), Latest(r.start, before), turn.now, turn.byte, ReplyOk(turn.t));
    }
  }

  // ---- sessions from their start -----------------------------------------------------

  function FirstTruth(k: RunKind, count: nat, interval: nat, start: nat): Truth {
    Truth(k.Soak?, count, interval, if k.Soak? then 1000 * count else 0, start, [], Going)
  }

  lemma StartShows(y: Sys, k: RunKind, count: u32, interval: u32, env: LineEnv, start: nat)
    requires (k.Watch? || k.Soak?) && Acceptable(k, count, interval) && CanStart(y, k, env)
    requires env.started == start % U32_RANGE
    ensures var r := FirstTruth(k, count, interval, start);
            Shows(Start(y, k, count, interval, env), r) && Sound(r, start)
  {
  }

  /** From the command to the last turn, a watch or soak follows the true clock. */
  lemma TimedSessionIsExact(y: Sys, k: RunKind, count: u32, interval: u32, env: LineEnv, start: nat, turns: seq<Turn>)
    requires (k.Watch? || k.Soak?) && Acceptable(k, count, interval) && CanStart(y, k, env)
    requires env.started == start % U32_RANGE && Ticking(start, turns)
    ensures var r := TrueTurns(FirstTruth(k, count, interval, start), turns);
            Shows(Turns(Start(y, k, count, interval, env), turns), r) && Sound(r, Latest(start, turns))
  {
    StartShows(y, k, count, interval, env, start);
    WrappedClockIsExact(Start(y, k, count, interval, env), FirstTruth(k, count, interval, start), turns);
  }

  lemma {:induction false} TermsKept(r: Truth, turns: seq<Turn>)
    ensures var r' := TrueTurns(r, turns); r' == r.(samples := r'.samples, ending := r'.ending)
    decreases |turns|
  {
    if turns != [] { TermsKept(r, turns[..|turns| - 1]); }
  }

  /** A soak that passed: at least two samples, all equal, the last one at or after the
      deadline and the others at least a second apart before it. */
  ghost predicate SoakEvidence(samples: seq<Sample>, byte: Byte, deadline: nat) {
    && |samples| >= 2
    && (forall i :: 0 <= i < |samples| ==> samples[i].byte == byte)
    && samples[|samples| - 1].at >= deadline
    && (forall i :: 0 <= i < |samples| - 1 ==> samples[i].at < deadline)
    && (forall i, j :: 0 <= i < j < |samples| - 1 ==> samples[i].at + 1000 <= samples[j].at)
  }

  lemma SoundSoak(y: Sys, r: Truth, last: nat)
    requires Shows(y, r) && Sound(r, last) && r.soak
    ensures last >= r.start + r.duration ==> !y.s.running
    ensures !y.s.running && OutcomeOf(y.s).Passed? ==>
      y.s.completed == |r.samples| && SoakEvidence(r.samples, y.s.expected, r.start + r.duration)
  {
  }

  /** A soak ends at its first turn at or past its duration, and passes only on its evidence. */
  lemma SoakPassMeans(y: Sys, count: u32, env: LineEnv, start: nat, turns: seq<Turn>)
    requires Acceptable(Soak, count, 1000) && CanStart(y, Soak, env)
    requires env.started == start % U32_RANGE && Ticking(start, turns)
    ensures var y' := Turns(Start(y, Soak, count, 1000, env), turns);
            var samples := TrueTurns(FirstTruth(Soak, count, 1000, start), turns).samples;
            && (Latest(start, turns) >= start + 1000 * count ==> !y'.s.running)
            && (!y'.s.running && OutcomeOf(y'.s).Passed? ==>
                  y'.s.completed == |samples| && SoakEvidence(samples, y'.s.expected, start + 1000 * count))
  {
    var r := FirstTruth(Soak, count, 1000, start);
    TimedSessionIsExact(y, Soak, count, 1000, env, start, turns);
    TermsKept(r, turns);
    SoundSoak(Turns(Start(y, Soak, count, 1000, env), turns), TrueTurns(r, turns), Latest(start, turns));
  }

  ghost predicate WatchEvidence(samples: seq<Sample>, interval: nat) {
    forall i, j :: 0 <= i < j < |samples| ==> samples[i].at + interval <= samples[j].at
  }

  lemma SoundWatch(y: Sys, r: Truth, last: nat)
    requires Shows(y, r) && Sound(r, last) && !r.soak
    ensures y.s.completed == |r.samples| <= r.target && WatchEvidence(r.samples, r.interval)
    ensures !y.s.running && OutcomeOf(y.s).Passed? <==> |r.samples| == r.target
  {
  }

  /** A watch passes exactly when it has taken its requested samples, never closer than the interval. */
  lemma WatchPassMeans(y: Sys, count: u32, interval: u32, env: LineEnv, start: nat, turns: seq<Turn>)
    requires Acceptable(Watch, count, interval) && CanStart(y, Watch, env)
    requires env.started == start % U32_RANGE && Ticking(start, turns)
    ensures var y' := Turns(Start(y, Watch, count, interval, env), turns);
            var samples := TrueTurns(FirstTruth(Watch, count, interval, start), turns).samples;
            && y'.s.completed == |samples| <= count && WatchEvidence(samples, interval)
            && (!y'.s.running && OutcomeOf(y'.s).Passed? <==> |samples| == count)
  {
    var r := FirstTruth(Watch, count, interval, start);
    TimedSessionIsExact(y, Watch, count, interval, env, start, turns);
    TermsKept(r, turns);
    SoundWatch(Turns(Start(y, Watch, count, interval, env), turns), TrueTurns(r, turns), Latest(start, turns));
  }

  /** The chip is read in a turn exactly when the true clock says a sample is due: the interval
      has elapsed, or a soak that has a sample has reached its deadline. */
  lemma ReadsExactlyWhenDue(y: Sys, r: Truth, last: nat, turn: Turn)
    requires Shows(y, r) && Sound(r, last) && r.ending.Going?
    requires last <= turn.now < last + 0x8000_0000 && turn.t.current == turn.now % U32_RANGE
    ensures |Tick(y, turn.t).io| == |y.io| +
      if (if r.soak && turn.now >= r.start + r.duration then r.samples != [] else turn.now >= r.Next()) then 1 else 0
  {
    WrappedDue(turn.now, r.Next());
    if r.soak { WrappedDifference(turn.now, r.start); }
    SampleTick(y, EndingSoak(y.s, turn.t.current), turn.t);
  }
}
