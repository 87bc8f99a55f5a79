/** Two sessions that pass and whose responses the runner nevertheless rejects, because of one line
    met on the way. */
module Interruptions {
  import opened Base
  import opened StatusCodes
  import opened DriverSpec
  import opened Engine
  import opened EngineRuns
  import opened StressChecks
  import opened DiscoveryChecks

  const SETTINGS := Config(true, true, false, false, 0x70, 20, 10, 5)
  const FINE := Reply(TransportStatus(TrOk, 0), 0, 0)
  const TURN := TickInput(TickIn(0, 0, FINE, OK))
  const SETTING := LineEnv(true, true, false, true, 0, 0, 0)

  const BIND := LineInput(Device([Begin(SETTINGS, FINE)]), SETTING)
  const STRESS_ONCE := LineInput(Launch(Stress, 1, 0), SETTING)
  const DISCOVER := LineInput(Launch(Discover, 8, 0), SETTING)
  const STATS := LineInput(ShowStats, SETTING)

  /** `stress 1` with every transfer OK and one discarded line after the first write. */
  const SPOILED_STRESS: seq<Input> := [BIND, STRESS_ONCE, TURN, DiscardedLine, TURN, TURN, TURN]

  /** `discover` with every address answering and one `stats` after the first. */
  const SPOILED_DISCOVERY: seq<Input> := [DISCOVER, TURN, STATS, TURN, TURN, TURN, TURN, TURN, TURN, TURN]

  /** The engine after the first `n` inputs. */
  function After(inputs: seq<Input>, n: nat): Sys
    requires n <= |inputs|
  {
    RunAll(Boot(PowerOn(0), 0x70), inputs[..n])
  }

  lemma OneMore(inputs: seq<Input>, n: nat)
    requires n < |inputs|
    ensures After(inputs, n + 1) == Step(After(inputs, n), inputs[n])
  {
    assert inputs[..n + 1][..n] == inputs[..n];
  }

  // ---- stress ----------------------------------------------------------------------------

  /** A stress session of one round that has had no trouble, in the given phase. */
  predicate Stressing(y: Sys, restoring: bool, phase: nat, hw: Byte) {
    var s := y.s;
    && s.kind.Stress? && s.running && s.available && !s.cancelled && s.primary.IsOk() && s.cleanup.IsOk()
    && s.target == 1 && s.completed == (if restoring then 1 else 0) && s.restoring == restoring && s.phase == phase
    && (!restoring && phase == 1 ==> s.expected == 1)
    && y.world.dev.bound && y.world.hw == hw
  }

  lemma FirstWrite(y: Sys)
    requires Stressing(y, false, 0, y.world.hw)
    ensures Stressing(Step(y, TURN), false, 1, 1) && Step(y, TURN).met == y.met
  {
  }

  lemma FirstVerify(y: Sys)
    requires Stressing(y, false, 1, 1)
    ensures Stressing(Step(y, TURN), true, 0, 1) && Step(y, TURN).met == y.met
  {
  }

  lemma SafeOffWrite(y: Sys)
    requires Stressing(y, true, 0, 1)
    ensures Stressing(Step(y, TURN), true, 1, 0) && Step(y, TURN).met == y.met
  {
  }

  lemma SafeOffVerify(y: Sys)
    requires Stressing(y, true, 1, 0)
    ensures var y' := Step(y, TURN);
            !y'.s.running && y'.s.kind.Stress? && y'.s.target == 1 && OutcomeOf(y'.s).Passed? && y'.met == y.met
  {
  }

  lemma BoundByBegin()
    ensures var y := Step(Boot(PowerOn(0), 0x70), BIND); y.world.dev.bound && !y.s.running
  {
    var calls := [Begin(SETTINGS, FINE)];
    assert calls[..0] == [];
    assert DriverSpec.Run(PowerOn(0), calls) == DoBegin(PowerOn(0), SETTINGS, FINE).0;
  }

  lemma StressStarts(y: Sys)
    requires y.world.dev.bound && !y.s.running
    ensures Stressing(Step(y, STRESS_ONCE), false, 0, y.world.hw) && Step(y, STRESS_ONCE).met == []
  {
  }

  lemma StressedSoFar(i: seq<Input>)
    requires i == SPOILED_STRESS
    ensures Stressing(After(i, 3), false, 1, 1) && After(i, 3).met == []
  {
    OneMore(i, 0);
    BoundByBegin();
    OneMore(i, 1);
    StressStarts(After(i, 1));
    OneMore(i, 2);
    FirstWrite(After(i, 2));
  }

  lemma StressDiscards(y: Sys)
    requires Stressing(y, false, 1, 1)
    ensures Stressing(Step(y, DiscardedLine), false, 1, 1) && Step(y, DiscardedLine).met == y.met + [Complaint]
  {
  }

  lemma StressedToTheEnd(i: seq<Input>)
    requires i == SPOILED_STRESS && Stressing(After(i, 4), false, 1, 1)
    ensures var y := After(i, 7);
            !y.s.running && y.s.kind.Stress? && y.s.target == 1 && OutcomeOf(y.s).Passed? && y.met == After(i, 4).met
  {
    OneMore(i, 4);
    FirstVerify(After(i, 4));
    OneMore(i, 5);
    SafeOffWrite(After(i, 5));
    OneMore(i, 6);
    SafeOffVerify(After(i, 6));
  }

  /** The session passes and the runner rejects its response. */
  lemma DiscardedLineSpoilsStress()
    ensures var y := RunAll(Boot(PowerOn(0), 0x70), SPOILED_STRESS);
            && y.s.kind.Stress? && !y.s.running && OutcomeOf(y.s).Passed?
            && !StressAccepted(y.rows, false, 1)
  {
    var i := SPOILED_STRESS;
    StressedSoFar(i);
    OneMore(i, 3);
    StressDiscards(After(i, 3));
    StressedToTheEnd(i);
    assert i[..7] == i;
    Spoiled(i);
  }

  lemma Spoiled(i: seq<Input>)
    requires var y := RunAll(Boot(PowerOn(0), 0x70), i);
             y.s.kind.Stress? && !y.s.running && y.s.target == 1 && y.met == [Complaint]
    ensures !StressAccepted(RunAll(Boot(PowerOn(0), 0x70), i).rows, false, 1)
  {
    RunnerAcceptsExactlyQuietPassedStress(PowerOn(0), 0x70, i);
    MetIsSaid(PowerOn(0), 0x70, i);
    QuietRow(Complaint);
  }

  // ---- discovery -------------------------------------------------------------------------

  /** A discovery that has had no trouble, with `k` addresses visited. */
  predicate Discovering(y: Sys, k: nat) {
    var s := y.s;
    && s.kind.Discover? && s.running && s.available && !s.cancelled && !s.restoring
    && s.primary.IsOk() && s.cleanup.IsOk() && s.address == 0x70 + k && s.targetAddress == 0x70
  }

  lemma Answered(y: Sys, k: nat)
    requires Discovering(y, k)
    ensures var y' := Step(y, TURN);
            && y'.met == y.met
            && if k < 7 then Discovering(y', k + 1) else y'.s.kind.Discover? && !y'.s.running && OutcomeOf(y'.s).Passed?
  {
  }

  lemma Asked(y: Sys, k: nat)
    requires Discovering(y, k)
    ensures Discovering(Step(y, STATS), k) && DetectionRow(y.s) in Step(y, STATS).met
  {
    assert EvidenceRows(y.s)[0] == DetectionRow(y.s);
    assert DetectionRow(y.s) in StatRows(y.s, 0);
  }

  lemma DiscoveryStarts()
    ensures Discovering(Step(Boot(PowerOn(0), 0x70), DISCOVER), 0)
  {
  }

  lemma DiscoveryBegun(i: seq<Input>)
    requires |i| >= 2 && i[0] == DISCOVER && i[1] == TURN
    ensures Discovering(After(i, 2), 1)
  {
    OneMore(i, 0);
    DiscoveryStarts();
    OneMore(i, 1);
    Answered(After(i, 1), 0);
  }

  lemma StatsAsked(i: seq<Input>)
    requires |i| >= 3 && i[2] == STATS && Discovering(After(i, 2), 1)
    ensures Discovering(After(i, 3), 1) && exists r :: r in After(i, 3).met && r.Detection?
  {
    OneMore(i, 2);
    Asked(After(i, 2), 1);
    assert DetectionRow(After(i, 2).s).Detection?;
  }

  lemma DiscoveredSoFar(i: seq<Input>)
    requires i == SPOILED_DISCOVERY
    ensures Discovering(After(i, 3), 1) && exists r :: r in After(i, 3).met && r.Detection?
  {
    DiscoveryBegun(i);
    StatsAsked(i);
  }

  /** The session passes and the runner rejects its response. */
  lemma StatsSpoilDiscovery()
    ensures var y := RunAll(Boot(PowerOn(0), 0x70), SPOILED_DISCOVERY);
            && y.s.kind.Discover? && !y.s.running && OutcomeOf(y.s).Passed?
            && !DiscoveryAccepted(y.rows)
  {
    var i := SPOILED_DISCOVERY;
    DiscoveredSoFar(i);
    LastSeven(i);
    assert i[..10] == i;
    Doubled(i);
  }

  lemma LastSeven(i: seq<Input>)
    requires |i| == 10 && (forall n :: 3 <= n < 10 ==> i[n] == TURN) && Discovering(After(i, 3), 1)
    ensures var y := After(i, 10);
            y.s.kind.Discover? && !y.s.running && OutcomeOf(y.s).Passed? && y.met == After(i, 3).met
  {
    var k := 1;
    while k < 7
      invariant 1 <= k <= 7 && Discovering(After(i, k + 2), k) && After(i, k + 2).met == After(i, 3).met
    {
      OneMore(i, k + 2);
      Answered(After(i, k + 2), k);
      k := k + 1;
    }
    OneMore(i, 9);
    Answered(After(i, 9), 7);
  }

  lemma Doubled(i: seq<Input>)
    requires var y := RunAll(Boot(PowerOn(0), 0x70), i);
             y.s.kind.Discover? && !y.s.running && exists r :: r in y.met && r.Detection?
    ensures !DiscoveryAccepted(RunAll(Boot(PowerOn(0), 0x70), i).rows)
  {
    RunnerAcceptsExactlyQuietPassedDiscovery(PowerOn(0), 0x70, i);
    MetIsSaid(PowerOn(0), 0x70, i);
  }
}
