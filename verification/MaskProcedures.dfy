/** The runner's mask procedures over a serial session: routing isolation, mask sweep and control
    operations, each restoring the entry mask it first read. */
module MaskProcedures {
  import opened Base
  import opened DriverSpec

  datatype Command =
    | ReadByte
    | Off
    | SelectChannel(channel: nat)
    | Mask(mask: Byte)
    | Enable(channel: nat)
    | Disable(channel: nat)
    | InvalidateCache
    | Verify(mask: Byte)
    | ScanBus

  /** One command put on the wire, and whether its framing was lost. */
  datatype Sent = Sent(command: Command, lost: bool)

  /** What a checked command comes to. A refusal covers a failed status, a failed check and a failed
      record; the effect of a refused command on the chip is unknown. */
  datatype Outcome = Done | Refused

  /** The byte a command leaves when it is done. */
  function Effect(hw: Byte, c: Command): Byte {
    match c
    case Off => 0
    case SelectChannel(ch) => if ch < 8 then PowByte(ch) else hw
    case Mask(m) => m
    case Enable(ch) => if ch < 8 then SetByteBit(hw, ch) else hw
    case Disable(ch) => if ch < 8 then ClearBit(hw, ch) else hw
    case _ => hw
  }

  /** The chip, its downstream fixture and the session. `visible(m)` are the addresses that answer
      while the control byte is `m`. */
  class Bench {
    const visible: Byte -> set<nat>
    var hw: Byte
    var synchronized: bool
    var log: seq<Sent>

    /** A lost exchange is the last one: nothing is sent after it. */
    ghost predicate Orderly()
      reads this
    {
      (forall i :: 0 <= i < |log| ==> log[i].lost ==> i == |log| - 1)
      && (synchronized <==> forall i :: 0 <= i < |log| ==> !log[i].lost)
    }

    constructor (visible: Byte -> set<nat>, hw: Byte)
      ensures this.visible == visible && this.hw == hw && synchronized && log == [] && Orderly()
    {
      this.visible, this.hw := visible, hw;
      synchronized, log := true, [];
    }

    /** One checked command. An unsynchronized session sends nothing. A faithful firmware reports
        success only of what it did, and shows the byte and the addresses as they are. */
    method Checked(command: Command) returns (outcome: Outcome, byte: Byte, addresses: set<nat>)
      requires Orderly()
      modifies this
      ensures Orderly()
      ensures !old(synchronized) ==> outcome.Refused? && log == old(log) && !synchronized && hw == old(hw)
      ensures old(synchronized) ==> log == old(log) + [Sent(command, !synchronized)]
      ensures outcome.Done? ==>
        synchronized && hw == Effect(old(hw), command) && byte == hw && addresses == visible(hw)
    {
      outcome, byte, addresses := Refused, 0, {};
      if !synchronized {
        return;
      }
      synchronized := *;
      log := log + [Sent(command, !synchronized)];
      assert log[|log| - 1].lost == !synchronized;
      var done: bool := *;
      if synchronized && done {
        hw := Effect(hw, command);
        outcome, byte, addresses := Done, hw, visible(hw);
      } else {
        hw := *;
      }
    }

    /** A command that must succeed. */
    method Do(command: Command) returns (ok: bool)
      requires Orderly()
      modifies this
      ensures Orderly() && Wire(old(log), log, [command], ok) && (ok ==> synchronized)
      ensures old(synchronized) ==> |log| > |old(log)|
      ensures ok ==> hw == Effect(old(hw), command)
    {
      var outcome, byte, addresses := Checked(command);
      ok := outcome.Done?;
    }

    /** `read` must show `expected`. */
    method Expect(expected: Byte) returns (ok: bool)
      requires Orderly()
      modifies this
      ensures Orderly() && Wire(old(log), log, [ReadByte], ok) && (ok ==> synchronized)
      ensures ok ==> hw == old(hw) == expected
    {
      var outcome, byte, addresses := Checked(ReadByte);
      ok := outcome.Done? && byte == expected;
    }

    /** `scan` must report the expected topology; its addresses. */
    method ScanAt(expected: Byte) returns (ok: bool, addresses: set<nat>)
      requires Orderly()
      modifies this
      ensures Orderly() && Wire(old(log), log, [ScanBus], ok) && (ok ==> synchronized)
      ensures ok ==> hw == old(hw) == expected && addresses == visible(expected)
    {
      var outcome, byte;
      outcome, byte, addresses := Checked(ScanBus);
      ok := outcome.Done? && byte == expected;
    }

    // ---- the procedures ------------------------------------------------------------------

    /** Write one byte and read it back. */
    method Place(byte: Byte) returns (ok: bool)
      requires Orderly()
      modifies this
      ensures Orderly() && Wire(old(log), log, [Mask(byte), ReadByte], ok) && (ok ==> synchronized)
      ensures old(synchronized) ==> |log| > |old(log)|
      ensures ok ==> hw == byte
    {
      ok := Do(Mask(byte));
      if ok {
        ok := Expect(byte);
      }
    }

    /** Every byte in turn is written and read back. */
    method RunSweep() returns (ok: bool, completed: nat)
      requires Orderly()
      modifies this
      ensures Orderly() && Wire(old(log), log, SweepScript(256), ok) && (ok ==> completed == 256)
    {
      completed, ok := 0, true;
      while completed < 256
        invariant completed <= 256 && Orderly() && ok && Wire(old(log), log, SweepScript(completed), true)
      {
        ghost var was := log;
        ok := Place(completed);
        Chain(old(log), was, log, SweepScript(completed), [Mask(completed), ReadByte], ok);
        if !ok {
          SweepPrefix(completed + 1, 256);
          Longer(old(log), log, SweepScript(completed + 1), SweepScript(256));
          return;
        }
        completed := completed + 1;
      }
    }

    /** One control step: the operation, its readback and the firmware's own verification. */
    method ControlStep(s: Control) returns (ok: bool)
      requires Orderly()
      modifies this
      ensures Orderly() && Wire(old(log), log, ControlLines(s), ok)
      ensures ok ==> hw == Effect(old(hw), s.command) == s.expected
    {
      ok := Do(s.command);
      if ok {
        ok := Expect(s.expected);
      }
      if ok {
        ok := Do(Verify(s.expected));
      }
    }

    method RunControls(steps: seq<Control>) returns (ok: bool, completed: nat)
      requires Orderly()
      modifies this
      ensures Orderly() && Wire(old(log), log, ControlScript(steps), ok) && (ok ==> completed == |steps|)
      ensures ok ==> Leaves(old(hw), steps) && hw == Left(old(hw), steps)
    {
      completed, ok := 0, true;
      while completed < |steps|
        invariant completed <= |steps| && Orderly() && ok && Wire(old(log), log, ControlScript(steps[..completed]), true)
        invariant Leaves(old(hw), steps[..completed]) && hw == Left(old(hw), steps[..completed])
      {
        ghost var was := log;
        ok := ControlStep(steps[completed]);
        Chain(old(log), was, log, ControlScript(steps[..completed]), ControlLines(steps[completed]), ok);
        assert steps[..completed + 1][..completed] == steps[..completed];
        if !ok {
          ControlPrefix(steps, completed + 1);
          Longer(old(log), log, ControlScript(steps[..completed + 1]), ControlScript(steps));
          return;
        }
        completed := completed + 1;
      }
      assert steps[..completed] == steps;
    }

    /** Apply one routing, read it back and scan it. */
    method Station(command: Command, expected: Byte) returns (ok: bool, addresses: set<nat>)
      requires Orderly()
      modifies this
      ensures Orderly() && Wire(old(log), log, [command, ReadByte, ScanBus], ok)
      ensures ok ==> hw == expected && addresses == visible(expected)
    {
      addresses := {};
      ok := Do(command);
      if ok {
        ok := Expect(expected);
      }
      if ok {
        ok, addresses := ScanAt(expected);
      }
    }

    /** All-off: no declared address shows and everything upstream does. */
    method AllOff(routes: set<(nat, nat)>, upstream: set<nat>) returns (ok: bool, shown: set<nat>)
      requires Orderly()
      modifies this
      ensures Orderly() && Wire(old(log), log, OFF_LINES, ok)
      ensures ok ==> shown == visible(0) && upstream <= shown && HiddenAllOff(visible, routes)
    {
      ok, shown := Station(Off, 0);
      var declared := Declared(routes);
      ok := ok && shown * declared == {} && upstream <= shown;
      forall a | ok && a in declared
        ensures a !in shown
      {
        assert a in shown ==> a in shown * declared;
      }
    }

    /** One channel alone: exactly its declared addresses show, and everything upstream does. */
    method OneChannel(routes: set<(nat, nat)>, baseline: set<nat>, channel: nat) returns (ok: bool)
      requires Orderly() && channel < 8 && baseline == visible(0)
      modifies this
      ensures Orderly() && Wire(old(log), log, [SelectChannel(channel), ReadByte, ScanBus], ok)
      ensures ok ==> ChannelIsolated(visible, routes, channel)
    {
      var shown;
      ok, shown := Station(SelectChannel(channel), PowByte(channel));
      ok := ok && shown * Declared(routes) == OnChannel(routes, channel) && baseline <= shown;
      if ok {
        ShownExactlyThere(routes, shown, channel);
      }
    }

    /** The next channel of a script begun at `start`. */
    method NextChannel(ghost start: seq<Sent>, routes: set<(nat, nat)>, baseline: set<nat>, channel: nat) returns (ok: bool)
      requires Orderly() && channel < 8 && baseline == visible(0) && Wire(start, log, ChannelScript(channel), true)
      modifies this
      ensures Orderly() && Wire(start, log, ChannelScript(channel + 1), ok)
      ensures ok ==> ChannelIsolated(visible, routes, channel)
    {
      ghost var was := log;
      ok := OneChannel(routes, baseline, channel);
      Chain(start, was, log, ChannelScript(channel), [SelectChannel(channel), ReadByte, ScanBus], ok);
    }

    /** Each channel alone, in ascending order. */
    method RunChannels(routes: set<(nat, nat)>, baseline: set<nat>) returns (ok: bool, completed: nat)
      requires Orderly() && baseline == visible(0)
      modifies this
      ensures Orderly() && Wire(old(log), log, ChannelScript(8), ok)
      ensures ok ==> completed == 8 && forall ch: nat :: ch < 8 ==> ChannelIsolated(visible, routes, ch)
    {
      completed, ok := 0, true;
      while completed < 8
        invariant completed <= 8 && Orderly() && ok && Wire(old(log), log, ChannelScript(completed), true)
        invariant forall ch: nat :: ch < completed ==> ChannelIsolated(visible, routes, ch)
      {
        ok := NextChannel(old(log), routes, baseline, completed);
        if !ok {
          StoppedShort(old(log), log, completed + 1, 8);
          return;
        }
        completed := completed + 1;
      }
    }

    /** Scan all-off, each channel alone, and all-off again; every declared address must show on
        exactly its declared channels and the upstream devices everywhere. */
    method RunRouting(routes: set<(nat, nat)>, mux: nat) returns (ok: bool, completed: nat)
      requires Orderly()
      modifies this
      ensures Orderly() && Wire(old(log), log, RoutingScript(ChannelScript(8)), ok)
      ensures ok ==> completed == 8 && Isolated(visible, routes, mux)
    {
      completed := 0;
      ghost var channels := ChannelScript(8);
      var baseline, final;
      ok, baseline := AllOff(routes, {mux});
      if !ok {
        Longer(old(log), log, OFF_LINES, RoutingScript(channels));
        return;
      }
      ghost var was := log;
      ok, completed := RunChannels(routes, baseline);
      Chain(old(log), was, log, OFF_LINES, channels, ok);
      if !ok {
        Longer(old(log), log, OFF_LINES + channels, RoutingScript(channels));
        return;
      }
      was := log;
      ok, final := AllOff(routes, baseline);
      Chain(old(log), was, log, OFF_LINES + channels, OFF_LINES, ok);
    }

    /** Run one mode after the entry read. */
    method RunMode(mode: Mode) returns (ok: bool, completed: nat)
      requires Orderly()
      modifies this
      ensures Orderly() && Wire(old(log), log, ModeScript(mode), ok)
      ensures ok ==> completed == Rounds(mode)
      ensures ok && mode.Routing? ==> Isolated(visible, mode.routes, mode.mux)
    {
      match mode {
        case Routing(routes, mux) => ok, completed := RunRouting(routes, mux);
        case Sweep => ok, completed := RunSweep();
        case Controls(steps) => ok, completed := RunControls(steps);
      }
    }

    /** run_mask_checks: read the entry mask, run one mode, and restore if anything was captured. */
    method RunMaskChecks(mode: Mode) returns (errors: nat, completed: nat, captured: Option<Byte>, ghost mark: nat)
      requires Orderly() && synchronized && log == []
      modifies this
      ensures Orderly()
      // The restoration is attempted exactly when an entry mask was captured and framing is intact;
      // what it sends first is that mask, and it was the chip's byte at entry.
      ensures mark <= |log| && (|log| > mark <==> captured.Some? && forall i :: 0 <= i < mark ==> !log[i].lost)
      ensures captured.Some? ==> captured.value == old(hw)
      ensures |log| > mark ==> Wire(log[..mark], log, [Mask(captured.value), ReadByte], errors == 0)
      // No failure: the whole script ran, the entry byte is back, and routes are isolated as declared.
      ensures errors == 0 ==> captured.Some? && hw == old(hw) && completed == Rounds(mode)
      ensures errors == 0 ==> Wire([], log, [ReadByte] + ModeScript(mode) + [Mask(old(hw)), ReadByte], true)
      ensures errors == 0 && mode.Routing? ==> Isolated(visible, mode.routes, mode.mux)
    {
      errors, completed, captured := 0, 0, None;
      var outcome, byte, addresses := Checked(ReadByte);
      mark := |log|;
      if outcome.Refused? {
        return 1, 0, None, mark;
      }
      captured := Some(byte);
      ghost var was := log;
      var ok;
      ok, completed := RunMode(mode);
      Chain([], was, log, [ReadByte], ModeScript(mode), ok);
      errors := if ok then 0 else 1;
      mark, was := |log|, log;
      if !synchronized {
        errors := errors + 1;
        return;
      }
      ok := Place(byte);
      assert was == log[..mark];
      if !ok {
        errors := errors + 1;
      } else if errors == 0 {
        Chain([], was, log, [ReadByte] + ModeScript(mode), [Mask(byte), ReadByte], true);
      }
    }
  }

  datatype Control = Control(command: Command, expected: Byte)

  datatype Mode = Routing(routes: set<(nat, nat)>, mux: nat) | Sweep | Controls(steps: seq<Control>)

  /** The six control operations of the runner and the byte each must leave. */
  const STANDARD_CONTROLS: seq<Control> := [
    Control(Off, 0), Control(Enable(0), 1), Control(Enable(7), 0x81),
    Control(InvalidateCache, 0x81), Control(Disable(0), 0x80), Control(Disable(7), 0)]

  /** The byte after the steps, started from `hw`. */
  function Left(hw: Byte, steps: seq<Control>): Byte {
    if steps == [] then hw else steps[|steps| - 1].expected
  }

  /** Every step leaves the byte it expects. */
  ghost predicate Leaves(hw: Byte, steps: seq<Control>) {
    steps != [] ==>
      var (before, step) := (steps[..|steps| - 1], steps[|steps| - 1]);
      Leaves(hw, before) && step.expected == Effect(Left(hw, before), step.command)
  }

  lemma LeavesMore(hw: Byte, steps: seq<Control>, step: Control)
    requires Leaves(hw, steps) && step.expected == Effect(Left(hw, steps), step.command)
    ensures Leaves(hw, steps + [step])
  {
    assert (steps + [step])[..|steps|] == steps;
  }

  /** The runner's expectations are what a faithful chip does, whatever byte it holds at first. */
  lemma StandardControlsAgree(hw: Byte)
    ensures Leaves(hw, STANDARD_CONTROLS)
  {
    var s := STANDARD_CONTROLS;
    LeavesMore(hw, [], s[0]);
    assert [] + [s[0]] == [s[0]];
    assert SetByteBit(0, 0) == 1 && SetByteBit(1, 7) == 0x81 && ClearBit(0x81, 0) == 0x80 && ClearBit(0x80, 7) == 0;
    LeavesMore(hw, [s[0]], s[1]);
    LeavesMore(hw, [s[0]] + [s[1]], s[2]);
    LeavesMore(hw, [s[0]] + [s[1]] + [s[2]], s[3]);
    LeavesMore(hw, [s[0]] + [s[1]] + [s[2]] + [s[3]], s[4]);
    LeavesMore(hw, [s[0]] + [s[1]] + [s[2]] + [s[3]] + [s[4]], s[5]);
    assert s == [s[0]] + [s[1]] + [s[2]] + [s[3]] + [s[4]] + [s[5]];
  }

  function Rounds(mode: Mode): nat {
    match mode
    case Routing(_, _) => 8
    case Sweep => 256
    case Controls(steps) => |steps|
  }

  // ---- routing -----------------------------------------------------------------------------------

  function Declared(routes: set<(nat, nat)>): set<nat> {
    set r | r in routes :: r.1
  }

  function OnChannel(routes: set<(nat, nat)>, channel: nat): set<nat> {
    set r | r in routes && r.0 == channel :: r.1
  }

  /** With only `channel` enabled, each declared address shows exactly if it is declared there, and
      everything upstream still shows. */
  ghost predicate ChannelIsolated(visible: Byte -> set<nat>, routes: set<(nat, nat)>, channel: nat)
    requires channel < 8
  {
    && (forall a :: a in Declared(routes) ==> (a in visible(PowByte(channel)) <==> (channel, a) in routes))
    && visible(0) <= visible(PowByte(channel))
  }

  /** With every channel off, no declared address shows. */
  ghost predicate HiddenAllOff(visible: Byte -> set<nat>, routes: set<(nat, nat)>) {
    forall a :: a in Declared(routes) ==> a !in visible(0)
  }

  ghost predicate Isolated(visible: Byte -> set<nat>, routes: set<(nat, nat)>, mux: nat) {
    && mux in visible(0)
    && HiddenAllOff(visible, routes)
    && (forall ch: nat :: ch < 8 ==> ChannelIsolated(visible, routes, ch))
  }

  lemma ShownExactlyThere(routes: set<(nat, nat)>, shown: set<nat>, channel: nat)
    requires shown * Declared(routes) == OnChannel(routes, channel)
    ensures forall a :: a in Declared(routes) ==> (a in shown <==> (channel, a) in routes)
  {
    forall a | a in Declared(routes)
      ensures a in shown <==> (channel, a) in routes
    {
      assert a in shown <==> a in shown * Declared(routes);
      if (channel, a) in routes {
        assert (channel, a).0 == channel && (channel, a).1 == a;
        assert a in OnChannel(routes, channel);
      }
    }
  }

  // ---- what goes over the wire -----------------------------------------------------------------

  /** From `was` to `now` the commands of `script` were sent in order: all of them if `ok`, otherwise
      a prefix. */
  ghost predicate Wire(was: seq<Sent>, now: seq<Sent>, script: seq<Command>, ok: bool) {
    && was <= now && |now| - |was| <= |script|
    && (forall i :: |was| <= i < |now| ==> now[i].command == script[i - |was|])
    && (ok ==> |now| == |was| + |script|)
  }

  lemma Chain(a: seq<Sent>, b: seq<Sent>, c: seq<Sent>, first: seq<Command>, second: seq<Command>, ok: bool)
    requires Wire(a, b, first, true) && Wire(b, c, second, ok)
    ensures Wire(a, c, first + second, ok)
  {
    forall i | |a| <= i < |c|
      ensures c[i].command == (first + second)[i - |a|]
    {
      if i < |b| { assert c[i] == b[i]; }
    }
  }

  lemma Longer(a: seq<Sent>, b: seq<Sent>, short: seq<Command>, long: seq<Command>)
    requires Wire(a, b, short, false) && short <= long
    ensures Wire(a, b, long, false)
  {
  }

  function SweepScript(n: nat): seq<Command>
    requires n <= 256
  {
    if n == 0 then [] else SweepScript(n - 1) + [Mask(n - 1), ReadByte]
  }

  lemma {:induction false} SweepPrefix(m: nat, n: nat)
    requires m <= n <= 256
    ensures SweepScript(m) <= SweepScript(n)
    decreases n
  {
    if m < n { SweepPrefix(m, n - 1); }
  }

  function ControlLines(s: Control): seq<Command> {
    [s.command, ReadByte, Verify(s.expected)]
  }

  function ControlScript(steps: seq<Control>): seq<Command> {
    if steps == [] then [] else ControlScript(steps[..|steps| - 1]) + ControlLines(steps[|steps| - 1])
  }

  lemma {:induction false} ControlPrefix(steps: seq<Control>, m: nat)
    requires m <= |steps|
    ensures ControlScript(steps[..m]) <= ControlScript(steps)
    decreases |steps|
  {
    if m < |steps| {
      ControlPrefix(steps[..|steps| - 1], m);
      assert steps[..|steps| - 1][..m] == steps[..m];
    } else {
      assert steps[..m] == steps;
    }
  }

  const OFF_LINES: seq<Command> := [Off, ReadByte, ScanBus]

  /** The first `n` channels, each alone. */
  function ChannelScript(n: nat): seq<Command> {
    if n == 0 then [] else ChannelScript(n - 1) + [SelectChannel(n - 1), ReadByte, ScanBus]
  }

  lemma {:induction false} ChannelPrefix(m: nat, n: nat)
    requires m <= n
    ensures ChannelScript(m) <= ChannelScript(n)
    decreases n
  {
    if m < n { ChannelPrefix(m, n - 1); }
  }

  lemma StoppedShort(a: seq<Sent>, b: seq<Sent>, m: nat, n: nat)
    requires m <= n && Wire(a, b, ChannelScript(m), false)
    ensures Wire(a, b, ChannelScript(n), false)
  {
    ChannelPrefix(m, n);
    Longer(a, b, ChannelScript(m), ChannelScript(n));
  }

  /** All-off before and after the channels. */
  function RoutingScript(channels: seq<Command>): seq<Command> {
    OFF_LINES + channels + OFF_LINES
  }

  function ModeScript(mode: Mode): seq<Command> {
    match mode
    case Routing(_, _) => RoutingScript(ChannelScript(8))
    case Sweep => SweepScript(256)
    case Controls(steps) => ControlScript(steps)
  }
}
