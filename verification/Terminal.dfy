/** The engine behind its line accumulator: received bytes, loop turns and outside changes in any
    order. */
module Terminal {
  import opened Base
  import opened DriverSpec
  import opened Engine
  import opened EngineRuns
  import opened LineStream
  import opened LineBuffer
  import opened Cli

  /** One thing that happens to the terminal. `InputLost` is the discard of whatever line is coming
      in, after an observed loss of input. */
  datatype Happening =
    | Received(c: char, env: LineEnv)
    | InputLost
    | Turned(t: TickIn)
    | Changed(byte: Byte)

  /** How the dispatcher classifies a command text. */
  type Dispatcher = string -> Command

  const NUL: char := 0 as char

  /** What a result of the accumulator makes the engine do. */
  function Spoken(r: LineResult, dispatch: Dispatcher, env: LineEnv): seq<Input> {
    match r
    case Nothing => []
    case Ready(command) => [LineInput(dispatch(command), env)]
    case _ => [DiscardedLine]
  }

  /** One happening: the accumulator afterwards and what reaches the engine. */
  function HearOne(a: Accumulator, h: Happening, dispatch: Dispatcher): (Accumulator, seq<Input>) {
    match h
    case Received(c, env) => var (a', r) := Push(a, c, CAPACITY); (a', Spoken(r, dispatch, env))
    case InputLost => (Push(a, NUL, 0).0, [])
    case Turned(t) => (a, [TickInput(t)])
    case Changed(b) => (a, [Drift(b)])
  }

  function Heard(a: Accumulator, hs: seq<Happening>, dispatch: Dispatcher): (Accumulator, seq<Input>)
    decreases |hs|
  {
    if hs == [] then (a, [])
    else
      var (a1, before) := Heard(a, hs[..|hs| - 1], dispatch);
      var (a2, more) := HearOne(a1, hs[|hs| - 1], dispatch);
      (a2, before + more)
  }

  /** The bytes that reached the accumulator. */
  function Bytes(hs: seq<Happening>): string {
    if hs == [] then ""
    else
      Bytes(hs[..|hs| - 1]) +
      match hs[|hs| - 1] case Received(c, _) => [c] case InputLost => [NUL] case _ => ""
  }

  /** The lines among the engine's inputs: a command, or nothing for a discarded one. */
  function LinesOf(inputs: seq<Input>): seq<Option<Command>> {
    if inputs == [] then []
    else
      LinesOf(inputs[..|inputs| - 1]) +
      match inputs[|inputs| - 1] case LineInput(c, _) => [Some(c)] case DiscardedLine => [None] case _ => []
  }

  function Meant(reports: seq<LineResult>, dispatch: Dispatcher): seq<Option<Command>> {
    if reports == [] then []
    else
      var r := reports[|reports| - 1];
      Meant(reports[..|reports| - 1], dispatch) + [if r.Ready? then Some(dispatch(r.command)) else None]
  }

  lemma {:induction false} RunJoin(y: Sys, a: seq<Input>, b: seq<Input>)
    ensures RunAll(y, a + b) == RunAll(RunAll(y, a), b)
    decreases |b|
  {
    if b == [] {
      assert a + b == a;
    } else {
      RunJoin(y, a, b[..|b| - 1]);
      assert (a + b)[..|a + b| - 1] == a + b[..|b| - 1];
    }
  }

  class Shell {
    const console: Console
    const buffer: FixedLineBuffer
    const dispatch: Dispatcher

    constructor (console: Console, dispatch: Dispatcher)
      ensures this.console == console && this.dispatch == dispatch && fresh(buffer) && fresh(buffer.buffer)
      ensures buffer.Valid() && buffer.View() == FRESH
    {
      this.console, this.dispatch := console, dispatch;
      buffer := new FixedLineBuffer();
    }

    /** feed: one received byte. */
    method Feed(value: char, env: LineEnv)
      requires buffer.Valid() && !console.inCommand
      modifies console, console.device, console.device.bus, buffer, buffer.buffer
      ensures buffer.Valid() && !console.inCommand
      ensures var (a, inputs) := HearOne(old(buffer.View()), Received(value, env), dispatch);
              buffer.View() == a && console.View() == RunAll(old(console.View()), inputs)
    {
      ghost var y := console.View();
      var command := new char[CAPACITY];
      var state := buffer.PushByte(value, command);
      ghost var inputs := Spoken(state, dispatch, env);
      assert inputs != [] ==> inputs[..0] == [] && RunAll(y, inputs) == Step(y, inputs[0]);
      if state.Ready? {
        console.ProcessCommand(dispatch(state.command), env);
      } else if !state.Nothing? {
        console.ReportDiscard();
      }
    }

    /** discardInput: the line coming in is spoiled through its end. */
    method DiscardInput()
      requires buffer.Valid()
      modifies buffer, buffer.buffer
      ensures buffer.Valid() && buffer.View() == HearOne(old(buffer.View()), InputLost, dispatch).0
    {
      var ignored := buffer.PushByte(NUL, null);
    }

    method Happen(h: Happening)
      requires buffer.Valid() && !console.inCommand
      modifies console, console.device, console.device.bus, buffer, buffer.buffer
      ensures buffer.Valid() && !console.inCommand
      ensures var (a, inputs) := HearOne(old(buffer.View()), h, dispatch);
              buffer.View() == a && console.View() == RunAll(old(console.View()), inputs)
    {
      ghost var y := console.View();
      OneInput(y, HearOne(buffer.View(), h, dispatch).1);
      match h
      case Received(c, env) => Feed(c, env);
      case InputLost => DiscardInput();
      case Turned(t) => console.TickOnce(t);
      case Changed(b) => console.device.bus.ChangeOutside(b);
    }

    /** Anything, in any order: the engine runs exactly on what was heard. */
    method Live(hs: seq<Happening>)
      requires buffer.Valid() && !console.inCommand
      modifies console, console.device, console.device.bus, buffer, buffer.buffer
      ensures buffer.Valid() && !console.inCommand
      ensures var (a, inputs) := Heard(old(buffer.View()), hs, dispatch);
              buffer.View() == a && console.View() == RunAll(old(console.View()), inputs)
    {
      ghost var a0, y0 := buffer.View(), console.View();
      for i := 0 to |hs|
        invariant buffer.Valid() && !console.inCommand
        invariant Reached(a0, y0, hs[..i], buffer.View(), console.View(), dispatch)
      {
        ReachOne(a0, y0, hs, i, buffer.View(), console.View(), dispatch);
        Happen(hs[i]);
      }
      assert hs[..|hs|] == hs;
    }
  }

  /** Where the happenings so far have led the accumulator and the engine. */
  ghost predicate Reached(a0: Accumulator, y0: Sys, hs: seq<Happening>, a: Accumulator, y: Sys, dispatch: Dispatcher) {
    Heard(a0, hs, dispatch).0 == a && RunAll(y0, Heard(a0, hs, dispatch).1) == y
  }

  lemma ReachOne(a0: Accumulator, y0: Sys, hs: seq<Happening>, i: nat, a: Accumulator, y: Sys, dispatch: Dispatcher)
    requires i < |hs| && Reached(a0, y0, hs[..i], a, y, dispatch)
    ensures var (a', more) := HearOne(a, hs[i], dispatch);
            Reached(a0, y0, hs[..i + 1], a', RunAll(y, more), dispatch)
  {
    assert hs[..i + 1][..i] == hs[..i];
    RunJoin(y0, Heard(a0, hs[..i], dispatch).1, HearOne(a, hs[i], dispatch).1);
  }

  lemma OneInput(y: Sys, inputs: seq<Input>)
    requires |inputs| <= 1
    ensures RunAll(y, inputs) == if inputs == [] then y else Step(y, inputs[0])
  {
    if inputs != [] { assert inputs[..0] == []; }
  }

  lemma LinesJoin(inputs: seq<Input>, more: seq<Input>)
    requires |more| <= 1
    ensures LinesOf(inputs + more) == LinesOf(inputs) + LinesOf(more)
  {
    if more == [] {
      assert inputs + more == inputs;
    } else {
      assert (inputs + more)[..|inputs|] == inputs && more[..0] == [];
    }
  }

  lemma MeantJoin(reports: seq<LineResult>, r: LineResult, dispatch: Dispatcher, env: LineEnv)
    ensures Meant(reports + Report(r), dispatch) == Meant(reports, dispatch) + LinesOf(Spoken(r, dispatch, env))
  {
    if r.Nothing? {
      assert reports + Report(r) == reports;
    } else {
      assert (reports + Report(r))[..|reports|] == reports;
      assert Spoken(r, dispatch, env)[..0] == [];
    }
  }

  /** The accumulator stands where the stream puts it, and the engine heard the stream's lines. */
  ghost predicate Tuned(a: Accumulator, inputs: seq<Input>, stream: string, dispatch: Dispatcher) {
    var (b, reports) := Feed(FRESH, stream, CAPACITY);
    a == b && LinesOf(inputs) == Meant(reports, dispatch)
  }

  lemma TunedByte(a: Accumulator, inputs: seq<Input>, stream: string, longer: string, c: char, env: LineEnv, dispatch: Dispatcher)
    requires Tuned(a, inputs, stream, dispatch)
    requires longer != "" && longer[|longer| - 1] == c && longer[..|longer| - 1] == stream
    ensures var (a', r) := Push(a, c, CAPACITY);
            Tuned(a', inputs + Spoken(r, dispatch, env), longer, dispatch)
  {
    var r := Push(a, c, CAPACITY).1;
    LinesJoin(inputs, Spoken(r, dispatch, env));
    MeantJoin(Feed(FRESH, stream, CAPACITY).1, r, dispatch, env);
  }

  lemma SilentByte(a: Accumulator, dispatch: Dispatcher, env: LineEnv)
    ensures Push(a, NUL, CAPACITY) == Push(a, NUL, 0) && Spoken(Push(a, NUL, CAPACITY).1, dispatch, env) == []
  {
  }

  lemma TunedAside(a: Accumulator, inputs: seq<Input>, stream: string, more: seq<Input>, dispatch: Dispatcher)
    requires Tuned(a, inputs, stream, dispatch) && |more| == 1 && (more[0].TickInput? || more[0].Drift?)
    ensures Tuned(a, inputs + more, stream, dispatch)
  {
    LinesJoin(inputs, more);
    assert more[..0] == [] && LinesOf(more) == [];
  }

  /** The lines the engine hears are those of the byte stream, whatever happens between the bytes. */
  lemma {:induction false} HearsTheStream(hs: seq<Happening>, dispatch: Dispatcher)
    ensures var (a, inputs) := Heard(FRESH, hs, dispatch); Tuned(a, inputs, Bytes(hs), dispatch)
    decreases |hs|
  {
    if hs != [] {
      var (before, h) := (hs[..|hs| - 1], hs[|hs| - 1]);
      HearsTheStream(before, dispatch);
      ByteHeard(hs, h);
      HearsOneMore(Heard(FRESH, before, dispatch).0, Heard(FRESH, before, dispatch).1, Bytes(before), Bytes(hs), h, dispatch);
    }
  }

  lemma HearsOneMore(a: Accumulator, inputs: seq<Input>, stream: string, longer: string, h: Happening, dispatch: Dispatcher)
    requires Tuned(a, inputs, stream, dispatch)
    requires match h
             case Received(c, _) => longer != "" && longer[|longer| - 1] == c && longer[..|longer| - 1] == stream
             case InputLost => longer != "" && longer[|longer| - 1] == NUL && longer[..|longer| - 1] == stream
             case _ => longer == stream
    ensures var (a', more) := HearOne(a, h, dispatch); Tuned(a', inputs + more, longer, dispatch)
  {
    match h
    case Received(c, env) => TunedByte(a, inputs, stream, longer, c, env, dispatch);
    case InputLost =>
      var env := LineEnv(false, false, false, false, 0, 0, 0);
      SilentByte(a, dispatch, env);
      TunedByte(a, inputs, stream, longer, NUL, env, dispatch);
    case Turned(t) => TunedAside(a, inputs, stream, [TickInput(t)], dispatch);
    case Changed(b) => TunedAside(a, inputs, stream, [Drift(b)], dispatch);
  }

  lemma ByteHeard(hs: seq<Happening>, h: Happening)
    requires hs != [] && h == hs[|hs| - 1]
    ensures var before := Bytes(hs[..|hs| - 1]);
            match h
            case Received(c, _) => Bytes(hs) != "" && Bytes(hs)[|Bytes(hs)| - 1] == c && Bytes(hs)[..|Bytes(hs)| - 1] == before
            case InputLost => Bytes(hs) != "" && Bytes(hs)[|Bytes(hs)| - 1] == NUL && Bytes(hs)[..|Bytes(hs)| - 1] == before
            case _ => Bytes(hs) == before
  {
  }

  /** From the first byte to the last prompt: in every interleaving of received bytes, input losses,
      ticks and outside changes, the lines dispatched or discarded are exactly those the byte stream
      means, and each of them that is not blank and met while idle owes exactly one prompt. */
  lemma PromptsFollowTheStream(w: World, staged: Byte, hs: seq<Happening>, dispatch: Dispatcher)
    ensures var inputs := Heard(FRESH, hs, dispatch).1;
            var y := RunAll(Boot(w, staged), inputs);
            && LinesOf(inputs) == Meant(Reports(Lines(Bytes(hs)), CAPACITY), dispatch)
            && y.prompts == IdleRequests(Boot(w, staged), inputs) - BoolToNat(y.s.running)
  {
    HearsTheStream(hs, dispatch);
    AccumulatorMeetsStream(Bytes(hs), CAPACITY);
    PromptConservation(w, staged, Heard(FRESH, hs, dispatch).1);
  }
}
