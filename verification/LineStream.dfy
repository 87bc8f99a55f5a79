/** Command lines in a byte stream: the accumulator on values, and what a whole stream means. */
module LineStream {
  import opened Base

  const CAPACITY := 128

  datatype LineResult = Nothing | Ready(command: string) | TooLong | OutputTooSmall | InvalidInput

  predicate Terminator(c: char) {
    c == '\r' || c == '\n'
  }

  /** Control bytes other than tab spoil a line. */
  predicate Control(c: char) {
    c < ' ' && c != '\t'
  }

  predicate Blank(c: char) {
    c == ' ' || c == '\t'
  }

  // ---- the meaning of a line -----------------------------------------------------------

  function TrimLeft(s: string): string {
    if s != "" && Blank(s[0]) then TrimLeft(s[1..]) else s
  }

  function TrimRight(s: string): string {
    if s != "" && Blank(s[|s| - 1]) then TrimRight(s[..|s| - 1]) else s
  }

  function Trim(s: string): string {
    TrimRight(TrimLeft(s))
  }

  /** The line has a control byte that reaches the buffer before or at the point of overflow. */
  predicate Spoiled(line: string) {
    exists i :: 0 <= i < Min(|line|, CAPACITY) && Control(line[i])
  }

  /** What a complete line yields: its first offending byte decides, otherwise its trimmed text. */
  function Judge(line: string, room: nat): LineResult {
    if Spoiled(line) then InvalidInput
    else if |line| >= CAPACITY then TooLong
    else if Trim(line) == "" then Nothing
    else if |Trim(line)| >= room then OutputTooSmall
    else Ready(Trim(line))
  }

  /** The lines a stream completes, in order, and the text after its last terminator. */
  function Lines(stream: string): seq<string> {
    if stream == "" then []
    else
      var (before, c) := (stream[..|stream| - 1], stream[|stream| - 1]);
      if Terminator(c) then Lines(before) + [Rest(before)] else Lines(before)
  }

  function Rest(stream: string): string {
    if stream == "" || Terminator(stream[|stream| - 1]) then ""
    else Rest(stream[..|stream| - 1]) + [stream[|stream| - 1]]
  }

  function Report(r: LineResult): seq<LineResult> {
    if r.Nothing? then [] else [r]
  }

  /** Everything a stream is to report: one result per line that is not blank. */
  function Reports(lines: seq<string>, room: nat): seq<LineResult> {
    if lines == [] then [] else Reports(lines[..|lines| - 1], room) + Report(Judge(lines[|lines| - 1], room))
  }

  // ---- the accumulator -----------------------------------------------------------------

  /** Buffered text, or the reason the current line is being thrown away. */
  datatype Accumulator = Accumulator(text: string, discard: LineResult)

  const FRESH := Accumulator("", Nothing)

  /** One received byte. */
  function Push(a: Accumulator, c: char, room: nat): (Accumulator, LineResult) {
    if !Terminator(c) then
      if !a.discard.Nothing? then (a, Nothing)
      else if Control(c) then (Accumulator("", InvalidInput), Nothing)
      else if |a.text| >= CAPACITY - 1 then (Accumulator("", TooLong), Nothing)
      else (a.(text := a.text + [c]), Nothing)
    else if !a.discard.Nothing? then (FRESH, a.discard)
    else
      var command := Trim(a.text);
      (FRESH, if command == "" then Nothing else if |command| >= room then OutputTooSmall else Ready(command))
  }

  /** Feed a chunk of bytes: the resulting state and every result reported. */
  function Feed(a: Accumulator, chunk: string, room: nat): (Accumulator, seq<LineResult>) {
    if chunk == "" then (a, [])
    else
      var (a1, rs) := Feed(a, chunk[..|chunk| - 1], room);
      var (a2, r) := Push(a1, chunk[|chunk| - 1], room);
      (a2, rs + Report(r))
  }

  /** The state that stands for the unterminated text `line`. */
  function Holding(line: string): Accumulator {
    if Spoiled(line) then Accumulator("", InvalidInput)
    else if |line| >= CAPACITY then Accumulator("", TooLong)
    else Accumulator(line, Nothing)
  }

  lemma SpoiledExtend(line: string, c: char)
    ensures Spoiled(line + [c]) <==> Spoiled(line) || (|line| < CAPACITY && Control(c))
  {
    var line' := line + [c];
    if Spoiled(line) {
      var i :| 0 <= i < Min(|line|, CAPACITY) && Control(line[i]);
      assert Control(line'[i]);
    }
    if |line| < CAPACITY && Control(c) {
      assert Control(line'[|line|]);
    }
    if Spoiled(line') {
      var i :| 0 <= i < Min(|line'|, CAPACITY) && Control(line'[i]);
      if i < |line| { assert Control(line[i]); }
    }
  }

  lemma LineEnds(line: string, c: char, room: nat)
    requires Terminator(c)
    ensures Push(Holding(line), c, room) == (FRESH, Judge(line, room))
  {
  }

  lemma LineGrows(line: string, c: char, room: nat)
    requires !Terminator(c)
    ensures Push(Holding(line), c, room) == (Holding(line + [c]), Nothing)
  {
    SpoiledExtend(line, c);
  }

  /** For every byte stream the accumulator reports exactly what the stream's lines mean, and
      holds exactly what its unfinished line means. */
  lemma {:induction false} AccumulatorMeetsStream(stream: string, room: nat)
    ensures Feed(FRESH, stream, room) == (Holding(Rest(stream)), Reports(Lines(stream), room))
    decreases |stream|
  {
    if stream != "" {
      var (before, c) := (stream[..|stream| - 1], stream[|stream| - 1]);
      AccumulatorMeetsStream(before, room);
      if Terminator(c) {
        LineEnds(Rest(before), c, room);
        assert Lines(stream)[..|Lines(stream)| - 1] == Lines(before);
      } else {
        LineGrows(Rest(before), c, room);
        assert Reports(Lines(before), room) + [] == Reports(Lines(before), room);
      }
    }
  }

  /** How the stream is cut into chunks never matters. */
  lemma {:induction false} ChunkingIsInvisible(a: Accumulator, first: string, second: string, room: nat)
    ensures var (a1, r1) := Feed(a, first, room); var (a2, r2) := Feed(a1, second, room);
            Feed(a, first + second, room) == (a2, r1 + r2)
    decreases |second|
  {
    if second == "" {
      assert first + second == first;
      assert Feed(a, first, room).1 + [] == Feed(a, first, room).1;
    } else {
      var (before, c) := (second[..|second| - 1], second[|second| - 1]);
      ChunkingIsInvisible(a, first, before, room);
      assert (first + second)[..|first + second| - 1] == first + before;
      var (a1, r1) := Feed(a, first, room);
      var (a2, r2) := Feed(a1, before, room);
      var r := Report(Push(a2, c, room).1);
      assert r1 + r2 + r == r1 + (r2 + r);
    }
  }

  /** The same stream with every LF sent as CR LF. */
  function WithCrLf(stream: string): string {
    if stream == "" then ""
    else
      var c := stream[|stream| - 1];
      WithCrLf(stream[..|stream| - 1]) + if c == '\n' then "\r\n" else [c]
  }

  /** Line endings never matter: LF and CR LF streams report the same and hold the same text. */
  lemma {:induction false} LineEndingsAreInvisible(stream: string, room: nat)
    ensures Feed(FRESH, WithCrLf(stream), room) == Feed(FRESH, stream, room)
    decreases |stream|
  {
    if stream != "" {
      var (before, c) := (stream[..|stream| - 1], stream[|stream| - 1]);
      LineEndingsAreInvisible(before, room);
      var sent := WithCrLf(before);
      if c == '\n' {
        ChunkingIsInvisible(FRESH, sent, "\r\n", room);
        var (a1, _) := Feed(FRESH, sent, room);
        EmptyLineAfterCr(a1, room);
        EndOfLine(a1, '\n', room);
      } else {
        assert (sent + [c])[..|sent|] == sent;
      }
    }
  }

  lemma EndOfLine(a: Accumulator, c: char, room: nat)
    requires Terminator(c)
    ensures Push(a, c, room).0 == FRESH && Push(a, c, room) == Push(a, '\n', room)
  {
  }

  lemma EmptyLineAfterCr(a: Accumulator, room: nat)
    ensures Feed(a, "\r\n", room) == (FRESH, Report(Push(a, '\n', room).1))
  {
    var two := "\r\n";
    assert two[..1] == "\r" && two[..1][..0] == "";
    assert Feed(a, two[..1][..0], room) == (a, []);
    EndOfLine(a, '\r', room);
    var r := Report(Push(a, '\n', room).1);
    assert Feed(a, two[..1], room) == (FRESH, [] + r);
    assert Push(FRESH, '\n', room) == (FRESH, Nothing);
    assert Feed(a, two, room) == (FRESH, [] + r + []);
    assert [] + r + [] == r;
  }

  const CTRL_U: char := 21 as char

  /** The bytes the runner sends first: after any stream, 0x15 then LF reports exactly one more
      discarded line, never a command, and leaves the accumulator empty. */
  lemma CtrlUResynchronizes(stream: string, room: nat)
    ensures var (a, reports) := Feed(FRESH, stream + [CTRL_U] + "\n", room);
            && a == FRESH && |reports| == |Reports(Lines(stream), room)| + 1
            && reports[..|reports| - 1] == Reports(Lines(stream), room)
            && (reports[|reports| - 1].InvalidInput? || reports[|reports| - 1].TooLong?)
  {
    AccumulatorMeetsStream(stream, room);
    var (line, reports) := (Rest(stream), Reports(Lines(stream), room));
    assert (stream + [CTRL_U])[..|stream|] == stream;
    assert (stream + [CTRL_U] + "\n")[..|stream| + 1] == stream + [CTRL_U];
    assert Control(CTRL_U) && !Terminator(CTRL_U);
    var a := Push(Holding(line), CTRL_U, room).0;
    assert Feed(FRESH, stream + [CTRL_U], room) == (a, reports + []);
    assert reports + [] == reports;
  }

  /** Trimming removes exactly the blanks at both ends. */
  lemma {:induction false} TrimMeaning(s: string) returns (left: nat, right: nat)
    ensures left <= right <= |s| && Trim(s) == s[left..right]
    ensures forall i :: 0 <= i < left || right <= i < |s| ==> Blank(s[i])
    ensures left < right ==> !Blank(s[left]) && !Blank(s[right - 1])
  {
    left := LeftEdge(s);
    var n := RightEdge(s[left..]);
    right := left + n;
    if left < right { assert s[left..][..n][0] == s[left]; }
  }

  lemma {:induction false} LeftEdge(s: string) returns (left: nat)
    ensures left <= |s| && TrimLeft(s) == s[left..]
    ensures forall i :: 0 <= i < left ==> Blank(s[i])
    ensures left < |s| ==> !Blank(s[left])
    decreases |s|
  {
    if s != "" && Blank(s[0]) {
      var n := LeftEdge(s[1..]);
      left := n + 1;
      assert s[1..][n..] == s[left..];
      forall i | 0 <= i < left ensures Blank(s[i]) {
        if i > 0 { assert s[i] == s[1..][i - 1]; }
      }
    } else {
      left := 0;
    }
  }

  lemma {:induction false} RightEdge(s: string) returns (right: nat)
    ensures right <= |s| && TrimRight(s) == s[..right]
    ensures forall i :: right <= i < |s| ==> Blank(s[i])
    ensures right > 0 ==> !Blank(s[right - 1])
    decreases |s|
  {
    if s != "" && Blank(s[|s| - 1]) {
      right := RightEdge(s[..|s| - 1]);
      assert s[..|s| - 1][..right] == s[..right];
      forall i | right <= i < |s| ensures Blank(s[i]) {
        if i < |s| - 1 { assert s[i] == s[..|s| - 1][i]; }
      }
    } else {
      right := |s|;
    }
  }

  /** Byte `i` of the line is neither a tab (9) nor 32 or above. */
  predicate BadAt(line: string, i: nat) {
    i < |line| && line[i] as int < 32 && line[i] as int != 9
  }

  /** In numbers: a command is a line of at most 127 bytes, none of them bad, whose text between its
      blanks (9 and 32) is neither empty nor too long for the caller; a bad byte among the first 128
      makes the line invalid; and any other line of 128 or more is too long. */
  lemma WhatALineYields(line: string, room: nat)
    ensures Judge(line, room).InvalidInput? <==> exists i: nat :: i < 128 && BadAt(line, i)
    ensures Judge(line, room).TooLong? <==> |line| >= 128 && forall i: nat :: i < 128 ==> !BadAt(line, i)
    ensures Judge(line, room).Ready? <==>
      |line| <= 127 && (forall i: nat :: i < 128 ==> !BadAt(line, i)) && 0 < |Trim(line)| < room
    ensures Judge(line, room).Ready? ==> Judge(line, room).command == Trim(line)
    ensures Judge(line, room).OutputTooSmall? <==>
      |line| <= 127 && (forall i: nat :: i < 128 ==> !BadAt(line, i)) && 0 < |Trim(line)| && room <= |Trim(line)|
  {
    if Spoiled(line) {
      var i: nat :| i < Min(|line|, CAPACITY) && Control(line[i]);
      assert BadAt(line, i);
    } else {
      assert forall i: nat :: i < 128 && BadAt(line, i) ==> Control(line[i]);
    }
  }

  /** In numbers: lines end at 10 and 13, and trimming drops 9 and 32. */
  lemma LineBytes(c: char)
    ensures Terminator(c) <==> c as int in {10, 13}
    ensures Blank(c) <==> c as int in {9, 32}
    ensures Control(c) <==> c as int in {0, 1, 2, 3, 4, 5, 6, 7, 8} || 10 <= c as int <= 31
  {
  }
}
