/** The fixed-storage line accumulator object. */
module LineBuffer {
  import opened Base
  import opened LineStream

  class FixedLineBuffer {
    const buffer: array<char>
    var length: nat
    var discardReason: LineResult

    ghost predicate Valid()
      reads this
    {
      && buffer.Length == CAPACITY && length < CAPACITY
      && (discardReason.Nothing? || ((discardReason.TooLong? || discardReason.InvalidInput?) && length == 0))
    }

    ghost function View(): Accumulator
      requires Valid()
      reads this, buffer
    {
      Accumulator(buffer[..length], discardReason)
    }

    constructor ()
      ensures Valid() && fresh(buffer) && View() == FRESH
    {
      buffer := new char[CAPACITY];
      length, discardReason := 0, Nothing;
    }

    method Reset()
      requires buffer.Length == CAPACITY
      modifies this
      ensures Valid() && View() == FRESH
    {
      length := 0;
      discardReason := Nothing;
    }

    /** The bounds of the trimmed command inside the buffer. */
    method Edges() returns (first: nat, last: nat)
      requires Valid()
      ensures first <= last <= length
      ensures Trim(buffer[..length]) == buffer[first..last]
    {
      first, last := 0, length;
      while first < length && (buffer[first] == ' ' || buffer[first] == '\t')
        invariant first <= length
        invariant TrimLeft(buffer[..length]) == TrimLeft(buffer[first..length])
      {
        assert buffer[first..length][1..] == buffer[first + 1..length];
        first := first + 1;
      }
      assert TrimLeft(buffer[..length]) == buffer[first..length];
      while last > first && (buffer[last - 1] == ' ' || buffer[last - 1] == '\t')
        invariant first <= last <= length
        invariant Trim(buffer[..length]) == TrimRight(buffer[first..last])
      {
        assert buffer[first..last][..last - 1 - first] == buffer[first..last - 1];
        last := last - 1;
      }
    }

    /** One received byte. A ready command is copied to `output` with a final NUL; otherwise
        `output` is left alone. A missing output counts as one with no room. */
    method PushByte(value: char, output: array?<char>) returns (result: LineResult)
      requires Valid() && output != buffer
      modifies this, buffer, output
      ensures Valid()
      ensures (View(), result) == Push(old(View()), value, if output == null then 0 else output.Length)
      ensures result.Ready? ==>
        && output != null && output[..|result.command|] == result.command && output[|result.command|] == '\0'
        && output[|result.command| + 1..] == old(output[|result.command| + 1..])
      ensures !result.Ready? && output != null ==> output[..] == old(output[..])
    {
      if value != '\r' && value != '\n' {
        if !discardReason.Nothing? {
          return Nothing;
        }
        if value < ' ' && value != '\t' {
          discardReason := InvalidInput;
          length := 0;
          return Nothing;
        }
        if length >= CAPACITY - 1 {
          discardReason := TooLong;
          length := 0;
          return Nothing;
        }
        ghost var text := buffer[..length];
        buffer[length] := value;
        length := length + 1;
        assert buffer[..length] == text + [value];
        return Nothing;
      }
      if !discardReason.Nothing? {
        result := discardReason;
        Reset();
        return;
      }
      if length == 0 {
        return Nothing;
      }
      var first, last := Edges();
      var commandLength := last - first;
      if commandLength == 0 {
        Reset();
        return Nothing;
      }
      if output == null || output.Length == 0 || commandLength >= output.Length {
        Reset();
        return OutputTooSmall;
      }
      ghost var command := buffer[first..last];
      ghost var was := output[..];
      for i := 0 to commandLength
        invariant output[..i] == command[..i]
        invariant forall j :: i <= j < output.Length ==> output[j] == was[j]
        invariant buffer[..] == old(buffer[..])
      {
        output[i] := buffer[first + i];
      }
      output[commandLength] := '\0';
      result := Ready(buffer[first..last]);
      assert output[..commandLength] == command;
      Reset();
    }
  }
}
