/** Fixed-width arithmetic, control-byte bits and the status vocabulary shared by
    every component of the model. */
module Base {

  const U32_RANGE: int := 0x1_0000_0000
  const U32_MAX: int := 0xFFFF_FFFF

  type u32 = x: int | 0 <= x < 0x1_0000_0000
  type i32 = x: int | -0x8000_0000 <= x < 0x8000_0000
  type Byte = x: int | 0 <= x < 256

  datatype Option<+T> = None | Some(value: T)

  /** `++x` on a uint32_t: wraps. */
  function Inc(x: u32): u32 {
    if x == U32_MAX then 0 else x + 1
  }

  /** `a - b` on uint32_t: wraps. */
  function Sub32(a: u32, b: u32): u32 {
    if a >= b then a - b else a - b + U32_RANGE
  }

  /** `a + b` on uint32_t: wraps. */
  function Add32(a: u32, b: u32): u32 {
    if a + b < U32_RANGE then a + b else a + b - U32_RANGE
  }

  /** static_cast<int32_t>(x). */
  function AsSigned(x: u32): i32 {
    if x < 0x8000_0000 then x else x - U32_RANGE
  }

  function Min(a: int, b: int): int {
    if a <= b then a else b
  }

  /** What a saturating 32-bit counter shows for the true count `n`. */
  function Cap32(n: nat): u32 {
    Min(n, U32_MAX)
  }

  // ---- control-byte bits ----------------------------------------------------

  /** `1 << i` */
  function Pow2(i: nat): (r: nat)
    ensures r >= 1
  {
    if i == 0 then 1 else 2 * Pow2(i - 1)
  }

  /** `(b & (1 << i)) != 0` */
  predicate Bit(b: nat, i: nat)
    decreases i
  {
    if i == 0 then b % 2 == 1 else Bit(b / 2, i - 1)
  }

  /** `b | (1 << i)` */
  function SetBit(b: nat, i: nat): nat
    decreases i
  {
    if i == 0 then (if b % 2 == 1 then b else b + 1) else 2 * SetBit(b / 2, i - 1) + b % 2
  }

  /** `b & ~(1 << i)` */
  function ClearBit(b: nat, i: nat): (r: nat)
    ensures r <= b
    decreases i
  {
    if i == 0 then b - b % 2 else 2 * ClearBit(b / 2, i - 1) + b % 2
  }

  /** How many of the `n` lowest bits of `b` are set. */
  function PopCount(b: nat, n: nat): (r: nat)
    ensures r <= n
    decreases n
  {
    if n == 0 then 0 else b % 2 + PopCount(b / 2, n - 1)
  }

  /** Setting or clearing one bit changes that bit and no other. */
  lemma {:induction false} SetBitBits(b: nat, i: nat, j: nat)
    ensures Bit(SetBit(b, i), j) <==> i == j || Bit(b, j)
    ensures Bit(ClearBit(b, i), j) <==> i != j && Bit(b, j)
    decreases i
  {
    if i > 0 {
      assert SetBit(b, i) / 2 == SetBit(b / 2, i - 1) && SetBit(b, i) % 2 == b % 2;
      assert ClearBit(b, i) / 2 == ClearBit(b / 2, i - 1) && ClearBit(b, i) % 2 == b % 2;
      if j > 0 {
        SetBitBits(b / 2, i - 1, j - 1);
      }
    }
  }

  /** Setting bit i of a value below 2^n keeps it below 2^n and adds a clear bit to the population. */
  lemma {:induction false} SetBitRoom(b: nat, i: nat, n: nat)
    requires i < n && b < Pow2(n)
    ensures SetBit(b, i) < Pow2(n)
    ensures PopCount(SetBit(b, i), n) == PopCount(b, n) + if Bit(b, i) then 0 else 1
    decreases i
  {
    if i > 0 {
      var half := b / 2;
      assert half < Pow2(n - 1);
      SetBitRoom(half, i - 1, n - 1);
      assert SetBit(b, i) == 2 * SetBit(half, i - 1) + b % 2;
      assert SetBit(b, i) / 2 == SetBit(half, i - 1) && SetBit(b, i) % 2 == b % 2;
    }
  }

  lemma {:induction false} ZeroHasNoBits(i: nat)
    ensures !Bit(0, i)
    decreases i
  {
    if i > 0 { ZeroHasNoBits(i - 1); }
  }

  /** `1 << i` has the bit `i` and no other. */
  lemma {:induction false} Pow2Bits(i: nat, j: nat)
    ensures Bit(Pow2(i), j) <==> j == i
    decreases i
  {
    if i == 0 {
      if j > 0 { ZeroHasNoBits(j - 1); }
    } else {
      assert Pow2(i) % 2 == 0 && Pow2(i) / 2 == Pow2(i - 1);
      if j > 0 { Pow2Bits(i - 1, j - 1); }
    }
  }

  /** A value below 2^n is zero exactly when none of its `n` lowest bits is set. */
  lemma {:induction false} NoBitsIsZero(b: nat, n: nat)
    requires b < Pow2(n)
    ensures b == 0 <==> forall j: nat :: j < n ==> !Bit(b, j)
    decreases n
  {
    if b == 0 {
      forall j: nat | j < n ensures !Bit(b, j) { ZeroHasNoBits(j); }
    } else if n > 0 && b % 2 == 0 {
      NoBitsIsZero(b / 2, n - 1);
      var j: nat :| j < n - 1 && Bit(b / 2, j);
      var k := j + 1;
      assert k < n && Bit(b, k);
      assert exists i: nat :: i < n && Bit(b, i);
    } else {
      var k := 0;
      assert k < n && Bit(b, k);
      assert exists i: nat :: i < n && Bit(b, i);
    }
  }

  lemma ByteRange()
    ensures Pow2(8) == 256
    ensures Pow2(0) == 1 && Pow2(1) == 2 && Pow2(2) == 4 && Pow2(3) == 8
    ensures Pow2(4) == 16 && Pow2(5) == 32 && Pow2(6) == 64 && Pow2(7) == 128
  {
    assert Pow2(4) == 16;
  }

  /** `1 << i` in a byte. */
  function PowByte(i: nat): (r: Byte)
    requires i < 8
    ensures r == Pow2(i)
  {
    ByteRange();
    Pow2(i)
  }

  function SetByteBit(b: Byte, i: nat): (r: Byte)
    requires i < 8
    ensures r == SetBit(b, i)
  {
    ByteRange();
    SetBitRoom(b, i, 8);
    SetBit(b, i)
  }
}
