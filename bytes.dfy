/** Byte and 16-bit word values of the CHIP-8 machine, their wrap-around
    arithmetic, and the bitwise operators the ALU instructions use. */
module Bytes {

  /** A `uint8_t`: registers, memory cells, timers, keypad entries. */
  type Byte = b: int | 0 <= b < 0x100

  /** A `uint16_t`: the program counter, the index register, stack slots, the opcode. */
  type Word = w: int | 0 <= w < 0x1_0000

  /** Assignment of an integer to a `uint8_t` keeps its low 8 bits. */
  function Trunc8(v: int): (r: Byte)
    ensures (r - v) % 0x100 == 0
    ensures 0 <= v < 0x100 ==> r == v
  {
    v % 0x100
  }

  /** Assignment of an integer to a `uint16_t` keeps its low 16 bits. */
  function Trunc16(v: int): (r: Word)
    ensures (r - v) % 0x1_0000 == 0
    ensures 0 <= v < 0x1_0000 ==> r == v
  {
    v % 0x1_0000
  }

  /** Two 16-bit additions in a row wrap like one. */
  lemma Trunc16Twice(a: int, b: int, c: int)
    ensures Trunc16(Trunc16(a + b) + c) == Trunc16(a + b + c)
  {
    var q := (a + b) / 0x1_0000;
    assert Trunc16(a + b) + c == a + b + c - q * 0x1_0000;
  }

  function Pow2(k: nat): (r: nat)
    ensures r >= 1
  {
    if k == 0 then 1 else 2 * Pow2(k - 1)
  }

  /** Bit i of a, counted from the least significant bit. */
  predicate TestBit(a: nat, i: nat)
  {
    if i == 0 then a % 2 == 1 else TestBit(a / 2, i - 1)
  }

  datatype BitOp = AndOp | OrOp | XorOp

  predicate Combine(op: BitOp, p: bool, q: bool)
  {
    match op
    case AndOp => p && q
    case OrOp => p || q
    case XorOp => p != q
  }

  /** The low w bits of a and b combined bit by bit with op. */
  function Bitwise(op: BitOp, a: nat, b: nat, w: nat): (r: nat)
    ensures r < Pow2(w)
  {
    if w == 0 then 0
    else 2 * Bitwise(op, a / 2, b / 2, w - 1) + (if Combine(op, a % 2 == 1, b % 2 == 1) then 1 else 0)
  }

  lemma Pow2Eight()
    ensures Pow2(8) == 0x100
  {
  }

  /** C's `a & b` on two bytes. */
  function BitAnd(a: Byte, b: Byte): (r: Byte)
    ensures forall i :: 0 <= i < 8 ==> (TestBit(r, i) <==> TestBit(a, i) && TestBit(b, i))
  {
    Pow2Eight();
    BitwiseBits(AndOp, a, b, 8);
    Bitwise(AndOp, a, b, 8)
  }

  /** C's `a | b` on two bytes. */
  function BitOr(a: Byte, b: Byte): (r: Byte)
    ensures forall i :: 0 <= i < 8 ==> (TestBit(r, i) <==> TestBit(a, i) || TestBit(b, i))
  {
    Pow2Eight();
    BitwiseBits(OrOp, a, b, 8);
    Bitwise(OrOp, a, b, 8)
  }

  /** C's `a ^ b` on two bytes. */
  function BitXor(a: Byte, b: Byte): (r: Byte)
    ensures forall i :: 0 <= i < 8 ==> (TestBit(r, i) <==> TestBit(a, i) != TestBit(b, i))
  {
    Pow2Eight();
    BitwiseBits(XorOp, a, b, 8);
    Bitwise(XorOp, a, b, 8)
  }

  /** Each bit of the result is op applied to the same bit of the operands. */
  lemma {:induction false} BitwiseBit(op: BitOp, a: nat, b: nat, w: nat, i: nat)
    requires i < w
    ensures TestBit(Bitwise(op, a, b, w), i) == Combine(op, TestBit(a, i), TestBit(b, i))
  {
    var r := Bitwise(op, a / 2, b / 2, w - 1);
    var low := if Combine(op, a % 2 == 1, b % 2 == 1) then 1 else 0;
    assert Bitwise(op, a, b, w) == 2 * r + low;
    assert (2 * r + low) / 2 == r && (2 * r + low) % 2 == low;
    if i > 0 {
      BitwiseBit(op, a / 2, b / 2, w - 1, i - 1);
    }
  }

  lemma BitwiseBits(op: BitOp, a: nat, b: nat, w: nat)
    ensures forall i :: 0 <= i < w ==> TestBit(Bitwise(op, a, b, w), i) == Combine(op, TestBit(a, i), TestBit(b, i))
  {
    forall i | 0 <= i < w
      ensures TestBit(Bitwise(op, a, b, w), i) == Combine(op, TestBit(a, i), TestBit(b, i))
    {
      BitwiseBit(op, a, b, w, i);
    }
  }

  /** Bit i is the remainder mod 2 after dividing by 2^i: `(a >> i) & 1`. */
  lemma {:induction false} TestBitShift(a: nat, i: nat)
    ensures TestBit(a, i) <==> (a / Pow2(i)) % 2 == 1
  {
    if i > 0 {
      TestBitShift(a / 2, i - 1);
      DivDiv(a, Pow2(i - 1));
    }
  }

  /** Halving, then dividing by c, is dividing by 2c. */
  lemma DivDiv(a: nat, c: nat)
    requires c > 0
    ensures a / 2 / c == a / (2 * c)
  {
    var q, r := a / 2 / c, a / 2 % c;
    assert a / 2 == q * c + r;
    assert a == q * (2 * c) + (2 * r + a % 2);
    DivUnique(a, 2 * c, q, 2 * r + a % 2);
  }

  lemma DivUnique(a: int, d: int, q: int, r: int)
    requires d > 0 && a == q * d + r && 0 <= r < d
    ensures a / d == q
  {
    var k := q - a / d;
    assert k * d == a % d - r;
    if k > 0 {
      MulAtLeast(k, d);
    } else if k < 0 {
      MulAtLeast(-k, d);
    }
  }

  lemma MulAtLeast(k: int, d: int)
    requires k >= 1 && d > 0
    ensures k * d >= d
  {
  }

  /** Masking with AND never yields more than the mask. */
  lemma {:induction false} BitwiseAndBound(a: nat, b: nat, w: nat)
    requires b < Pow2(w)
    ensures Bitwise(AndOp, a, b, w) <= b
  {
    if w > 0 {
      BitwiseAndBound(a / 2, b / 2, w - 1);
    }
  }

  /** XOR with the same value twice gives back the low w bits. */
  lemma {:induction false} BitwiseXorTwice(a: nat, b: nat, w: nat)
    requires a < Pow2(w)
    ensures Bitwise(XorOp, Bitwise(XorOp, a, b, w), b, w) == a
  {
    if w > 0 {
      var r := Bitwise(XorOp, a / 2, b / 2, w - 1);
      var low := if (a % 2 == 1) != (b % 2 == 1) then 1 else 0;
      assert Bitwise(XorOp, a, b, w) == 2 * r + low;
      assert (2 * r + low) / 2 == r && (2 * r + low) % 2 == low;
      BitwiseXorTwice(a / 2, b / 2, w - 1);
    }
  }

  /** `r & kk` on bytes is at most the mask kk. */
  lemma BitAndBound(a: Byte, b: Byte)
    ensures BitAnd(a, b) <= b && BitAnd(a, b) <= a
  {
    Pow2Eight();
    BitwiseAndBound(a, b, 8);
    BitwiseCommutes(AndOp, a, b, 8);
    BitwiseAndBound(b, a, 8);
  }

  lemma {:induction false} BitwiseCommutes(op: BitOp, a: nat, b: nat, w: nat)
    ensures Bitwise(op, a, b, w) == Bitwise(op, b, a, w)
  {
    if w > 0 {
      BitwiseCommutes(op, a / 2, b / 2, w - 1);
    }
  }

  /** XOR on bytes is self-inverse. */
  lemma BitXorTwice(a: Byte, b: Byte)
    ensures BitXor(BitXor(a, b), b) == a
  {
    Pow2Eight();
    BitwiseXorTwice(a, b, 8);
  }

  /** The three decimal digits of a byte, most significant first, as
      `Fx33` stores them: v / 100, (v / 10) % 10, v % 10. */
  function Bcd(v: Byte): (d: seq<Byte>)
    ensures |d| == 3
    ensures d[0] < 10 && d[1] < 10 && d[2] < 10
    ensures 100 * (d[0] as int) + 10 * (d[1] as int) + d[2] as int == v
  {
    [v / 100, (v / 10) % 10, v % 10]
  }

  /** The digits by repeated division by ten, least significant first. */
  lemma BcdBySteps(v: Byte)
    ensures Bcd(v) == [v / 10 / 10 % 10, v / 10 % 10, v % 10]
  {
    assert v / 10 / 10 == v / 100;
  }

  lemma BcdExamples()
    ensures Bcd(255) == [2, 5, 5]
    ensures Bcd(7) == [0, 0, 7]
  {
  }
}
