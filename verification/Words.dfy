/** Machine words and the bitwise operators that the hardware and both software models use on them. */
module Words {
  type Word = n: nat | n < 0x1_0000
  type Bit = n: nat | n <= 1
  type Byte = n: nat | n < 0x100
  type RegIndex = n: nat | n < 16
  type Regs = r: seq<Word> | |r| == 16 witness seq(16, _ => 0)
  type Mem = m: seq<Word> | |m| == 0x1_0000 witness seq(0x1_0000, _ => 0)

  function ZeroRegs(): Regs {
    seq(16, _ => 0)
  }

  function ZeroMem(): Mem {
    seq(0x1_0000, _ => 0)
  }

  /** Memory holding an image from address 0, zero elsewhere. */
  function ImageMem(image: seq<Word>): Mem {
    seq(0x1_0000, a requires 0 <= a => if a < |image| then image[a] else 0)
  }

  /** `x & 0xFFFF` on an unbounded two's complement integer. */
  function Wrap(x: int): Word {
    x % 0x1_0000
  }

  /** The two's complement reading of a word. */
  function Signed(x: Word): int {
    if x < 0x8000 then x else x - 0x1_0000
  }

  function Signed8(x: Byte): int {
    if x < 0x80 then x else x - 0x100
  }

  function ToBit(b: bool): Bit {
    if b then 1 else 0
  }

  // Fields of an instruction word.
  function Opcode(w: Word): Byte {
    w / 0x100
  }

  function DestField(w: Word): RegIndex {
    w / 0x10 % 0x10
  }

  function SourceField(w: Word): RegIndex {
    w % 0x10
  }

  function Imm8(w: Word): Byte {
    w % 0x100
  }

  // Bitwise operators, one bit at a time from the least significant end.
  datatype BoolOp = AndOp | OrOp | XorOp

  function ApplyBool(op: BoolOp, x: bool, y: bool): bool {
    match op
    case AndOp => x && y
    case OrOp => x || y
    case XorOp => x != y
  }

  function Pow2(k: nat): (r: nat)
    ensures r > 0
  {
    if k == 0 then 1 else 2 * Pow2(k - 1)
  }

  function Bitwise(op: BoolOp, width: nat, a: nat, b: nat): (r: nat)
    ensures r < Pow2(width)
  {
    if width == 0 then 0
    else ToBit(ApplyBool(op, a % 2 == 1, b % 2 == 1)) + 2 * Bitwise(op, width - 1, a / 2, b / 2)
  }

  lemma Pow2Sixteen()
    ensures Pow2(16) == 0x1_0000 && Pow2(15) == 0x8000
  {
    assert Pow2(4) == 16;
    assert Pow2(8) == 256;
    assert Pow2(12) == 4096;
  }

  function And16(a: Word, b: Word): Word {
    Pow2Sixteen();
    Bitwise(AndOp, 16, a, b)
  }

  function Or16(a: Word, b: Word): Word {
    Pow2Sixteen();
    Bitwise(OrOp, 16, a, b)
  }

  function Xor16(a: Word, b: Word): Word {
    Pow2Sixteen();
    Bitwise(XorOp, 16, a, b)
  }

  predicate TestBit(x: nat, i: nat) {
    x / Pow2(i) % 2 == 1
  }

  /** Bit i of the result is the boolean operator on bit i of the operands, for every width. */
  lemma {:induction false} BitwiseAt(op: BoolOp, width: nat, a: nat, b: nat, i: nat)
    requires i < width
    ensures TestBit(Bitwise(op, width, a, b), i) == ApplyBool(op, TestBit(a, i), TestBit(b, i))
  {
    hide TestBit, ApplyBool;
    if i == 0 {
      LowestBit(op, width, a, b);
    } else {
      BitwiseAt(op, width - 1, a / 2, b / 2, i - 1);
      var r := Bitwise(op, width, a, b);
      assert r / 2 == Bitwise(op, width - 1, a / 2, b / 2);
      HalveTestBit(r, i);
      HalveTestBit(a, i);
      HalveTestBit(b, i);
    }
  }

  /** Every bit of the three operators, in the words of logic. */
  lemma BitsOf(a: Word, b: Word, i: nat)
    requires i < 16
    ensures TestBit(And16(a, b), i) <==> TestBit(a, i) && TestBit(b, i)
    ensures TestBit(Or16(a, b), i) <==> TestBit(a, i) || TestBit(b, i)
    ensures TestBit(Xor16(a, b), i) <==> TestBit(a, i) != TestBit(b, i)
  {
    hide TestBit, Bitwise;
    BitwiseAt(AndOp, 16, a, b, i);
    BitwiseAt(OrOp, 16, a, b, i);
    BitwiseAt(XorOp, 16, a, b, i);
  }

  /** Bits that both operands have are counted twice in their sum. */
  lemma {:induction false} BitwiseSums(width: nat, a: nat, b: nat)
    requires a < Pow2(width) && b < Pow2(width)
    ensures Bitwise(OrOp, width, a, b) + Bitwise(AndOp, width, a, b) == a + b
    ensures Bitwise(XorOp, width, a, b) + 2 * Bitwise(AndOp, width, a, b) == a + b
  {
    if width == 0 {
    } else {
      BitwiseSums(width - 1, a / 2, b / 2);
    }
  }

  /** OR and XOR as arithmetic: the sum less the common bits, and less them twice. */
  lemma LogicSums(a: Word, b: Word)
    ensures Or16(a, b) as int == a + b - And16(a, b)
    ensures Xor16(a, b) as int == a + b - 2 * And16(a, b)
  {
    Pow2Sixteen();
    BitwiseSums(16, a, b);
  }

  /** Every bit of the complement is inverted. */
  lemma {:induction false} ComplementBits(width: nat, x: nat, i: nat)
    requires i < width && x < Pow2(width)
    ensures TestBit(Pow2(width) - 1 - x, i) <==> !TestBit(x, i)
    decreases width
  {
    var y := Pow2(width) - 1 - x;
    assert Pow2(width) == 2 * Pow2(width - 1);
    assert y / 2 == Pow2(width - 1) - 1 - x / 2;
    if i == 0 {
      assert Pow2(0) == 1;
    } else {
      ComplementBits(width - 1, x / 2, i - 1);
      HalveTestBit(x, i);
      HalveTestBit(y, i);
    }
  }

  /** A word is its fields, and the readings of words and bytes are the values congruent to them in range. */
  lemma ReadingsOf(w: Word, b: Byte, x: int)
    ensures w == Opcode(w) * 0x100 + DestField(w) * 0x10 + SourceField(w) == Opcode(w) * 0x100 + Imm8(w)
    ensures -0x8000 <= Signed(w) <= 0x7FFF && (w - Signed(w)) % 0x1_0000 == 0
    ensures -0x80 <= Signed8(b) <= 0x7F && (b - Signed8(b)) % 0x100 == 0
    ensures (x - Wrap(x)) % 0x1_0000 == 0 && Wrap(w) == w
    ensures ToBit(true) == 1 && ToBit(false) == 0
  {
    assert w == (w / 0x10) * 0x10 + w % 0x10;
    assert w / 0x10 == (w / 0x100) * 0x10 + w / 0x10 % 0x10;
  }

  lemma LowestBit(op: BoolOp, width: nat, a: nat, b: nat)
    requires width > 0
    ensures TestBit(Bitwise(op, width, a, b), 0) == ApplyBool(op, TestBit(a, 0), TestBit(b, 0))
  {
    assert Pow2(0) == 1;
  }

  lemma HalveTestBit(x: nat, i: nat)
    requires i > 0
    ensures TestBit(x, i) == TestBit(x / 2, i - 1)
  {
    DivDiv(x, Pow2(i - 1));
  }

  lemma DivDiv(x: nat, d: nat)
    requires d > 0
    ensures x / (2 * d) == x / 2 / d
  {
    var q, r := x / 2 / d, x / 2 % d;
    assert x / 2 == d * q + r;
    assert x == 2 * d * q + (2 * r + x % 2);
    DivUnique(x, 2 * d, q, 2 * r + x % 2);
  }

  lemma DivUnique(x: nat, d: nat, q: nat, r: nat)
    requires d > 0 && x == d * q + r && r < d
    ensures x / d == q
  {
    var k := x / d - q;
    assert d * (x / d) + x % d == x;
    assert d * k == d * (x / d) - d * q;
    if k >= 1 {
      MulAtLeast(d, k);
    } else if k <= -1 {
      MulAtLeast(d, -k);
    }
  }

  lemma MulAtLeast(d: nat, k: int)
    requires k >= 1
    ensures d * k >= d
  {}

  /** The most significant bit of a `width`-bit result. */
  lemma {:induction false} BitwiseTop(op: BoolOp, width: nat, a: nat, b: nat)
    requires width > 0 && a < Pow2(width) && b < Pow2(width)
    ensures Bitwise(op, width, a, b) >= Pow2(width - 1)
       <==> ApplyBool(op, a >= Pow2(width - 1), b >= Pow2(width - 1))
  {
    if width > 1 {
      BitwiseTop(op, width - 1, a / 2, b / 2);
    } else {
      assert Pow2(1) == 2;
      assert Bitwise(op, 0, a / 2, b / 2) == 0;
    }
  }

  /** Masking with the sign bit keeps the sign bit and nothing else. */
  lemma {:induction false} AndTop(width: nat, a: nat)
    requires width > 0 && a < Pow2(width)
    ensures Bitwise(AndOp, width, a, Pow2(width - 1)) == if a >= Pow2(width - 1) then Pow2(width - 1) else 0
  {
    if width > 1 {
      AndTop(width - 1, a / 2);
    } else {
      assert Pow2(1) == 2;
      assert Bitwise(AndOp, 0, a / 2, 0) == 0;
    }
  }

  /** Or of a value with the (absent or present) sign bit above it is a sum. */
  lemma {:induction false} OrTop(width: nat, top: nat, a: nat)
    requires width > 0 && a < Pow2(width - 1) && (top == 0 || top == Pow2(width - 1))
    ensures Bitwise(OrOp, width, top, a) == top + a
  {
    if width > 1 {
      OrTop(width - 1, top / 2, a / 2);
    } else {
      assert Bitwise(OrOp, 0, top / 2, a / 2) == 0;
    }
  }

  /** `x & 0x8000` is the sign bit of x. */
  lemma SignMask(x: Word)
    ensures And16(x, 0x8000) == if x >= 0x8000 then 0x8000 else 0
  {
    Pow2Sixteen();
    AndTop(16, x);
  }

  /** `(x & 0x8000) | (x >> 1)` shifts right and keeps the sign. */
  lemma SignKeepingShift(x: Word)
    ensures Or16(And16(x, 0x8000), x / 2) == Wrap(Signed(x) / 2)
  {
    Pow2Sixteen();
    SignMask(x);
    OrTop(16, And16(x, 0x8000), x / 2);
  }

  /** The mask form of an overflow test: `(x ^ y) & (u ^ w) & 0x8000` is nonzero iff both pairs differ in sign. */
  lemma XorMaskIsSignForm(x: Word, y: Word, u: Word, w: Word)
    ensures And16(And16(Xor16(x, y), Xor16(u, w)), 0x8000) != 0
       <==> (x >= 0x8000) != (y >= 0x8000) && (u >= 0x8000) != (w >= 0x8000)
  {
    Pow2Sixteen();
    BitwiseTop(XorOp, 16, x, y);
    BitwiseTop(XorOp, 16, u, w);
    BitwiseTop(AndOp, 16, Xor16(x, y), Xor16(u, w));
    SignMask(And16(Xor16(x, y), Xor16(u, w)));
  }
}
