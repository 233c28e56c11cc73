/**
 * The flag updates that model/reference_model.py and verilator_tb/golden_isa.h share: overflow is decided by
 * xor masks on the sign bits of operands and result.
 */
module SoftwareFlags {
  import opened Words
  import opened Isa

  function NonZeroBit(x: Word): Bit {
    ToBit(x != 0)
  }

  function LogicFlags(value: Word, carry: Bit): Flags {
    Flags(carry, ToBit(value == 0), 0, NonZeroBit(And16(value, 0x8000)))
  }

  function AddFlags(a: Word, b: Word, result: Word, carryOut: Bit): Flags {
    Flags(carryOut, ToBit(result == 0),
          NonZeroBit(And16(And16(Xor16(a, result), Xor16(b, result)), 0x8000)),
          NonZeroBit(And16(result, 0x8000)))
  }

  function SubFlags(a: Word, b: Word, result: Word, carryOut: Bit): Flags {
    Flags(carryOut, ToBit(result == 0),
          NonZeroBit(And16(And16(Xor16(a, b), Xor16(result, b)), 0x8000)),
          NonZeroBit(And16(result, 0x8000)))
  }

  lemma LogicFlagsMeanPlain(value: Word, carry: Bit)
    ensures LogicFlags(value, carry) == Plain(value, carry).flags
  {
    SignMask(value);
  }

  /** The xor-mask overflow of an addition, with or without carry-in, is signed overflow. */
  lemma AddFlagsMeanSum(a: Word, b: Word, cin: Bit)
    ensures AddFlags(a, b, Wrap(b + a + cin), ToBit(b + a + cin > 0xFFFF)) == Sum(b, a, cin).flags
  {
    hide And16, Xor16;
    var r := Wrap(b + a + cin);
    XorMaskIsSignForm(a, r, b, r);
    SignMask(r);
  }

  /** The xor-mask overflow of a subtraction is signed overflow, and bit 16 of the masked difference is the borrow. */
  lemma SubFlagsMeanDifference(a: Word, b: Word, cin: Bit)
    ensures var full := (b - a - cin) % 0x2_0000;
            && full % 0x1_0000 == Difference(b, a, cin).value
            && SubFlags(a, b, full % 0x1_0000, full / 0x1_0000 % 2) == Difference(b, a, cin).flags
  {
    hide And16, Xor16;
    var full := (b - a - cin) % 0x2_0000;
    var r := full % 0x1_0000;
    assert full == if b < a + cin then b - a - cin + 0x2_0000 else b - a - cin;
    assert r == Wrap(b - a - cin);
    XorMaskIsSignForm(a, b, r, b);
    SignMask(r);
  }

  /** INC sets its flags from the operands 0 and b, yet gets those of b + 1. */
  lemma IncrementFlags(b: Word)
    ensures AddFlags(0, b, Wrap(b + 1), ToBit(b + 1 > 0xFFFF)) == Sum(b, 1, 0).flags
  {
    hide AddFlags;
    AddFlagsMeanSum(0, b, 1);
  }
}
