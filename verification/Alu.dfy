/** vsrc/alu.sv: operand routing, the 17-bit adder and subtractor, and the four flags. */
module Alu {
  import opened Words
  import Isa

  const ALU_IN_REGS := 0
  const ALU_IN_SR := 1
  const ALU_IN_DR := 2
  const ALU_IN_BR := 3
  const ALU_IN_PC := 4
  const ALU_IN_MEM := 5
  const ALU_IN_DR_MEM := 6

  const ALU_ADD := 0
  const ALU_SUB := 1
  const ALU_AND := 2
  const ALU_OR := 3
  const ALU_XOR := 4
  const ALU_SHL := 5
  const ALU_SHR := 6
  const ALU_NOT := 7
  const ALU_ASR := 8

  datatype Inputs = Inputs(memoryData: Word, pcValue: Word, offsetValue: Word, sourceReg: Word, destReg: Word)
  datatype Output = Output(out: Word, c: Bit, z: Bit, v: Bit, s: Bit)

  function OperandA(sel: nat, i: Inputs): Word {
    if sel == ALU_IN_REGS || sel == ALU_IN_SR then i.sourceReg
    else if sel == ALU_IN_BR then i.offsetValue
    else if sel == ALU_IN_DR_MEM then i.memoryData
    else 0
  }

  function OperandB(sel: nat, i: Inputs): Word {
    if sel == ALU_IN_REGS || sel == ALU_IN_DR || sel == ALU_IN_DR_MEM then i.destReg
    else if sel == ALU_IN_BR || sel == ALU_IN_PC then i.pcValue
    else if sel == ALU_IN_MEM then i.memoryData
    else 0
  }

  /** Bit 15. */
  function Top(x: Word): Bit {
    x / 0x8000
  }

  /** The 17-bit sum {0,b} + {0,a} + cin. */
  function AddResult(b: Word, a: Word, cin: Bit): nat {
    (b + a + cin) % 0x2_0000
  }

  /** The 17-bit difference {0,b} - {0,a} - cin, which wraps. */
  function SubResult(b: Word, a: Word, cin: Bit): nat {
    (b - a - cin) % 0x2_0000
  }

  function ResultValue(func: nat, b: Word, a: Word, cin: Bit): Word {
    if func == ALU_ADD then AddResult(b, a, cin) % 0x1_0000
    else if func == ALU_SUB then SubResult(b, a, cin) % 0x1_0000
    else if func == ALU_AND then And16(a, b)
    else if func == ALU_OR then Or16(a, b)
    else if func == ALU_XOR then Xor16(a, b)
    else if func == ALU_SHL then b % 0x8000 * 2
    else if func == ALU_SHR then b / 2
    else if func == ALU_NOT then 0xFFFF - b
    else if func == ALU_ASR then Top(b) * 0x8000 + b / 2
    else 0
  }

  function Compute(func: nat, b: Word, a: Word, cin: Bit): Output {
    var r := ResultValue(func, b, a, cin);
    var v := if func == ALU_ADD then Top(a) == Top(b) && Top(r) != Top(b)
             else if func == ALU_SUB then Top(a) != Top(b) && Top(r) != Top(b)
             else false;
    var c := if func == ALU_ADD then AddResult(b, a, cin) / 0x1_0000
             else if func == ALU_SUB then SubResult(b, a, cin) / 0x1_0000
             else if func == ALU_SHL then Top(b)
             else if func == ALU_SHR || func == ALU_ASR then b % 2
             else 0;
    Output(r, c, ToBit(r == 0), ToBit(v), Top(r))
  }

  function Evaluate(cin: Bit, sel: nat, func: nat, i: Inputs): Output {
    Compute(func, OperandB(sel, i), OperandA(sel, i), cin)
  }

  // ----- what the flags mean -----

  function ToOutcome(o: Output): Isa.Outcome {
    Isa.Outcome(o.out, Isa.Flags(o.c, o.z, o.v, o.s))
  }

  /** Bit 16 of the 17-bit sum is the unsigned carry; the sign-bit test is signed overflow, for every carry-in. */
  lemma AddMeansSum(b: Word, a: Word, cin: Bit)
    ensures ToOutcome(Compute(ALU_ADD, b, a, cin)) == Isa.Sum(b, a, cin)
  {
    SignIsTop(a);
    SignIsTop(b);
    SignIsTop(ResultValue(ALU_ADD, b, a, cin));
  }

  /** Bit 16 of the 17-bit difference is the unsigned borrow; the sign-bit test is signed overflow. */
  lemma SubMeansDifference(b: Word, a: Word, cin: Bit)
    ensures ToOutcome(Compute(ALU_SUB, b, a, cin)) == Isa.Difference(b, a, cin)
  {
    SignIsTop(a);
    SignIsTop(b);
    SignIsTop(ResultValue(ALU_SUB, b, a, cin));
  }

  lemma SignIsTop(x: Word)
    ensures Top(x) == ToBit(Signed(x) < 0)
  {}

  /** INC is 0 + b with carry-in 1 in the RTL and b + 1 in the instruction set; DEC likewise. */
  lemma CarryInIsOne(b: Word)
    ensures Isa.Sum(b, 0, 1) == Isa.Sum(b, 1, 0)
    ensures Isa.Difference(b, 0, 1) == Isa.Difference(b, 1, 0)
  {}

  lemma {:induction false} BitwiseCommutes(op: BoolOp, width: nat, a: nat, b: nat)
    ensures Bitwise(op, width, a, b) == Bitwise(op, width, b, a)
  {
    if width == 0 {
    } else {
      BitwiseCommutes(op, width - 1, a / 2, b / 2);
    }
  }

  lemma AndMeansPlain(b: Word, a: Word)
    ensures ToOutcome(Compute(ALU_AND, b, a, 0)) == Isa.Plain(And16(b, a), 0)
  {
    BitwiseCommutes(AndOp, 16, a, b);
  }

  lemma OrMeansPlain(b: Word, a: Word)
    ensures ToOutcome(Compute(ALU_OR, b, a, 0)) == Isa.Plain(Or16(b, a), 0)
  {
    BitwiseCommutes(OrOp, 16, a, b);
  }

  lemma XorMeansPlain(b: Word, a: Word)
    ensures ToOutcome(Compute(ALU_XOR, b, a, 0)) == Isa.Plain(Xor16(b, a), 0)
  {
    BitwiseCommutes(XorOp, 16, a, b);
  }

  /** Shifts and complement: C is the bit shifted out, V is clear, and ASR halves the signed value. */
  lemma ShiftsMeanOutcomes(b: Word, a: Word)
    ensures ToOutcome(Compute(ALU_SHL, b, a, 0)) == Isa.OneRegOutcome(Isa.Shl, b)
    ensures ToOutcome(Compute(ALU_SHR, b, a, 0)) == Isa.OneRegOutcome(Isa.Shr, b)
    ensures ToOutcome(Compute(ALU_NOT, b, a, 0)) == Isa.OneRegOutcome(Isa.Not, b)
    ensures ToOutcome(Compute(ALU_ASR, b, a, 0)) == Isa.OneRegOutcome(Isa.Asr, b)
  {
    hide Compute, Isa.OneRegOutcome;
    LeftShift(b, a);
    RightShift(b, a);
    Complement(b, a);
    SignKeepingRightShift(b, a);
  }

  lemma LeftShift(b: Word, a: Word)
    ensures ToOutcome(Compute(ALU_SHL, b, a, 0)) == Isa.OneRegOutcome(Isa.Shl, b)
  {
    SignIsTop(b);
  }

  lemma RightShift(b: Word, a: Word)
    ensures ToOutcome(Compute(ALU_SHR, b, a, 0)) == Isa.OneRegOutcome(Isa.Shr, b)
  {}

  lemma Complement(b: Word, a: Word)
    ensures ToOutcome(Compute(ALU_NOT, b, a, 0)) == Isa.OneRegOutcome(Isa.Not, b)
  {}

  lemma SignKeepingRightShift(b: Word, a: Word)
    ensures ToOutcome(Compute(ALU_ASR, b, a, 0)) == Isa.OneRegOutcome(Isa.Asr, b)
  {
    SignIsTop(b);
  }

  /** CMP then JRC branches exactly when the destination is below the source as unsigned numbers. */
  lemma CompareThenBranch(s: Isa.Arch, dr: RegIndex, sr: RegIndex)
    ensures var t := Isa.Exec(Isa.TwoReg(Isa.Cmp, dr, sr), s);
            && (Isa.Holds(Isa.IfC, t.flags) <==> s.regs[dr] < s.regs[sr])
            && (Isa.Holds(Isa.IfZ, t.flags) <==> s.regs[dr] == s.regs[sr])
            && ((t.flags.s != t.flags.v) <==> Signed(s.regs[dr]) < Signed(s.regs[sr]))
  {}
}
