/**
 * The instruction set, stated over integers: what each instruction does to the registers, PC, flags
 * and memory. The flags are defined by arithmetic (carry, borrow, signed range), not by bit tricks,
 * so that the RTL and the two software models can each be compared with it.
 */
module Isa {
  import opened Words
  import opened Results

  datatype Flags = Flags(c: Bit, z: Bit, v: Bit, s: Bit)

  /** The state visible at instruction retirement. */
  datatype Arch = Arch(pc: Word, regs: Regs, flags: Flags, mem: Mem)

  datatype TwoRegOp = Add | Sub | And | Cmp | Xor | Test | Or | Mvrr | Adc | Sbb
  datatype OneRegOp = Dec | Inc | Shl | Shr | Not | Asr
  datatype Condition = Always | IfS | IfNotS | IfC | IfNotC | IfZ | IfNotZ

  datatype Instr =
    | TwoReg(op2: TwoRegOp, dr: RegIndex, sr: RegIndex)
    | OneReg(op1: OneRegOp, dr: RegIndex)
    | Jump(cond: Condition, offset: int)
    | SetCarry(bit: Bit)
    | Jmpa
    | Mvrd(dr: RegIndex)
    | Ldrr(dr: RegIndex, sr: RegIndex)
    | Strr(dr: RegIndex, sr: RegIndex)
    | Addi(dr: RegIndex)
    | Andi(dr: RegIndex)
    | Calla(offset: int)
    | Ret

  const LINK: RegIndex := 15
  const CLEARED := Flags(0, 0, 0, 0)

  function InitArch(mem: Mem): Arch {
    Arch(0, ZeroRegs(), CLEARED, mem)
  }

  /** Everything but memory starts at zero. */
  lemma InitIsZero(mem: Mem, r: RegIndex)
    ensures var s := InitArch(mem);
            && s.pc == 0 && s.regs[r] == 0 && s.mem == mem
            && s.flags.c == 0 && s.flags.z == 0 && s.flags.v == 0 && s.flags.s == 0
  {}

  function Decode(w: Word): Option<Instr> {
    var dr, sr := DestField(w), SourceField(w);
    match Opcode(w)
    case 0x00 => Some(TwoReg(Add, dr, sr))
    case 0x01 => Some(TwoReg(Sub, dr, sr))
    case 0x02 => Some(TwoReg(And, dr, sr))
    case 0x03 => Some(TwoReg(Cmp, dr, sr))
    case 0x04 => Some(TwoReg(Xor, dr, sr))
    case 0x05 => Some(TwoReg(Test, dr, sr))
    case 0x06 => Some(TwoReg(Or, dr, sr))
    case 0x07 => Some(TwoReg(Mvrr, dr, sr))
    case 0x08 => Some(OneReg(Dec, dr))
    case 0x09 => Some(OneReg(Inc, dr))
    case 0x0A => Some(OneReg(Shl, dr))
    case 0x0B => Some(OneReg(Shr, dr))
    case 0x0C => Some(TwoReg(Adc, dr, sr))
    case 0x0D => Some(TwoReg(Sbb, dr, sr))
    case 0x0E => Some(OneReg(Not, dr))
    case 0x0F => Some(OneReg(Asr, dr))
    case 0x40 => Some(Jump(Always, Signed8(Imm8(w))))
    case 0x41 => Some(Jump(IfS, Signed8(Imm8(w))))
    case 0x43 => Some(Jump(IfNotS, Signed8(Imm8(w))))
    case 0x44 => Some(Jump(IfC, Signed8(Imm8(w))))
    case 0x45 => Some(Jump(IfNotC, Signed8(Imm8(w))))
    case 0x46 => Some(Jump(IfZ, Signed8(Imm8(w))))
    case 0x47 => Some(Jump(IfNotZ, Signed8(Imm8(w))))
    case 0x78 => Some(SetCarry(0))
    case 0x7A => Some(SetCarry(1))
    case 0x80 => Some(Jmpa)
    case 0x81 => Some(Mvrd(dr))
    case 0x82 => Some(Ldrr(dr, sr))
    case 0x83 => Some(Strr(dr, sr))
    case 0x84 => Some(Addi(dr))
    case 0x85 => Some(Andi(dr))
    case 0xF0 => Some(Calla(Signed8(Imm8(w))))
    case 0xF1 => Some(Ret)
    case _ => None
  }

  // What one group of opcodes decodes to.

  lemma DecodesTwoReg(w: Word)
    requires Opcode(w) in {0x00, 0x01, 0x02, 0x03, 0x04, 0x05, 0x06, 0x07, 0x0C, 0x0D}
    ensures var op := match Opcode(w)
              case 0x00 => Add
              case 0x01 => Sub
              case 0x02 => And
              case 0x03 => Cmp
              case 0x04 => Xor
              case 0x05 => Test
              case 0x06 => Or
              case 0x07 => Mvrr
              case 0x0C => Adc
              case _ => Sbb;
            Decode(w) == Some(TwoReg(op, DestField(w), SourceField(w)))
  {
    hide DestField, SourceField, Imm8, Signed8;
  }

  lemma DecodesOneReg(w: Word)
    requires Opcode(w) in {0x08, 0x09, 0x0A, 0x0B, 0x0E, 0x0F}
    ensures var op := match Opcode(w)
              case 0x08 => Dec
              case 0x09 => Inc
              case 0x0A => Shl
              case 0x0B => Shr
              case 0x0E => Not
              case _ => Asr;
            Decode(w) == Some(OneReg(op, DestField(w)))
  {
    hide DestField, SourceField, Imm8, Signed8;
  }

  lemma DecodesJump(w: Word)
    requires Opcode(w) in {0x40, 0x41, 0x43, 0x44, 0x45, 0x46, 0x47}
    ensures var cond := match Opcode(w)
              case 0x40 => Always
              case 0x41 => IfS
              case 0x43 => IfNotS
              case 0x44 => IfC
              case 0x45 => IfNotC
              case 0x46 => IfZ
              case _ => IfNotZ;
            Decode(w) == Some(Jump(cond, Signed8(Imm8(w))))
  {
    hide DestField, SourceField, Imm8, Signed8;
  }

  lemma DecodesControl(w: Word)
    requires Opcode(w) in {0x78, 0x7A, 0xF0, 0xF1}
    ensures Decode(w) == match Opcode(w)
              case 0x78 => Some(SetCarry(0))
              case 0x7A => Some(SetCarry(1))
              case 0xF0 => Some(Calla(Signed8(Imm8(w))))
              case _ => Some(Ret)
  {
    hide DestField, SourceField, Imm8, Signed8;
  }

  lemma DecodesTwoCycle(w: Word)
    requires Opcode(w) in {0x80, 0x81, 0x82, 0x83, 0x84, 0x85}
    ensures Decode(w) == match Opcode(w)
              case 0x80 => Some(Jmpa)
              case 0x81 => Some(Mvrd(DestField(w)))
              case 0x82 => Some(Ldrr(DestField(w), SourceField(w)))
              case 0x83 => Some(Strr(DestField(w), SourceField(w)))
              case 0x84 => Some(Addi(DestField(w)))
              case _ => Some(Andi(DestField(w)))
  {
    hide DestField, SourceField, Imm8, Signed8;
  }

  // ----- results and flags -----

  datatype Outcome = Outcome(value: Word, flags: Flags)

  predicate FitsSigned(x: int) {
    -0x8000 <= x <= 0x7FFF
  }

  /** b + a + cin: C is the carry out of 16 unsigned bits, V says that the signed sum does not fit. */
  function Sum(b: Word, a: Word, cin: Bit): Outcome {
    var r := Wrap(b + a + cin);
    Outcome(r, Flags(ToBit(b + a + cin > 0xFFFF), ToBit(r == 0),
                     ToBit(!FitsSigned(Signed(b) + Signed(a) + cin)), ToBit(Signed(r) < 0)))
  }

  /** b - a - cin: C is the unsigned borrow, V says that the signed difference does not fit. */
  function Difference(b: Word, a: Word, cin: Bit): Outcome {
    var r := Wrap(b - a - cin);
    Outcome(r, Flags(ToBit(b < a + cin), ToBit(r == 0),
                     ToBit(!FitsSigned(Signed(b) - Signed(a) - cin)), ToBit(Signed(r) < 0)))
  }

  /** A result whose carry is the bit shifted out, if any, and which cannot overflow. */
  function Plain(r: Word, out: Bit): Outcome {
    Outcome(r, Flags(out, ToBit(r == 0), 0, ToBit(Signed(r) < 0)))
  }

  function TwoRegOutcome(op: TwoRegOp, b: Word, a: Word, c: Bit): Outcome
    requires op != Mvrr
  {
    match op
    case Add => Sum(b, a, 0)
    case Adc => Sum(b, a, c)
    case Sub => Difference(b, a, 0)
    case Cmp => Difference(b, a, 0)
    case Sbb => Difference(b, a, c)
    case And => Plain(And16(b, a), 0)
    case Test => Plain(And16(b, a), 0)
    case Xor => Plain(Xor16(b, a), 0)
    case Or => Plain(Or16(b, a), 0)
  }

  function OneRegOutcome(op: OneRegOp, b: Word): Outcome {
    match op
    case Dec => Difference(b, 1, 0)
    case Inc => Sum(b, 1, 0)
    case Shl => Plain(Wrap(2 * b), ToBit(Signed(b) < 0))
    case Shr => Plain(b / 2, b % 2)
    case Not => Plain(0xFFFF - b, 0)
    case Asr => Plain(Wrap(Signed(b) / 2), b % 2)
  }

  /** The bits of the logic instructions. */
  lemma LogicBits(b: Word, a: Word, c: Bit, i: nat)
    requires i < 16
    ensures TestBit(TwoRegOutcome(And, b, a, c).value, i) <==> TestBit(b, i) && TestBit(a, i)
    ensures TestBit(TwoRegOutcome(Or, b, a, c).value, i) <==> TestBit(b, i) || TestBit(a, i)
    ensures TestBit(TwoRegOutcome(Xor, b, a, c).value, i) <==> TestBit(b, i) != TestBit(a, i)
    ensures TestBit(OneRegOutcome(Not, b).value, i) <==> !TestBit(b, i)
  {
    hide TestBit, Bitwise;
    BitsOf(b, a, i);
    Pow2Sixteen();
    ComplementBits(16, b, i);
  }

  predicate Holds(cond: Condition, f: Flags) {
    match cond
    case Always => true
    case IfS => f.s == 1
    case IfNotS => f.s == 0
    case IfC => f.c == 1
    case IfNotC => f.c == 0
    case IfZ => f.z == 1
    case IfNotZ => f.z == 0
  }

  function WithReg(s: Arch, r: RegIndex, x: Word): Arch {
    s.(regs := s.regs[r := x])
  }

  function WithOutcome(s: Arch, r: RegIndex, o: Outcome): Arch {
    s.(regs := s.regs[r := o.value], flags := o.flags)
  }

  function Skip(s: Arch): Arch {
    s.(pc := Wrap(s.pc + 1))
  }

  // ----- one instruction -----

  /** Executes i in a state whose PC is already past the first word of the instruction. */
  function Exec(i: Instr, s: Arch): Arch {
    match i
    case TwoReg(op, dr, sr) =>
      if op == Mvrr then WithReg(s, dr, s.regs[sr])
      else
        var o := TwoRegOutcome(op, s.regs[dr], s.regs[sr], s.flags.c);
        if op == Cmp || op == Test then s.(flags := o.flags) else WithOutcome(s, dr, o)
    case OneReg(op, dr) => WithOutcome(s, dr, OneRegOutcome(op, s.regs[dr]))
    case Jump(cond, offset) => if Holds(cond, s.flags) then s.(pc := Wrap(s.pc + offset)) else s
    case SetCarry(bit) => s.(flags := s.flags.(c := bit))
    case Jmpa => s.(pc := s.mem[s.pc])
    case Mvrd(dr) => WithReg(Skip(s), dr, s.mem[s.pc])
    case Ldrr(dr, sr) => WithReg(s, dr, s.mem[s.regs[sr]])
    case Strr(dr, sr) => s.(mem := s.mem[s.regs[dr] := s.regs[sr]])
    case Addi(dr) => WithOutcome(Skip(s), dr, Sum(s.regs[dr], s.mem[s.pc], 0))
    case Andi(dr) => WithOutcome(Skip(s), dr, Plain(And16(s.regs[dr], s.mem[s.pc]), 0))
    case Calla(offset) =>
      var back := Skip(s);
      WithReg(back, LINK, back.pc).(pc := Wrap(back.pc + offset))
    case Ret => s.(pc := s.regs[LINK])
  }

  function Fetch(s: Arch): Word {
    s.mem[s.pc]
  }

  predicate Supported(s: Arch) {
    Decode(Fetch(s)).Some?
  }

  function Current(s: Arch): Instr
    requires Supported(s)
  {
    Decode(Fetch(s)).value
  }

  /** One instruction. An unsupported opcode is a one-word instruction without effect. */
  function Step(s: Arch): Arch {
    match Decode(Fetch(s))
    case None => Skip(s)
    case Some(i) => Exec(i, Skip(s))
  }

  function Run(s: Arch, n: nat): Arch {
    if n == 0 then s else Step(Run(s, n - 1))
  }

  lemma {:induction false} RunAdd(s: Arch, m: nat, n: nat)
    ensures Run(s, m + n) == Run(Run(s, m), n)
  {
    hide Step;
    if n == 0 {
    } else {
      RunAdd(s, m, n - 1);
      assert m + n - 1 == m + (n - 1);
    }
  }
}
