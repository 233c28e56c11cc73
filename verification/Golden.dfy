/** verilator_tb/golden_isa.h: the instruction-level model that the lock-step checker runs beside the RTL. */
module Golden {
  import opened Words
  import opened Results
  import opened Isa
  import opened SoftwareFlags

  /** A 32-bit unsigned difference of words, masked to 17 bits. */
  function MaskedDifference(b: Word, a: Word, c: Bit): nat {
    (b - a - c) % 0x1_0000_0000 % 0x2_0000
  }

  /** Every instruction except RET, which this model does not know. */
  predicate Known(s: Arch) {
    Supported(s) && Current(s) != Ret
  }

  predicate AllKnown(s: Arch, n: nat) {
    forall k: nat :: k < n ==> Known(Run(s, k))
  }

  class GoldenIsa {
    const regs: array<Word>
    const mem: array<Word>
    var pc: Word
    var flags: Flags
    var lastIr: Word
    var lastPc: Word
    var steps: nat

    predicate Valid() {
      regs.Length == 16 && mem.Length == 0x1_0000
    }

    function Footprint(): set<object> {
      {this, regs, mem}
    }

    function Value(): Arch
      requires Valid()
      reads Footprint()
    {
      Arch(pc, regs[..], flags, mem[..])
    }

    constructor ()
      ensures Valid() && fresh(Footprint()) && Value() == InitArch(ZeroMem()) && steps == 0
    {
      regs := new Word[16](_ => 0);
      mem := new Word[0x1_0000](_ => 0);
      pc, flags, lastIr, lastPc, steps := 0, CLEARED, 0, 0, 0;
      new;
      assert regs[..] == ZeroRegs() && mem[..] == ZeroMem();
    }

    /** Copies the image to the bottom of memory, as far as it fits. */
    method LoadWords(image: seq<Word>)
      requires Valid()
      modifies mem
      ensures forall a: Word :: mem[a] == if a < |image| then image[a] else old(mem[a])
    {
      var n := if |image| < mem.Length then |image| else mem.Length;
      for i := 0 to n
        invariant forall a: Word :: mem[a] == if a < i then image[a] else old(mem[a])
      {
        mem[i] := image[i];
      }
    }

    method SetReg(r: RegIndex, x: Word)
      requires Valid()
      modifies regs
      ensures regs[..] == old(regs[..])[r := x]
    {
      regs[r] := x;
    }

    method ExecuteArithmetic(ir: Word)
      requires Valid() && Opcode(ir) in {0x00, 0x01, 0x03, 0x0C, 0x0D}
      modifies `flags, regs
      ensures Value() == Exec(Decode(ir).value, old(Value()))
    {
      hide Decode, Opcode, DestField, SourceField, Sum, Difference, AddFlags, SubFlags;
      DecodesTwoReg(ir);
      var op, dr, sr := Opcode(ir), DestField(ir), SourceField(ir);
      var a, b := regs[sr], regs[dr];
      match op
      case 0x00 =>
        var full := b as int + a;
        AddOutcome(a, b, 0);
        SetReg(dr, full % 0x1_0000);
        flags := AddFlags(a, b, full % 0x1_0000, full / 0x1_0000 % 2);
      case 0x0C =>
        var full := b as int + a + flags.c;
        AddOutcome(a, b, flags.c);
        SetReg(dr, full % 0x1_0000);
        flags := AddFlags(a, b, full % 0x1_0000, full / 0x1_0000 % 2);
      case 0x03 =>
        var full := MaskedDifference(b, a, 0);
        SubOutcome(a, b, 0);
        flags := SubFlags(a, b, full % 0x1_0000, full / 0x1_0000 % 2);
      case _ =>
        var cin := if op == 0x0D then flags.c else 0;
        var full := MaskedDifference(b, a, cin);
        SubOutcome(a, b, cin);
        SetReg(dr, full % 0x1_0000);
        flags := SubFlags(a, b, full % 0x1_0000, full / 0x1_0000 % 2);
    }

    method ExecuteLogic(ir: Word)
      requires Valid() && Opcode(ir) in {0x02, 0x04, 0x05, 0x06, 0x07}
      modifies `flags, regs
      ensures Value() == Exec(Decode(ir).value, old(Value()))
    {
      hide Decode, Opcode, DestField, SourceField, And16, Or16, Xor16, Plain, LogicFlags;
      DecodesTwoReg(ir);
      var op, dr, sr := Opcode(ir), DestField(ir), SourceField(ir);
      if op == 0x07 {
        SetReg(dr, regs[sr]);
      } else {
        var r := match op
          case 0x04 => Xor16(regs[dr], regs[sr])
          case 0x06 => Or16(regs[dr], regs[sr])
          case _ => And16(regs[dr], regs[sr]);
        PlainOutcome(r, 0);
        if op != 0x05 {
          SetReg(dr, r);
        }
        flags := LogicFlags(r, 0);
      }
    }

    method ExecuteOneReg(ir: Word)
      requires Valid() && Opcode(ir) in {0x08, 0x09, 0x0A, 0x0B, 0x0E, 0x0F}
      modifies `flags, regs
      ensures Value() == Exec(Decode(ir).value, old(Value()))
    {
      hide Decode, Opcode, DestField, SourceField, And16, Or16, Plain, Sum, Difference, AddFlags, SubFlags, LogicFlags;
      DecodesOneReg(ir);
      var op, dr := Opcode(ir), DestField(ir);
      var b: int := regs[dr];
      match op
      case 0x08 =>
        var full := MaskedDifference(b, 1, 0);
        SubOutcome(1, b, 0);
        SetReg(dr, full % 0x1_0000);
        flags := SubFlags(1, b, full % 0x1_0000, full / 0x1_0000 % 2);
      case 0x09 =>
        var full := b + 1;
        IncrementOutcome(b);
        SetReg(dr, full % 0x1_0000);
        flags := AddFlags(0, b, full % 0x1_0000, full / 0x1_0000 % 2);
      case 0x0A =>
        var r: Word := b * 2 % 0x1_0000;
        SignMask(b);
        PlainOutcome(r, NonZeroBit(And16(b, 0x8000)));
        SetReg(dr, r);
        flags := LogicFlags(r, NonZeroBit(And16(b, 0x8000)));
      case 0x0B =>
        PlainOutcome(b / 2, b % 2);
        SetReg(dr, b / 2);
        flags := LogicFlags(b / 2, b % 2);
      case 0x0E =>
        var r := (-b - 1) % 0x1_0000;
        PlainOutcome(r, 0);
        SetReg(dr, r);
        flags := LogicFlags(r, 0);
      case _ =>
        var r := Or16(And16(b, 0x8000), b / 2);
        SignKeepingShift(b);
        PlainOutcome(r, b % 2);
        SetReg(dr, r);
        flags := LogicFlags(r, b % 2);
    }

    method ExecuteControl(ir: Word)
      requires Valid() && Opcode(ir) in {0x40, 0x41, 0x43, 0x44, 0x45, 0x46, 0x47, 0x78, 0x7A, 0xF0}
      modifies `pc, `flags, regs
      ensures Value() == Exec(Decode(ir).value, old(Value()))
    {
      hide Decode, Opcode, DestField, SourceField, Imm8, Signed8;
      if Opcode(ir) in {0x78, 0x7A, 0xF0, 0xF1} { DecodesControl(ir); } else { DecodesJump(ir); }
      match Opcode(ir)
      case 0x78 => flags := flags.(c := 0);
      case 0x7A => flags := flags.(c := 1);
      case 0xF0 =>
        var ret := (pc + 1) % 0x1_0000;
        SetReg(15, ret);
        pc := (ret as int + Signed8(Imm8(ir))) % 0x1_0000;
      case op =>
        var off := Signed8(Imm8(ir));
        var take := match op
          case 0x40 => true
          case 0x41 => flags.s == 1
          case 0x43 => flags.s == 0
          case 0x44 => flags.c == 1
          case 0x45 => flags.c == 0
          case 0x46 => flags.z == 1
          case _ => flags.z == 0;
        if take {
          pc := (pc as int + off) % 0x1_0000;
        }
    }

    method ExecuteMemory(ir: Word)
      requires Valid() && Opcode(ir) in {0x80, 0x81, 0x82, 0x83}
      modifies `pc, regs, mem
      ensures Value() == Exec(Decode(ir).value, old(Value()))
    {
      hide Decode, Opcode, DestField, SourceField;
      DecodesTwoCycle(ir);
      var dr, sr := DestField(ir), SourceField(ir);
      match Opcode(ir)
      case 0x80 => pc := mem[pc];
      case 0x81 =>
        var imm := mem[pc];
        pc := (pc + 1) % 0x1_0000;
        SetReg(dr, imm);
      case 0x82 => SetReg(dr, mem[regs[sr]]);
      case _ =>
        var address := regs[dr];
        mem[address] := regs[sr];
        assert mem[..] == old(mem[..])[address := regs[sr]];
    }

    method ExecuteImmediate(ir: Word)
      requires Valid() && Opcode(ir) in {0x84, 0x85}
      modifies `pc, `flags, regs
      ensures Value() == Exec(Decode(ir).value, old(Value()))
    {
      hide Decode, Opcode, DestField, SourceField, And16, Sum, Plain, AddFlags, LogicFlags;
      DecodesTwoCycle(ir);
      var dr := DestField(ir);
      var imm, b := mem[pc], regs[dr];
      pc := (pc + 1) % 0x1_0000;
      if Opcode(ir) == 0x84 {
        var full := b as int + imm;
        AddOutcome(imm, b, 0);
        SetReg(dr, full % 0x1_0000);
        flags := AddFlags(imm, b, full % 0x1_0000, full / 0x1_0000 % 2);
      } else {
        var r := And16(b, imm);
        PlainOutcome(r, 0);
        SetReg(dr, r);
        flags := LogicFlags(r, 0);
      }
    }

    /** Executes one instruction and returns its word, or nothing when it throws: on RET and on unsupported opcodes. */
    method Step() returns (ir: Option<Word>)
      requires Valid()
      modifies Footprint()
      ensures lastPc == old(pc) && lastIr == Fetch(old(Value()))
      ensures Known(old(Value())) ==>
                ir == Some(Fetch(old(Value()))) && Value() == Isa.Step(old(Value())) && steps == old(steps) + 1
      ensures !Known(old(Value())) ==>
                ir == None && Value() == Skip(old(Value())) && steps == old(steps)
    {
      hide Exec;
      lastPc := pc;
      var word := mem[pc];
      lastIr := word;
      pc := (pc + 1) % 0x1_0000;
      var op := Opcode(word);
      if op in {0x00, 0x01, 0x03, 0x0C, 0x0D} {
        ExecuteArithmetic(word);
      } else if op in {0x02, 0x04, 0x05, 0x06, 0x07} {
        ExecuteLogic(word);
      } else if op in {0x08, 0x09, 0x0A, 0x0B, 0x0E, 0x0F} {
        ExecuteOneReg(word);
      } else if op in {0x40, 0x41, 0x43, 0x44, 0x45, 0x46, 0x47, 0x78, 0x7A, 0xF0} {
        ExecuteControl(word);
      } else if op in {0x80, 0x81, 0x82, 0x83} {
        ExecuteMemory(word);
      } else if op in {0x84, 0x85} {
        ExecuteImmediate(word);
      } else {
        return None;
      }
      steps := steps + 1;
      ir := Some(word);
    }
  }

  lemma AddOutcome(a: Word, b: Word, cin: Bit)
    ensures var full := b as int + a + cin;
            && full % 0x1_0000 == Sum(b, a, cin).value
            && AddFlags(a, b, full % 0x1_0000, full / 0x1_0000 % 2) == Sum(b, a, cin).flags
  {
    hide AddFlags;
    AddFlagsMeanSum(a, b, cin);
    assert ToBit(b + a + cin > 0xFFFF) == (b + a + cin) / 0x1_0000 % 2;
  }

  lemma MaskTwice(x: int)
    requires -0x1_0000 <= x <= 0xFFFF
    ensures x % 0x1_0000_0000 % 0x2_0000 == x % 0x2_0000
  {}

  /** Wrapping at 32 bits before masking to 17 changes nothing. */
  lemma SubOutcome(a: Word, b: Word, cin: Bit)
    ensures var full := MaskedDifference(b, a, cin);
            && full % 0x1_0000 == Difference(b, a, cin).value
            && SubFlags(a, b, full % 0x1_0000, full / 0x1_0000 % 2) == Difference(b, a, cin).flags
  {
    hide SubFlags, Difference;
    SubFlagsMeanDifference(a, b, cin);
    MaskTwice(b - a - cin);
  }

  lemma IncrementOutcome(b: Word)
    ensures var full := b as int + 1;
            && full % 0x1_0000 == Sum(b, 1, 0).value
            && AddFlags(0, b, full % 0x1_0000, full / 0x1_0000 % 2) == Sum(b, 1, 0).flags
  {
    hide AddFlags;
    IncrementFlags(b);
    assert ToBit(b + 1 > 0xFFFF) == (b + 1) / 0x1_0000 % 2;
  }

  lemma PlainOutcome(r: Word, out: Bit)
    ensures Plain(r, out).value == r && LogicFlags(r, out) == Plain(r, out).flags
  {
    LogicFlagsMeanPlain(r, out);
  }
}
