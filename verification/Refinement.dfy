/**
 * The RTL refines the instruction set: three, four or five clock cycles are one instruction, from every
 * state, for every memory image, self-modifying programs included.
 */
module Refinement {
  import opened Words
  import opened Results
  import opened Alu
  import opened Controller
  import opened Isa
  import opened Rtl

  function ArchOf(s: System): Arch {
    Arch(s.core.pc, s.core.regs, s.core.flags, s.mem)
  }

  /** Clock cycles of an instruction from fetch to retirement. */
  function CyclesOf(w: Word): nat {
    var op := Opcode(w);
    if op == 0xF0 then 5 else if 0x80 <= op <= 0x85 then 4 else 3
  }

  predicate AtFetch(s: System) {
    s.core.state == State1
  }

  // ----- the two fetch cycles -----

  lemma FetchAddressTick(s: System)
    requires AtFetch(s)
    ensures Tick(s) == s.(core := s.core.(state := State2, pc := Wrap(s.core.pc + 1), address := s.core.pc))
  {
    AddMeansSum(s.core.pc, 0, 1);
  }

  lemma FetchDecodeTick(s: System)
    requires s.core.state == State2
    ensures var w := s.mem[s.core.address];
            Tick(s) == s.(core := s.core.(state := if NeedsSecondWord(w) then State4 else State3, ir := w))
  {}

  // ----- single-word instructions -----

  predicate Executes(s: System, t: System, i: Option<Instr>) {
    i.Some? && AtFetch(t) && ArchOf(t) == Exec(i.value, ArchOf(s))
  }

  /** The ALU inputs selected by the control word g in a cycle where memory drives the bus. */
  function AluUnder(g: Control, s: System): Output {
    var k := s.core;
    Evaluate(CarryIn(g.carryInSelect, k.flags.c), g.aluInSel, g.aluFunc,
             Inputs(s.mem[k.address], k.pc, Extend(g.offset), k.regs[g.sourReg], k.regs[g.destReg]))
  }

  /** A cycle that only writes registers, PC or flags from the ALU. */
  function Commit(g: Control, o: Output, s: System): System {
    s.(core := s.core.(state := State1,
                       pc := if g.PcWriteEnable() then o.out else s.core.pc,
                       regs := if g.RegWriteEnable() then s.core.regs[g.destReg := o.out] else s.core.regs,
                       flags := NextFlags(g.sst, s.core.flags, o)))
  }

  lemma SingleCommits(s: System)
    requires s.core.state == State3
    ensures var g := ExecuteSingle(s.core.ir, s.core.flags); Tick(s) == Commit(g, AluUnder(g, s), s)
  {
    hide Evaluate;
    var g := ExecuteSingle(s.core.ir, s.core.flags);
    assert SignalsOf(s.core) == g;
    assert g.wr == 1 && g.addressWriteSelect == ADDRESS_HOLD && !g.instructionLoadEnable;
  }

  lemma ArithmeticTick(s: System)
    requires s.core.state == State3 && Opcode(s.core.ir) in {0x00, 0x01, 0x03, 0x0C, 0x0D}
    ensures Executes(s, Tick(s), Decode(s.core.ir))
  {
    hide Tick, Compute, Sum, Difference, Decode;
    DecodesTwoReg(s.core.ir);
    SingleCommits(s);
    var b, a := s.core.regs[DestField(s.core.ir)], s.core.regs[SourceField(s.core.ir)];
    AddMeansSum(b, a, 0);
    AddMeansSum(b, a, s.core.flags.c);
    SubMeansDifference(b, a, 0);
    SubMeansDifference(b, a, s.core.flags.c);
  }

  lemma LogicTick(s: System)
    requires s.core.state == State3 && Opcode(s.core.ir) in {0x02, 0x04, 0x05, 0x06, 0x07}
    ensures Executes(s, Tick(s), Decode(s.core.ir))
  {
    hide Tick, Compute, Plain, And16, Or16, Xor16, Decode;
    DecodesTwoReg(s.core.ir);
    SingleCommits(s);
    var b, a := s.core.regs[DestField(s.core.ir)], s.core.regs[SourceField(s.core.ir)];
    AndMeansPlain(b, a);
    OrMeansPlain(b, a);
    XorMeansPlain(b, a);
    AddMeansSum(0, a, 0);
  }

  lemma OneRegTick(s: System)
    requires s.core.state == State3 && Opcode(s.core.ir) in {0x08, 0x09, 0x0A, 0x0B, 0x0E, 0x0F}
    ensures Executes(s, Tick(s), Decode(s.core.ir))
  {
    hide Tick, Compute, Sum, Difference, Plain, Decode;
    DecodesOneReg(s.core.ir);
    SingleCommits(s);
    var b := s.core.regs[DestField(s.core.ir)];
    AddMeansSum(b, 0, 1);
    SubMeansDifference(b, 0, 1);
    CarryInIsOne(b);
    ShiftsMeanOutcomes(b, 0);
  }

  /** PC + sign extension in the ALU is the signed offset of the branch. */
  lemma BranchSum(pc: Word, offset: Byte)
    ensures Compute(ALU_ADD, pc, Extend(offset), 0).out == Wrap(pc + Signed8(offset))
  {
    AddMeansSum(pc, Extend(offset), 0);
    assert Extend(offset) == Signed8(offset) || Extend(offset) == Signed8(offset) + 0x1_0000;
  }

  /** A branch asks for the PC to be written exactly when its condition holds. */
  lemma BranchSignals(ir: Word, f: Flags)
    requires Opcode(ir) in {0x40, 0x41, 0x43, 0x44, 0x45, 0x46, 0x47}
    ensures Decode(ir).Some? && Decode(ir).value.Jump?
    ensures ExecuteSingle(ir, f)
         == DEFAULTS.(offset := Imm8(ir), aluInSel := ALU_IN_BR,
                      writebackSelect := if Holds(Decode(ir).value.cond, f) then WRITEBACK_PC else WRITEBACK_HOLD)
  {
    hide Decode;
    DecodesJump(ir);
  }

  lemma BranchTick(s: System)
    requires s.core.state == State3 && Opcode(s.core.ir) in {0x40, 0x41, 0x43, 0x44, 0x45, 0x46, 0x47}
    ensures Executes(s, Tick(s), Decode(s.core.ir))
  {
    hide Tick, Compute, Decode, ExecuteSingle, Holds;
    DecodesJump(s.core.ir);
    BranchSignals(s.core.ir, s.core.flags);
    SingleCommits(s);
    BranchSum(s.core.pc, Imm8(s.core.ir));
  }

  lemma FlagOrReturnTick(s: System)
    requires s.core.state == State3 && Opcode(s.core.ir) in {0x78, 0x7A, 0xF1}
    ensures Executes(s, Tick(s), Decode(s.core.ir))
  {
    hide Tick, Compute, Decode;
    DecodesControl(s.core.ir);
    SingleCommits(s);
    AddMeansSum(0, s.core.regs[LINK], 0);
  }

  /** An opcode outside the instruction set executes as a one-word no-op. */
  lemma UnsupportedTick(s: System)
    requires s.core.state == State3 && Decode(s.core.ir).None?
    ensures AtFetch(Tick(s)) && ArchOf(Tick(s)) == ArchOf(s)
  {
    hide Tick, Evaluate;
    SingleCommits(s);
    assert ExecuteSingle(s.core.ir, s.core.flags) in {DEFAULTS, DEFAULTS.(offset := Imm8(s.core.ir))};
  }

  lemma SingleTick(s: System)
    requires s.core.state == State3 && !NeedsSecondWord(s.core.ir)
    ensures AtFetch(Tick(s))
    ensures ArchOf(Tick(s)) == match Decode(s.core.ir)
                               case None => ArchOf(s)
                               case Some(i) => Exec(i, ArchOf(s))
  {
    hide Tick, Exec;
    var op := Opcode(s.core.ir);
    if op in {0x00, 0x01, 0x03, 0x0C, 0x0D} {
      ArithmeticTick(s);
    } else if op in {0x02, 0x04, 0x05, 0x06, 0x07} {
      LogicTick(s);
    } else if op in {0x08, 0x09, 0x0A, 0x0B, 0x0E, 0x0F} {
      OneRegTick(s);
    } else if op in {0x40, 0x41, 0x43, 0x44, 0x45, 0x46, 0x47} {
      BranchTick(s);
    } else if op in {0x78, 0x7A, 0xF1} {
      FlagOrReturnTick(s);
    } else {
      UnsupportedTick(s);
    }
  }

  // ----- two-word and memory instructions -----

  /** In this stage the bus still shows the instruction that IR holds. */
  predicate BusShowsIr(s: System) {
    s.mem[s.core.address] == s.core.ir
  }

  lemma ImmediateTick(s: System)
    requires s.core.state == State4 && BusShowsIr(s)
    requires Opcode(s.core.ir) in {0x80, 0x81, 0x84, 0x85, 0xF0}
    ensures Tick(s) == s.(core := s.core.(state := if Opcode(s.core.ir) == 0xF0 then State6 else State5,
                                          pc := Wrap(s.core.pc + 1), address := s.core.pc))
  {
    AddMeansSum(s.core.pc, 0, 1);
  }

  lemma EffectiveAddressTick(s: System)
    requires s.core.state == State4 && BusShowsIr(s) && Opcode(s.core.ir) in {0x82, 0x83}
    ensures Tick(s) == s.(core := s.core.(state := State5,
              address := s.core.regs[if Opcode(s.core.ir) == 0x82 then SourceField(s.core.ir)
                                     else DestField(s.core.ir)]))
  {
    hide Tick;
    if Opcode(s.core.ir) == 0x82 {
      LoadAddressTick(s);
    } else {
      StoreAddressTick(s);
    }
  }

  lemma LoadAddressTick(s: System)
    requires s.core.state == State4 && BusShowsIr(s) && Opcode(s.core.ir) == 0x82
    ensures Tick(s) == s.(core := s.core.(state := State5, address := s.core.regs[SourceField(s.core.ir)]))
  {
    AddMeansSum(0, s.core.regs[SourceField(s.core.ir)], 0);
  }

  lemma StoreAddressTick(s: System)
    requires s.core.state == State4 && BusShowsIr(s) && Opcode(s.core.ir) == 0x83
    ensures Tick(s) == s.(core := s.core.(state := State5, address := s.core.regs[DestField(s.core.ir)]))
  {
    AddMeansSum(s.core.regs[DestField(s.core.ir)], 0, 0);
  }

  lemma DoubleCommits(s: System)
    requires s.core.state == State5 && Opcode(s.core.ir) in {0x80, 0x81, 0x82, 0x84, 0x85}
    ensures var g := ExecuteDouble(s.core.ir); Tick(s) == Commit(g, AluUnder(g, s), s)
  {
    hide Evaluate;
    var g := ExecuteDouble(s.core.ir);
    assert SignalsOf(s.core) == g;
    assert g.wr == 1 && g.addressWriteSelect == ADDRESS_HOLD && !g.instructionLoadEnable;
  }

  lemma StoreTick(s: System)
    requires s.core.state == State5 && Opcode(s.core.ir) == 0x83
    ensures Tick(s) == System(s.core.(state := State1),
                              s.mem[s.core.address := s.core.regs[SourceField(s.core.ir)]])
  {
    hide Compute;
    AddMeansSum(0, s.core.regs[SourceField(s.core.ir)], 0);
  }

  lemma DoubleTick(s: System)
    requires s.core.state == State5 && 0x80 <= Opcode(s.core.ir) <= 0x85
    ensures var d, a := DestField(s.core.ir), SourceField(s.core.ir);
            var x := s.mem[s.core.address];
            var k := s.core.(state := State1);
            var sum, conj := Sum(k.regs[d], x, 0), Plain(And16(k.regs[d], x), 0);
            Tick(s) == match Opcode(s.core.ir)
                       case 0x80 => s.(core := k.(pc := x))
                       case 0x81 => s.(core := k.(regs := k.regs[d := x]))
                       case 0x82 => s.(core := k.(regs := k.regs[d := x]))
                       case 0x83 => System(k, s.mem[s.core.address := k.regs[a]])
                       case 0x84 => s.(core := k.(regs := k.regs[d := sum.value], flags := sum.flags))
                       case _ => s.(core := k.(regs := k.regs[d := conj.value], flags := conj.flags))
  {
    hide Tick, Compute, Plain, And16;
    var b, x := s.core.regs[DestField(s.core.ir)], s.mem[s.core.address];
    if Opcode(s.core.ir) == 0x83 {
      StoreTick(s);
    } else {
      DoubleCommits(s);
      AddMeansSum(b, x, 0);
      AddMeansSum(x, 0, 0);
      AndMeansPlain(b, x);
    }
  }

  lemma DoubleTicks(s: System)
    requires s.core.state == State4 && BusShowsIr(s) && 0x80 <= Opcode(s.core.ir) <= 0x85
    ensures Tick(s).core.state == State5
    ensures Executes(s, Tick(Tick(s)), Decode(s.core.ir))
  {
    hide Tick, Sum, Plain, And16, Decode;
    DecodesTwoCycle(s.core.ir);
    if Opcode(s.core.ir) in {0x82, 0x83} {
      EffectiveAddressTick(s);
    } else {
      ImmediateTick(s);
    }
    DoubleTick(Tick(s));
  }

  lemma SaveReturnTick(s: System)
    requires s.core.state == State6
    ensures Tick(s) == s.(core := s.core.(state := State7, regs := s.core.regs[LINK := s.core.pc]))
  {
    AddMeansSum(s.core.pc, 0, 0);
  }

  lemma CallTargetTick(s: System)
    requires s.core.state == State7
    ensures Tick(s) == s.(core := s.core.(state := State1, pc := Wrap(s.core.pc + Signed8(Imm8(s.core.ir)))))
  {
    BranchSum(s.core.pc, Imm8(s.core.ir));
  }

  lemma CallTicks(s: System)
    requires s.core.state == State4 && BusShowsIr(s) && Opcode(s.core.ir) == 0xF0
    ensures Tick(s).core.state == State6 && Tick(Tick(s)).core.state == State7
    ensures Executes(s, Tick(Tick(Tick(s))), Decode(s.core.ir))
  {
    hide Tick, Decode;
    DecodesControl(s.core.ir);
    ImmediateTick(s);
    SaveReturnTick(Tick(s));
    CallTargetTick(Tick(Tick(s)));
  }

  // ----- decode coherence -----

  /**
   * What every reachable state keeps: the state machine decided from the live bus, the controller decides
   * from IR, and this says that the two decisions were about the same instruction.
   */
  predicate Coherent(s: System) {
    match s.core.state
    case State3 => !NeedsSecondWord(s.core.ir)
    case State4 => NeedsSecondWord(s.core.ir) && BusShowsIr(s)
    case State5 => 0x80 <= Opcode(s.core.ir) <= 0x85
    case State6 => Opcode(s.core.ir) == 0xF0
    case State7 => Opcode(s.core.ir) == 0xF0
    case _ => true
  }

  lemma CoherentClock(s: System, reset: bool)
    requires Coherent(s)
    ensures Coherent(Clock(s, reset))
  {
    if reset {
      match s.core.state
      case State1 => FetchAddressTick(s);
      case State2 => FetchDecodeTick(s);
      case State3 => SingleTick(s);
      case State4 =>
        if Opcode(s.core.ir) in {0x82, 0x83} { EffectiveAddressTick(s); } else { ImmediateTick(s); }
      case State5 => DoubleTick(s);
      case State6 => SaveReturnTick(s);
      case State7 => CallTargetTick(s);
      case State0 =>
    }
  }

  /** From any power-up contents, once reset has been low the machine stays coherent under every reset pattern. */
  lemma {:induction false} ReachableCoherent(s: System, resets: seq<bool>)
    requires resets != [] && !resets[0]
    ensures Coherent(Clocks(s, resets))
  {
    var last := |resets| - 1;
    if last == 0 {
    } else {
      hide Coherent, Clock;
      ReachableCoherent(s, resets[..last]);
      CoherentClock(Clocks(s, resets[..last]), resets[last]);
    }
  }
}
