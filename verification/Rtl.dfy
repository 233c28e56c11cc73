/**
 * One clock cycle of the processor with its memory (vsrc/cpu_core.sv, vsrc/cpu_pnr_core.sv and
 * tb/memory_model.sv): the specification that the clocked classes of module Datapath are proved against.
 */
module Rtl {
  import opened Words
  import opened Alu
  import opened Controller
  import opened Isa

  // ----- vsrc/execution_stage_fsm.sv -----

  datatype FsmState = State0 | State1 | State2 | State3 | State4 | State5 | State6 | State7

  predicate IsComplexInstruction(inst: Word) {
    Opcode(inst) == 0xF0
  }

  predicate NeedsSecondWord(inst: Word) {
    Opcode(inst) in {0x80, 0x81, 0x82, 0x83, 0x84, 0x85, 0xF0}
  }

  function NextState(s: FsmState, inst: Word): FsmState {
    match s
    case State0 => State1
    case State1 => State2
    case State2 => if NeedsSecondWord(inst) then State4 else State3
    case State3 => State1
    case State4 => if IsComplexInstruction(inst) then State6 else State5
    case State5 => State1
    case State6 => State7
    case State7 => State1
  }

  function StageCode(s: FsmState): nat {
    match s
    case State0 => STAGE_RESET_INIT
    case State1 => STAGE_FETCH_ADDRESS
    case State2 => STAGE_FETCH_DECODE
    case State3 => STAGE_EXECUTE_SINGLE
    case State4 => STAGE_FETCH_SECOND_WORD
    case State5 => STAGE_EXECUTE_DOUBLE
    case State6 => STAGE_SAVE_RETURN_ADDRESS
    case State7 => STAGE_LOAD_CALL_TARGET
  }

  // ----- the core -----

  /** The clocked registers of the core. */
  datatype Core = Core(state: FsmState, ir: Word, pc: Word, address: Word, regs: Regs, flags: Flags)

  datatype System = System(core: Core, mem: Mem)

  const RESET_CORE := Core(State0, 0, 0, 0, ZeroRegs(), CLEARED)

  function SignalsOf(k: Core): Control {
    Signals(StageCode(k.state), k.ir, k.flags)
  }

  /** vsrc/t1.sv */
  function CarryIn(select: nat, c: Bit): Bit {
    if select == 1 then 1 else if select == 2 then c else 0
  }

  /** vsrc/t2.sv */
  function Extend(offset: Byte): Word {
    if offset / 0x80 == 1 then 0xFF00 + offset else offset
  }

  /** What the ALU shows this cycle when the word on the data bus is `memData`. */
  function AluOf(k: Core, memData: Word): Output {
    var g := SignalsOf(k);
    Evaluate(CarryIn(g.carryInSelect, k.flags.c), g.aluInSel, g.aluFunc,
             Inputs(memData, k.pc, Extend(g.offset), k.regs[g.sourReg], k.regs[g.destReg]))
  }

  /** vsrc/flag_reg.sv */
  function NextFlags(sst: nat, f: Flags, o: Output): Flags {
    if sst == 0 then Flags(o.c, o.z, o.v, o.s)
    else if sst == 1 then f.(c := 0)
    else if sst == 2 then f.(c := 1)
    else f
  }

  /** The registers after a rising edge, with `memData` on the data bus before it. */
  function NextCore(k: Core, memData: Word): Core {
    var g := SignalsOf(k);
    var o := AluOf(k, memData);
    Core(NextState(k.state, memData),
         if g.instructionLoadEnable then memData else k.ir,
         if g.PcWriteEnable() then o.out else k.pc,
         if g.addressWriteSelect == ADDRESS_FROM_PC then k.pc
         else if g.addressWriteSelect == ADDRESS_FROM_ALU then o.out
         else k.address,
         if g.RegWriteEnable() then k.regs[g.destReg := o.out] else k.regs,
         NextFlags(g.sst, k.flags, o))
  }

  // ----- cpu_core: one shared data bus -----

  /**
   * d is a stable value of the shared bus: memory drives it while wr is 1; while wr is 0 the core
   * drives it with the ALU output, which is itself computed from the bus.
   */
  predicate BusSettles(s: System, d: Word) {
    d == if SignalsOf(s.core).wr == 1 then s.mem[s.core.address] else AluOf(s.core, d).out
  }

  function BusValue(s: System): Word {
    if SignalsOf(s.core).wr == 1 then s.mem[s.core.address] else AluOf(s.core, 0).out
  }

  /** The rising edge with d on the shared bus: the memory takes the word from the bus. */
  function ClockWithBus(s: System, d: Word): System {
    System(NextCore(s.core, d), if SignalsOf(s.core).wr == 0 then s.mem[s.core.address := d] else s.mem)
  }

  function Tick(s: System): System {
    ClockWithBus(s, BusValue(s))
  }

  /** Reset is asynchronous: while it is low the registers are cleared and the controller keeps wr at 1. */
  function Clock(s: System, reset: bool): System {
    if reset then Tick(s) else s.(core := RESET_CORE)
  }

  function Ticks(s: System, n: nat): System {
    if n == 0 then s else Tick(Ticks(s, n - 1))
  }

  function Clocks(s: System, resets: seq<bool>): System {
    if resets == [] then s else Clock(Clocks(s, resets[..|resets| - 1]), resets[|resets| - 1])
  }

  // ----- cpu_pnr_core: separate input and output buses -----

  /** The split-bus core: memory always drives the input bus, and the output bus carries the ALU output. */
  function PnrTick(s: System): System {
    var dataBusIn := s.mem[s.core.address];
    var dataBusOut := AluOf(s.core, dataBusIn).out;
    System(NextCore(s.core, dataBusIn),
           if SignalsOf(s.core).wr == 0 then s.mem[s.core.address := dataBusOut] else s.mem)
  }

  /** Reset is asynchronous: the edge finds the registers already cleared, and they stay so. */
  function PnrClock(s: System, reset: bool): System {
    if reset then PnrTick(s)
    else
      var cleared := s.(core := RESET_CORE);
      PnrTick(cleared).(core := RESET_CORE)
  }

  function PnrClocks(s: System, resets: seq<bool>): System {
    if resets == [] then s else PnrClock(PnrClocks(s, resets[..|resets| - 1]), resets[|resets| - 1])
  }

  /** While the core writes, the looped-back bus reaches neither the ALU result nor any register. */
  lemma BusIgnoredWhileWriting(k: Core, d: Word, e: Word)
    requires SignalsOf(k).wr == 0
    ensures k.state == State5 && Opcode(k.ir) == 0x83
    ensures AluOf(k, d) == AluOf(k, e) && NextCore(k, d) == NextCore(k, e)
  {
    assert StageCode(k.state) == STAGE_EXECUTE_DOUBLE;
  }

  /** The shared bus settles on exactly one value, so the combinational loop is harmless. */
  lemma BusSettlesOnce(s: System, d: Word)
    ensures BusSettles(s, d) <==> d == BusValue(s)
  {
    if SignalsOf(s.core).wr == 0 {
      BusIgnoredWhileWriting(s.core, d, 0);
    }
  }

  /** The two cores make the same step from every state, reachable or not. */
  lemma SameTick(s: System)
    ensures PnrTick(s) == Tick(s)
  {
    if SignalsOf(s.core).wr == 0 {
      BusIgnoredWhileWriting(s.core, s.mem[s.core.address], BusValue(s));
      BusIgnoredWhileWriting(s.core, s.mem[s.core.address], 0);
    }
  }

  /** A cleared core does not write, so a reset leaves memory alone in both. */
  lemma SameClock(s: System, reset: bool)
    ensures PnrClock(s, reset) == Clock(s, reset)
  {
    hide Evaluate;
    if reset {
      SameTick(s);
    } else {
      assert SignalsOf(RESET_CORE).wr == 1;
    }
  }

  /** The two cores stay equal under every pattern of resets. */
  lemma {:induction false} PnrRefinesCore(s: System, resets: seq<bool>)
    ensures PnrClocks(s, resets) == Clocks(s, resets)
  {
    hide PnrClock, Clock;
    if resets == [] {
    } else {
      var front := resets[..|resets| - 1];
      PnrRefinesCore(s, front);
      SameClock(Clocks(s, front), resets[|resets| - 1]);
    }
  }
}
