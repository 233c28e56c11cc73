/**
 * The clocked modules of the processor as objects, and cpu_core as the object that wires them together.
 * Each object's Clock is one rising edge; reset is active low.
 */
module Datapath {
  import opened Words
  import opened Alu
  import opened Controller
  import opened Isa
  import opened Rtl

  /** vsrc/pc.sv */
  class Pc {
    var q: Word

    constructor (q: Word)
      ensures this.q == q
    {
      this.q := q;
    }

    method Clock(reset: bool, en: bool, aluOut: Word)
      modifies this
      ensures q == if !reset then 0 else if en then aluOut else old(q)
    {
      if !reset {
        q := 0;
      } else if en {
        q := aluOut;
      }
    }
  }

  /** vsrc/instruction_reg.sv */
  class InstructionReg {
    var instruction: Word

    constructor (instruction: Word)
      ensures this.instruction == instruction
    {
      this.instruction := instruction;
    }

    method Clock(reset: bool, loadEnable: bool, memoryData: Word)
      modifies this
      ensures instruction == if !reset then 0 else if loadEnable then memoryData else old(instruction)
    {
      if !reset {
        instruction := 0;
      } else if loadEnable {
        instruction := memoryData;
      }
    }
  }

  /** vsrc/flag_reg.sv */
  class FlagReg {
    var carry: Bit
    var zero: Bit
    var overflow: Bit
    var sign: Bit

    function Value(): Flags
      reads this
    {
      Flags(carry, zero, overflow, sign)
    }

    constructor (f: Flags)
      ensures Value() == f
    {
      carry, zero, overflow, sign := f.c, f.z, f.v, f.s;
    }

    method Clock(reset: bool, sst: nat, o: Output)
      modifies this
      ensures Value() == if reset then NextFlags(sst, old(Value()), o) else CLEARED
    {
      if !reset {
        carry, zero, overflow, sign := 0, 0, 0, 0;
      } else {
        match sst
        case 0 =>
          carry, zero, overflow, sign := o.c, o.z, o.v, o.s;
        case 1 =>
          carry := 0;
        case 2 =>
          carry := 1;
        case _ =>
      }
    }
  }

  /** vsrc/reg_file.sv: reset clears the array in a loop; one write port. */
  class RegFile {
    const regs: array<Word>

    predicate Valid() {
      regs.Length == 16
    }

    function Contents(): Regs
      requires Valid()
      reads regs
    {
      regs[..]
    }

    constructor (contents: Regs)
      ensures Valid() && fresh(regs) && Contents() == contents
    {
      regs := new Word[16](i requires 0 <= i < 16 => contents[i]);
      new;
      assert regs[..] == contents;
    }

    method Clock(reset: bool, writeEnable: bool, writeSel: RegIndex, writeData: Word)
      requires Valid()
      modifies regs
      ensures Contents() == if !reset then RESET_CORE.regs
                            else if writeEnable then old(Contents())[writeSel := writeData]
                            else old(Contents())
    {
      if !reset {
        for i := 0 to 16
          invariant forall j :: 0 <= j < i ==> regs[j] == 0
        {
          regs[i] := 0;
        }
        assert regs[..] == RESET_CORE.regs;
      } else if writeEnable {
        regs[writeSel] := writeData;
        assert regs[..] == old(regs[..])[writeSel := writeData];
      }
    }
  }

  /** vsrc/execution_stage_fsm.sv */
  class StageFsm {
    var current: FsmState

    constructor (current: FsmState)
      ensures this.current == current
    {
      this.current := current;
    }

    method Clock(reset: bool, inst: Word)
      modifies this
      ensures current == if reset then NextState(old(current), inst) else State0
    {
      if !reset {
        current := State0;
      } else {
        match current
        case State0 => current := State1;
        case State1 => current := State2;
        case State2 =>
          if NeedsSecondWord(inst) { current := State4; } else { current := State3; }
        case State3 => current := State1;
        case State4 =>
          if IsComplexInstruction(inst) { current := State6; } else { current := State5; }
        case State5 => current := State1;
        case State6 => current := State7;
        case State7 => current := State1;
      }
    }
  }

  /** tb/memory_model.sv: drives the bus while wr is 1, takes the word from the bus on the edge while wr is 0. */
  class MemoryModel {
    const mem: array<Word>

    predicate Valid() {
      mem.Length == 0x1_0000
    }

    function Contents(): Mem
      requires Valid()
      reads mem
    {
      mem[..]
    }

    constructor ()
      ensures Valid() && fresh(mem)
    {
      mem := new Word[0x1_0000];
    }

    method Clear()
      requires Valid()
      modifies mem
      ensures Contents() == ZeroMem()
    {
      for i := 0 to 0x1_0000
        invariant forall j :: 0 <= j < i ==> mem[j] == 0
      {
        mem[i] := 0;
      }
      assert mem[..] == ZeroMem();
    }

    /** Clears the memory and then loads the image from address 0; words past the end have no place. */
    method Load(image: seq<Word>)
      requires Valid()
      modifies mem
      ensures forall a: Word :: Contents()[a] == if a < |image| then image[a] else 0
    {
      Clear();
      assert forall a: Word :: mem[a] == Contents()[a] == 0;
      var i := 0;
      while i < |image| && i < 0x1_0000
        invariant i <= |image| && i <= 0x1_0000
        invariant forall a: Word :: mem[a] == if a < i then image[a] else 0
      {
        mem[i] := image[i];
        i := i + 1;
      }
    }

    method Clock(wr: Bit, address: Word, bus: Word)
      requires Valid()
      modifies mem
      ensures Contents() == if wr == 0 then old(Contents())[address := bus] else old(Contents())
    {
      if wr == 0 {
        mem[address] := bus;
        assert mem[..] == old(mem[..])[address := bus];
      }
    }
  }

  /** vsrc/cpu_core.sv with the memory on its shared bus. */
  class CpuCore {
    const pc: Pc
    const ir: InstructionReg
    const flags: FlagReg
    const regs: RegFile
    const fsm: StageFsm
    const memory: MemoryModel
    var addressBus: Word

    predicate Valid() {
      regs.Valid() && memory.Valid()
    }

    function Footprint(): set<object> {
      {this, pc, ir, flags, regs.regs, fsm, memory.mem}
    }

    function State(): System
      requires Valid()
      reads Footprint()
    {
      System(Core(fsm.current, ir.instruction, pc.q, addressBus, regs.Contents(), flags.Value()), memory.Contents())
    }

    /** Powers up with the given register contents and an uninitialised memory. */
    constructor (k: Core)
      ensures Valid() && fresh(Footprint()) && State().core == k
    {
      pc := new Pc(k.pc);
      ir := new InstructionReg(k.ir);
      flags := new FlagReg(k.flags);
      regs := new RegFile(k.regs);
      fsm := new StageFsm(k.state);
      memory := new MemoryModel();
      addressBus := k.address;
    }

    /** One rising edge: every register samples the values from before the edge. */
    method Clock(reset: bool)
      requires Valid()
      modifies Footprint()
      ensures Valid() && State() == Rtl.Clock(old(State()), reset)
    {
      hide Evaluate, Signals;
      var k := if reset then State().core else RESET_CORE;
      var g := Signals(StageCode(k.state), k.ir, k.flags);
      var cin := CarryIn(g.carryInSelect, k.flags.c);
      var bus := if g.wr == 1 then memory.mem[k.address] else AluOf(k, 0).out;
      var o := Evaluate(cin, g.aluInSel, g.aluFunc,
                        Inputs(bus, k.pc, Extend(g.offset), k.regs[g.sourReg], k.regs[g.destReg]));
      memory.Clock(g.wr, k.address, bus);
      fsm.Clock(reset, bus);
      ir.Clock(reset, g.instructionLoadEnable, bus);
      flags.Clock(reset, g.sst, o);
      regs.Clock(reset, g.RegWriteEnable(), g.destReg, o.out);
      if !reset {
        addressBus := 0;
      } else if g.addressWriteSelect == ADDRESS_FROM_PC {
        addressBus := pc.q;
      } else if g.addressWriteSelect == ADDRESS_FROM_ALU {
        addressBus := o.out;
      }
      pc.Clock(reset, g.PcWriteEnable(), o.out);
      ResetReads(k);
    }
  }

  /** In the reset stage the controller asks for a read, so an asserted reset never writes memory. */
  lemma ResetReads(k: Core)
    ensures k.state == State0 ==> SignalsOf(k) == DEFAULTS
  {}
}
