/** model/reference_model.py: the instruction-level reference model with its event log. */
module Reference {
  import opened Words
  import opened Results
  import opened Isa
  import opened SoftwareFlags

  // ----- the event log -----

  datatype Access = NoAccess | Read(address: Word, data: Word) | Write(address: Word, data: Word)

  datatype Event = Event(
    step: nat,
    instrAddr: Word,
    pcBefore: Word,
    pcAfter: Word,
    ir: Word,
    opcode: Byte,
    dr: RegIndex,
    sr: RegIndex,
    flagsBefore: Flags,
    flagsAfter: Flags,
    branchTaken: bool,
    branchTarget: Option<Word>,
    offset: Option<int>,
    immediate: Option<Word>,
    access: Access,
    extraWord: Option<Word>)

  /** The instruction reads a second word. */
  predicate HasExtraWord(i: Instr) {
    i.Jmpa? || i.Mvrd? || i.Addi? || i.Andi? || i.Calla?
  }

  predicate IsConditional(i: Instr) {
    i.Jump? && i.cond != Always
  }

  predicate IsControl(i: Instr) {
    i.Jump? || i.Jmpa? || i.Calla? || i.Ret?
  }

  function AccessOf(i: Instr, s: Arch): Access {
    match i
    case Ldrr(_, sr) => Read(s.regs[sr], s.mem[s.regs[sr]])
    case Strr(dr, sr) => Write(s.regs[dr], s.regs[sr])
    case _ => NoAccess
  }

  /** The event of retiring the current instruction of s as the n-th. */
  function EventOf(n: nat, s: Arch): Event
    requires Supported(s)
  {
    var i, t, w := Current(s), Step(s), Fetch(s);
    var extra := if HasExtraWord(i) then Some(s.mem[Wrap(s.pc + 1)]) else None;
    Event(n, s.pc, s.pc, t.pc, w, Opcode(w), DestField(w), SourceField(w), s.flags, t.flags,
          if IsConditional(i) then t.pc != Wrap(s.pc + 1) else IsControl(i),
          if IsControl(i) then Some(t.pc) else None,
          if i.Jump? || i.Calla? then Some(Signed8(Imm8(w))) else None,
          if i.Calla? then None else extra,
          AccessOf(i, s),
          extra)
  }

  /** The event as the model assembles it from opcode sets. */
  function EventByOpcode(step: nat, instrAddr: Word, pcAfter: Word, instr: Word, flagsBefore: Flags, flagsAfter: Flags,
                         access: Access, extraWord: Option<Word>): Event {
    var opcode := Opcode(instr);
    Event(step, instrAddr, instrAddr, pcAfter, instr, opcode, DestField(instr), SourceField(instr),
          flagsBefore, flagsAfter,
          if opcode in {0x41, 0x43, 0x44, 0x45, 0x46, 0x47} then
            pcAfter != Wrap(instrAddr + (if opcode in {0x80, 0x81, 0x84, 0x85, 0xF0} then 2 else 1))
          else opcode in {0x40, 0x80, 0xF0, 0xF1},
          if opcode in {0x40, 0x41, 0x43, 0x44, 0x45, 0x46, 0x47, 0x80, 0xF0, 0xF1} then Some(pcAfter) else None,
          if opcode in {0x40, 0x41, 0x43, 0x44, 0x45, 0x46, 0x47, 0xF0} then Some(Signed8(Imm8(instr))) else None,
          if opcode in {0x80, 0x81, 0x84, 0x85} then extraWord else None,
          access, extraWord)
  }

  lemma EventsAgree(n: nat, s: Arch, extraWord: Option<Word>, access: Access)
    requires var op := Opcode(Fetch(s));
             extraWord == if op in {0x80, 0x81, 0x84, 0x85, 0xF0} then Some(s.mem[Wrap(s.pc + 1)]) else None
    requires var op, dr, sr := Opcode(Fetch(s)), DestField(Fetch(s)), SourceField(Fetch(s));
             access == if op == 0x82 then Read(s.regs[sr], s.mem[s.regs[sr]])
                       else if op == 0x83 then Write(s.regs[dr], s.regs[sr])
                       else NoAccess
    ensures Supported(s) ==>
              EventOf(n, s) == EventByOpcode(n, s.pc, Step(s).pc, Fetch(s), s.flags, Step(s).flags, access, extraWord)
  {
    hide Step;
  }

  // ----- the model -----

  datatype Retirement = Retired(ir: Word) | Unsupported(opcode: Byte, address: Word)

  datatype RunOutcome = Halted | UnsupportedOpcode(opcode: Byte, address: Word) | ExceededMaxSteps

  class CpuModel {
    var mem: Mem
    var regs: Regs
    var pc: Word
    var flags: Flags
    var events: seq<Event>
    var steps: nat

    function Value(): Arch
      reads this
    {
      Arch(pc, regs, flags, mem)
    }

    /** Copies the image to the bottom of a cleared memory; a longer image does not fit. */
    constructor (memory: seq<int>)
      requires |memory| <= 0x1_0000
      ensures events == [] && steps == 0
      ensures Value().(mem := ZeroMem()) == InitArch(ZeroMem())
      ensures forall a: Word :: mem[a] == if a < |memory| then Wrap(memory[a]) else 0
    {
      mem := ZeroMem();
      regs := ZeroRegs();
      pc := 0;
      flags := CLEARED;
      events := [];
      steps := 0;
      new;
      for idx := 0 to |memory|
        invariant Value().(mem := ZeroMem()) == InitArch(ZeroMem())
        invariant events == [] && steps == 0
        invariant forall a: Word :: mem[a] == if a < idx then Wrap(memory[a]) else 0
      {
        mem := mem[idx := Wrap(memory[idx])];
      }
    }

    method UpdateLogicFlags(value: Word, carry: Bit := 0)
      modifies `flags
      ensures flags == Plain(value, carry).flags
    {
      LogicFlagsMeanPlain(value, carry);
      flags := LogicFlags(value, carry);
    }

    method UpdateAddFlags(a: Word, b: Word, result: Word, carryOut: Bit)
      modifies `flags
      ensures flags == AddFlags(a, b, result, carryOut)
    {
      flags := AddFlags(a, b, result, carryOut);
    }

    method UpdateSubFlags(a: Word, b: Word, result: Word, carryOut: Bit)
      modifies `flags
      ensures flags == SubFlags(a, b, result, carryOut)
    {
      flags := SubFlags(a, b, result, carryOut);
    }

    method SetReg(r: RegIndex, x: Word)
      modifies `regs
      ensures regs == old(regs)[r := x]
    {
      regs := regs[r := x];
    }

    // The branches of the interpreter loop, grouped by the kind of instruction.

    method ExecuteDoubleWord(instr: Word)
      requires Opcode(instr) in {0x80, 0x81, 0x82, 0x83}
      modifies `pc, `regs, `mem
      ensures Value() == Exec(Decode(instr).value, old(Value()))
    {
      hide Decode, Opcode, DestField, SourceField;
      DecodesTwoCycle(instr);
      var opcode, dr, sr := Opcode(instr), DestField(instr), SourceField(instr);
      if opcode == 0x81 {
        var imm := mem[pc];
        pc := Wrap(pc + 1);
        SetReg(dr, imm);
      } else if opcode == 0x80 {
        pc := mem[pc];
      } else if opcode == 0x82 {
        SetReg(dr, mem[regs[sr]]);
      } else {
        mem := mem[regs[dr] := regs[sr]];
      }
    }

    method ExecuteImmediate(instr: Word)
      requires Opcode(instr) in {0x84, 0x85}
      modifies `pc, `regs, `flags
      ensures Value() == Exec(Decode(instr).value, old(Value()))
    {
      hide Decode, Opcode, DestField, SourceField, And16, Sum, Plain, AddFlags;
      DecodesTwoCycle(instr);
      var opcode, dr := Opcode(instr), DestField(instr);
      if opcode == 0x84 {
        var a := mem[pc];
        pc := Wrap(pc + 1);
        var b := regs[dr];
        var full := b as int + a;
        AddMeets(a, b, 0);
        SetReg(dr, Wrap(full));
        UpdateAddFlags(a, b, Wrap(full), ToBit(full > 0xFFFF));
      } else {
        var imm := mem[pc];
        pc := Wrap(pc + 1);
        var result := And16(regs[dr], imm);
        PlainValue(result, 0);
        SetReg(dr, result);
        UpdateLogicFlags(result);
      }
    }

    method ExecuteLogic(instr: Word)
      requires Opcode(instr) in {0x02, 0x04, 0x05, 0x06, 0x07}
      modifies `regs, `flags
      ensures Value() == Exec(Decode(instr).value, old(Value()))
    {
      hide Decode, Opcode, DestField, SourceField, And16, Or16, Xor16, Plain;
      DecodesTwoReg(instr);
      var opcode, dr, sr := Opcode(instr), DestField(instr), SourceField(instr);
      if opcode == 0x07 {
        SetReg(dr, regs[sr]);
      } else {
        var result := if opcode == 0x06 then Or16(regs[dr], regs[sr])
                      else if opcode == 0x04 then Xor16(regs[dr], regs[sr])
                      else And16(regs[dr], regs[sr]);
        PlainValue(result, 0);
        if opcode != 0x05 {
          SetReg(dr, result);
        }
        UpdateLogicFlags(result);
      }
    }

    method ExecuteArithmetic(instr: Word)
      requires Opcode(instr) in {0x00, 0x01, 0x03, 0x0C, 0x0D}
      modifies `regs, `flags
      ensures Value() == Exec(Decode(instr).value, old(Value()))
    {
      hide Decode, Opcode, DestField, SourceField, Sum, Difference, AddFlags, SubFlags;
      DecodesTwoReg(instr);
      var opcode, dr, sr := Opcode(instr), DestField(instr), SourceField(instr);
      var a, b := regs[sr], regs[dr];
      if opcode == 0x00 || opcode == 0x0C {
        var cin := if opcode == 0x0C then flags.c else 0;
        var full := b + a + cin;
        AddMeets(a, b, cin);
        SetReg(dr, Wrap(full));
        UpdateAddFlags(a, b, Wrap(full), ToBit(full > 0xFFFF));
      } else {
        var cin := if opcode == 0x0D then flags.c else 0;
        var full := (b - a - cin) % 0x2_0000;
        SubFlagsMeanDifference(a, b, cin);
        if opcode != 0x03 {
          SetReg(dr, Wrap(full));
        }
        UpdateSubFlags(a, b, Wrap(full), full / 0x1_0000 % 2);
      }
    }

    method ExecuteOneReg(instr: Word)
      requires Opcode(instr) in {0x08, 0x09, 0x0A, 0x0B, 0x0E, 0x0F}
      modifies `regs, `flags
      ensures Value() == Exec(Decode(instr).value, old(Value()))
    {
      hide Decode, Opcode, DestField, SourceField, And16, Or16, Sum, Difference, AddFlags, SubFlags, Plain;
      DecodesOneReg(instr);
      var opcode, dr := Opcode(instr), DestField(instr);
      var b: int := regs[dr];
      if opcode == 0x0A {
        var result: Word := Wrap(2 * b);
        SignMask(b);
        PlainValue(result, ToBit(Signed(b) < 0));
        SetReg(dr, result);
        UpdateLogicFlags(result, NonZeroBit(And16(b, 0x8000)));
      } else if opcode == 0x0B {
        PlainValue(b / 2, b % 2);
        SetReg(dr, b / 2);
        UpdateLogicFlags(b / 2, b % 2);
      } else if opcode == 0x0E {
        var result := Wrap(-b - 1);
        PlainValue(result, 0);
        SetReg(dr, result);
        UpdateLogicFlags(result);
      } else if opcode == 0x0F {
        var result := Or16(And16(b, 0x8000), b / 2);
        SignKeepingShift(b);
        PlainValue(result, b % 2);
        SetReg(dr, result);
        UpdateLogicFlags(result, b % 2);
      } else if opcode == 0x08 {
        var full := (b - 1) % 0x2_0000;
        SubFlagsMeanDifference(1, b, 0);
        SetReg(dr, Wrap(full));
        UpdateSubFlags(1, b, Wrap(full), full / 0x1_0000 % 2);
      } else {
        var full: int := b + 1;
        IncrementFlags(b);
        SumValue(b, 1, 0);
        SetReg(dr, Wrap(full));
        UpdateAddFlags(0, b, Wrap(full), ToBit(full > 0xFFFF));
      }
    }

    method ExecuteControl(instr: Word)
      requires Opcode(instr) in {0x40, 0x41, 0x43, 0x44, 0x45, 0x46, 0x47, 0x78, 0x7A, 0xF0, 0xF1}
      modifies `pc, `regs, `flags
      ensures Value() == Exec(Decode(instr).value, old(Value()))
    {
      hide Decode, Opcode, DestField, SourceField, Imm8, Signed8;
      if Opcode(instr) in {0x78, 0x7A, 0xF0, 0xF1} { DecodesControl(instr); } else { DecodesJump(instr); }
      var opcode := Opcode(instr);
      if opcode == 0x78 {
        flags := flags.(c := 0);
      } else if opcode == 0x7A {
        flags := flags.(c := 1);
      } else if opcode == 0xF0 {
        pc := Wrap(pc + 1);
        SetReg(15, pc);
        pc := Wrap(pc + Signed8(Imm8(instr)));
      } else if opcode == 0xF1 {
        pc := regs[15];
      } else {
        var offset := Signed8(Imm8(instr));
        var take := match opcode
          case 0x40 => true
          case 0x41 => flags.s == 1
          case 0x43 => flags.s == 0
          case 0x44 => flags.c == 1
          case 0x45 => flags.c == 0
          case 0x46 => flags.z == 1
          case _ => flags.z == 0;
        if take {
          pc := Wrap(pc + offset);
        }
      }
    }

    /** One pass of the loop body: fetch, execute, log. An unsupported opcode raises after PC has moved on. */
    method Step() returns (r: Retirement)
      modifies this
      ensures Supported(old(Value())) ==>
                && r == Retired(Fetch(old(Value())))
                && Value() == Isa.Step(old(Value()))
                && steps == old(steps) + 1
                && events == old(events) + [EventOf(old(steps), old(Value()))]
      ensures !Supported(old(Value())) ==>
                && r == Retirement.Unsupported(Opcode(Fetch(old(Value()))), old(pc))
                && Value() == Skip(old(Value()))
                && steps == old(steps) && events == old(events)
    {
      hide Exec, EventOf, EventByOpcode;
      var instrAddr, instr, flagsBefore := pc, mem[pc], flags;
      pc := Wrap(pc + 1);
      var opcode, dr, sr := Opcode(instr), DestField(instr), SourceField(instr);
      var extraWord := if opcode in {0x80, 0x81, 0x84, 0x85, 0xF0} then Some(mem[pc]) else None;
      var access := if opcode == 0x82 then Read(regs[sr], mem[regs[sr]])
                    else if opcode == 0x83 then Write(regs[dr], regs[sr])
                    else NoAccess;
      EventsAgree(steps, Value().(pc := instrAddr), extraWord, access);
      if opcode in {0x80, 0x81, 0x82, 0x83} {
        ExecuteDoubleWord(instr);
      } else if opcode in {0x84, 0x85} {
        ExecuteImmediate(instr);
      } else if opcode in {0x02, 0x04, 0x05, 0x06, 0x07} {
        ExecuteLogic(instr);
      } else if opcode in {0x00, 0x01, 0x03, 0x0C, 0x0D} {
        ExecuteArithmetic(instr);
      } else if opcode in {0x08, 0x09, 0x0A, 0x0B, 0x0E, 0x0F} {
        ExecuteOneReg(instr);
      } else if opcode in {0x40, 0x41, 0x43, 0x44, 0x45, 0x46, 0x47, 0x78, 0x7A, 0xF0, 0xF1} {
        ExecuteControl(instr);
      } else {
        return Retirement.Unsupported(opcode, instrAddr);
      }
      EmitEvent(instrAddr, instr, flagsBefore, access, extraWord);
      steps := steps + 1;
      r := Retired(instr);
    }

    method EmitEvent(instrAddr: Word, instr: Word, flagsBefore: Flags, access: Access, extraWord: Option<Word>)
      modifies `events
      ensures events == old(events)
                     + [EventByOpcode(steps, instrAddr, pc, instr, flagsBefore, flags, access, extraWord)]
    {
      events := events + [EventByOpcode(steps, instrAddr, pc, instr, flagsBefore, flags, access, extraWord)];
    }

    /**
     * Runs until `haltRepeatThreshold` retirements of 0x40FF in a row, an unsupported opcode, or `maxSteps`.
     */
    method Run(maxSteps: int, haltRepeatThreshold: int) returns (outcome: RunOutcome)
      modifies this
      ensures steps >= old(steps)
      ensures var n := steps - old(steps);
              var s := old(Value());
              && RunEnds(s, maxSteps - old(steps), haltRepeatThreshold, outcome, n)
              && Value() == (if outcome.UnsupportedOpcode? then Skip(Isa.Run(s, n)) else Isa.Run(s, n))
              && events == old(events) + Log(s, old(steps), n)
    {
      hide Isa.Step, EventOf, Supported, Decode, Opcode;
      ghost var s := Value();
      ghost var start := steps;
      var selfLoopRetireCount := 0;
      while steps < maxSteps
        invariant steps >= start
        invariant AllSupported(s, steps - start)
        invariant Value() == Isa.Run(s, steps - start)
        invariant events == old(events) + Log(s, start, steps - start)
        invariant selfLoopRetireCount == Streak(s, steps - start)
        invariant forall m :: 1 <= m <= steps - start ==> Streak(s, m) < haltRepeatThreshold
        invariant steps > start ==> steps <= maxSteps
      {
        var r := Step();
        if r.Unsupported? {
          return UnsupportedOpcode(r.opcode, r.address);
        }
        if r.ir == 0x40FF {
          selfLoopRetireCount := selfLoopRetireCount + 1;
        } else {
          selfLoopRetireCount := 0;
        }
        if selfLoopRetireCount >= haltRepeatThreshold {
          return Halted;
        }
      }
      return ExceededMaxSteps;
    }
  }

  // ----- what a run is -----

  predicate AllSupported(s: Arch, n: nat) {
    forall k: nat :: k < n ==> Supported(Isa.Run(s, k))
  }

  /** How many of the last retirements among the first n were 0x40FF, the jump to itself. */
  function Streak(s: Arch, n: nat): nat {
    if n > 0 && Fetch(Isa.Run(s, n - 1)) == 0x40FF then Streak(s, n - 1) + 1 else 0
  }

  function Log(s: Arch, start: nat, n: nat): (log: seq<Event>)
    requires AllSupported(s, n)
    ensures |log| == n
  {
    if n == 0 then [] else Log(s, start, n - 1) + [EventOf(start + n - 1, Isa.Run(s, n - 1))]
  }

  /** A run of at most `budget` instructions from s ends with `outcome` after n of them. */
  predicate RunEnds(s: Arch, budget: int, threshold: int, outcome: RunOutcome, n: nat) {
    && AllSupported(s, n)
    && (forall m :: 1 <= m < n ==> Streak(s, m) < threshold)
    && (outcome.Halted? <==> n >= 1 && Streak(s, n) >= threshold)
    && match outcome
       case Halted => n <= budget
       case UnsupportedOpcode(op, a) =>
         var t := Isa.Run(s, n);
         n < budget && !Supported(t) && op == Opcode(Fetch(t)) && a == t.pc
       case ExceededMaxSteps => n == if budget > 0 then budget else 0
  }

  lemma SumValue(b: Word, a: Word, cin: Bit)
    ensures Sum(b, a, cin).value == Wrap(b + a + cin)
  {}

  lemma PlainValue(r: Word, out: Bit)
    ensures Plain(r, out).value == r
  {}

  lemma AddMeets(a: Word, b: Word, cin: Bit)
    ensures Sum(b, a, cin).value == Wrap(b + a + cin)
    ensures AddFlags(a, b, Wrap(b + a + cin), ToBit(b + a + cin > 0xFFFF)) == Sum(b, a, cin).flags
  {
    AddFlagsMeanSum(a, b, cin);
  }
}
