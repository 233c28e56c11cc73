/**
 * What the straight parts of a generated program do, over every run: the state in which the loop is entered, and
 * the effect of every operation whenever it is reached.
 */
module GeneratorOperations {
  import opened Words
  import opened Results
  import opened Isa
  import opened Assembler
  import opened SourceMachine
  import opened AssemblerCorrect
  import opened SourceProgress
  import opened Halting
  import opened Generator
  import opened GeneratorShape
  import opened GeneratorHalts
  import opened GeneratorTargets
  import opened GeneratorBranches

  // ----- runs and lines -----

  /** The state of the run of a program after m instructions. */
  ghost function After(config: Config, c: Choices, table: Table, m: nat): Arch
    requires Possible(c, config) && Accepted(Program(config, c), table)
  {
    Run(Start(Program(config, c), table), m)
  }

  /** The run stands at line i. */
  ghost predicate Reaches(config: Config, c: Choices, table: Table, m: nat, i: nat)
    requires Possible(c, config) && Accepted(Program(config, c), table)
  {
    var src := Program(config, c);
    i < |src| && After(config, c, table, m).pc == Address(src, i)
  }

  lemma InstructionsApart(src: Source, l: nat, i: nat)
    requires Sized(src) && l < |src| && i < |src| && src[l].mnemonic.Some? && src[i].mnemonic.Some?
    requires Address(src, l) == Address(src, i)
    ensures l == i
  {
    hide Address;
    InstructionsHaveSize(src[l]);
    InstructionsHaveSize(src[i]);
    if l < i {
      AddressesRise(src, l, i);
    } else if i < l {
      AddressesRise(src, i, l);
    }
  }

  /** At an instruction of the program, a run does what the line says. */
  lemma RunsLine(config: Config, c: Choices, table: Table, m: nat, i: nat)
    requires Possible(c, config) && Accepted(Program(config, c), table) && Reaches(config, c, table, m, i)
    requires Program(config, c)[i].mnemonic.Some?
    ensures var src, s := Program(config, c), After(config, c, table, m);
            && Sized(src) && ProgramSize(src) <= 0x100 && Perform(src, i, s).Some?
            && After(config, c, table, m + 1) == Perform(src, i, s).value
  {
    hide Possible, Program, Accepted, Start, Shape, Loaded, Address, Follow, Perform, ProgramSize, Step, Supported,
         Current, DecLine, SetupLines, AtHalt;
    var src, n0, dec := Program(config, c), |SetupLines(config, c)|, DecLine(config, c);
    var s, high := Start(src, table), "mem_addr_high" in config.targetedBins;
    ProgramHasShape(config, c);
    var path := WholePath(src, table, n0, dec, c.loops, c.last, high);
    var t := Run(s, m);
    if m < |path| {
      AtPath(src, table, path, s, m);
      AtInstruction(src, table, path[m], t);
      InstructionsApart(src, path[m], i);
      PathStep(src, path, s, m + 1);
      assert path[..m + 1][..m] == path[..m];
    } else {
      HaltStays(s, |path|, m);
      EndingIsHalt(src, n0, dec, c.loops, c.last, high);
      InstructionsApart(src, dec + 6, i);
      assert At(src, table, i, t);
      OthersPerform(src, table, i, t);
    }
    LineMeans(src, table, i, t);
  }

  lemma AtInstruction(src: Source, table: Table, i: nat, s: Arch)
    requires At(src, table, i, s)
    ensures i < |src| && src[i].mnemonic.Some?
  {}

  lemma EndingIsHalt(src: Source, n0: nat, dec: nat, loops: int, x: int, high: bool)
    requires Shape(src, n0, dec, loops, x, high)
    ensures dec + 6 < |src| && src[dec + 6].mnemonic == Some(JR)
  {
    hide Ending, Setup, BodyLine, HighBefore, UniqueLabels;
    EndingLines(src, dec, x);
  }

  // ----- the effect of single lines -----

  lemma TwoRegLine(src: Source, i: nat, s: Arch, m: Mnemonic, dr: RegIndex, sr: RegIndex)
    requires Sized(src) && i < |src| && src[i] == Ins(m, [Reg(dr), Reg(sr)]) && TwoRegOpOf(m).Some?
    ensures SizeAt(src, i) == 1
    ensures Perform(src, i, s) == Some(Exec(TwoReg(TwoRegOpOf(m).value, dr, sr), Skip(s)))
  {
    hide Address, Exec;
  }

  lemma OneRegLine(src: Source, i: nat, s: Arch, m: Mnemonic, dr: RegIndex)
    requires Sized(src) && i < |src| && src[i] == Ins(m, [Reg(dr)]) && OneRegOpOf(m).Some?
    ensures SizeAt(src, i) == 1
    ensures Perform(src, i, s) == Some(Exec(OneReg(OneRegOpOf(m).value, dr), Skip(s)))
  {
    hide Address, Exec;
  }

  lemma StoreLine(src: Source, i: nat, s: Arch, dr: RegIndex, sr: RegIndex)
    requires Sized(src) && i < |src| && src[i] == Ins(STRR, [Reg(dr), Reg(sr)]) && Perform(src, i, s).Some?
    ensures SizeAt(src, i) == 1
    ensures Perform(src, i, s).value == s.(pc := Wrap(s.pc + 1), mem := s.mem[s.regs[dr] := s.regs[sr]])
  {
    hide Address, Denotes, TwoRegOutcome, OneRegOutcome, Sum, Plain, Sized;
  }

  lemma FetchLine(src: Source, i: nat, s: Arch, dr: RegIndex, sr: RegIndex)
    requires Sized(src) && i < |src| && src[i] == Ins(LDRR, [Reg(dr), Reg(sr)])
    ensures SizeAt(src, i) == 1
    ensures Perform(src, i, s) == Some(s.(pc := Wrap(s.pc + 1), regs := s.regs[dr := s.mem[s.regs[sr]]]))
  {
    hide Address;
  }

  /** An arithmetic instruction falls through. */
  lemma FallsThrough(i: Instr, s: Arch)
    requires i.TwoReg? || i.OneReg?
    ensures Exec(i, Skip(s)).pc == Wrap(s.pc + 1)
  {
    hide TwoRegOutcome, OneRegOutcome;
  }

  // ----- one line of a run -----

  /** A run that stands at a line and moves on by its size stands at the next line. */
  lemma ReachesNext(config: Config, c: Choices, table: Table, m: nat, i: nat)
    requires Possible(c, config) && Accepted(Program(config, c), table) && Reaches(config, c, table, m, i)
    requires var src := Program(config, c);
             && Sized(src) && ProgramSize(src) <= 0x100 && i + 1 < |src|
             && After(config, c, table, m + 1).pc == Wrap(After(config, c, table, m).pc + SizeAt(src, i))
    ensures Reaches(config, c, table, m + 1, i + 1)
  {
    hide Possible, Program, Accepted, After, Address, ProgramSize;
    NextAddress(Program(config, c), i);
  }

  lemma RunsTwoReg(config: Config, c: Choices, table: Table, m: nat, i: nat, op: Mnemonic, dr: RegIndex, sr: RegIndex)
    requires Possible(c, config) && Accepted(Program(config, c), table) && Reaches(config, c, table, m, i)
    requires var src := Program(config, c);
             i + 1 < |src| && src[i] == Ins(op, [Reg(dr), Reg(sr)]) && TwoRegOpOf(op).Some?
    ensures Reaches(config, c, table, m + 1, i + 1)
    ensures After(config, c, table, m + 1)
         == Exec(TwoReg(TwoRegOpOf(op).value, dr, sr), Skip(After(config, c, table, m)))
  {
    hide Possible, Program, Accepted, After, Reaches, Perform, Exec, Reg;
    RunsLine(config, c, table, m, i);
    TwoRegLine(Program(config, c), i, After(config, c, table, m), op, dr, sr);
    FallsThrough(TwoReg(TwoRegOpOf(op).value, dr, sr), After(config, c, table, m));
    ReachesNext(config, c, table, m, i);
  }

  lemma RunsOneReg(config: Config, c: Choices, table: Table, m: nat, i: nat, op: Mnemonic, dr: RegIndex)
    requires Possible(c, config) && Accepted(Program(config, c), table) && Reaches(config, c, table, m, i)
    requires var src := Program(config, c); i + 1 < |src| && src[i] == Ins(op, [Reg(dr)]) && OneRegOpOf(op).Some?
    ensures Reaches(config, c, table, m + 1, i + 1)
    ensures After(config, c, table, m + 1) == Exec(OneReg(OneRegOpOf(op).value, dr), Skip(After(config, c, table, m)))
  {
    hide Possible, Program, Accepted, After, Reaches, Perform, Exec, Reg;
    RunsLine(config, c, table, m, i);
    OneRegLine(Program(config, c), i, After(config, c, table, m), op, dr);
    FallsThrough(OneReg(OneRegOpOf(op).value, dr), After(config, c, table, m));
    ReachesNext(config, c, table, m, i);
  }

  lemma RunsCarry(config: Config, c: Choices, table: Table, m: nat, i: nat, one: bool)
    requires Possible(c, config) && Accepted(Program(config, c), table) && Reaches(config, c, table, m, i)
    requires var src := Program(config, c); i + 1 < |src| && src[i] == Ins(if one then STC else CLC, [])
    ensures Reaches(config, c, table, m + 1, i + 1)
    ensures var s := After(config, c, table, m);
            After(config, c, table, m + 1) == Skip(s).(flags := s.flags.(c := if one then 1 else 0))
  {
    hide Possible, Program, Accepted, After, Reaches, Perform;
    RunsLine(config, c, table, m, i);
    CarryLine(Program(config, c), i, After(config, c, table, m), one);
    ReachesNext(config, c, table, m, i);
  }

  lemma RunsLoad(config: Config, c: Choices, table: Table, m: nat, i: nat, r: RegIndex, v: int)
    requires Possible(c, config) && Accepted(Program(config, c), table) && Reaches(config, c, table, m, i)
    requires var src := Program(config, c); i + 1 < |src| && src[i] == LoadImm(r, v)
    ensures Reaches(config, c, table, m + 1, i + 1)
    ensures var s := After(config, c, table, m);
            After(config, c, table, m + 1) == s.(pc := Wrap(s.pc + 2), regs := s.regs[r := Wrap(v)])
  {
    hide Possible, Program, Accepted, After, Reaches, Perform, Reg;
    RunsLine(config, c, table, m, i);
    LoadLine(Program(config, c), i, After(config, c, table, m), r, v);
    ReachesNext(config, c, table, m, i);
  }

  lemma RunsStore(config: Config, c: Choices, table: Table, m: nat, i: nat, dr: RegIndex, sr: RegIndex)
    requires Possible(c, config) && Accepted(Program(config, c), table) && Reaches(config, c, table, m, i)
    requires var src := Program(config, c); i + 1 < |src| && src[i] == Ins(STRR, [Reg(dr), Reg(sr)])
    ensures Reaches(config, c, table, m + 1, i + 1)
    ensures var s := After(config, c, table, m);
            After(config, c, table, m + 1) == Skip(s).(mem := s.mem[s.regs[dr] := s.regs[sr]])
  {
    hide Possible, Program, Accepted, After, Reaches, Perform, Reg;
    RunsLine(config, c, table, m, i);
    StoreLine(Program(config, c), i, After(config, c, table, m), dr, sr);
    ReachesNext(config, c, table, m, i);
  }

  lemma RunsFetch(config: Config, c: Choices, table: Table, m: nat, i: nat, dr: RegIndex, sr: RegIndex)
    requires Possible(c, config) && Accepted(Program(config, c), table) && Reaches(config, c, table, m, i)
    requires var src := Program(config, c); i + 1 < |src| && src[i] == Ins(LDRR, [Reg(dr), Reg(sr)])
    ensures Reaches(config, c, table, m + 1, i + 1)
    ensures var s := After(config, c, table, m);
            After(config, c, table, m + 1) == Skip(s).(regs := s.regs[dr := s.mem[s.regs[sr]]])
  {
    hide Possible, Program, Accepted, After, Reaches, Perform, Reg;
    RunsLine(config, c, table, m, i);
    FetchLine(Program(config, c), i, After(config, c, table, m), dr, sr);
    ReachesNext(config, c, table, m, i);
  }

  // ----- what each operation does, whenever it is reached -----

  lemma LineOf(config: Config, c: Choices, j: nat, q: nat)
    requires Possible(c, config) && j < |c.operations|
    requires q < |OperationLines(j, config.targetedBins, c.operations[j])|
    ensures var k := OperationLine(config, c, j) + q;
            && k + 1 < |Program(config, c)|
            && Program(config, c)[k] == OperationLines(j, config.targetedBins, c.operations[j])[q]
  {
    hide Possible, Program, OperationLine, OperationLines, DecLine, SetupLines, Shape;
    var src, k := Program(config, c), OperationLine(config, c, j);
    var ls := OperationLines(j, config.targetedBins, c.operations[j]);
    OperationStandsInProgram(config, c, j);
    assert src[k..k + |ls|][q] == src[k + q];
    ProgramHasShape(config, c);
    OperationsEnd(config, c, j + 1);
  }

  lemma {:induction false} OperationsEnd(config: Config, c: Choices, j: nat)
    requires Possible(c, config) && j <= |c.operations|
    ensures OperationLine(config, c, j) <= DecLine(config, c) < |Program(config, c)|
    decreases |c.operations| - j
  {
    hide Possible, Program, OperationLine, OperationLines, SetupLines, Shape;
    if j == |c.operations| {
      ProgramHasShape(config, c);
      LastLine(config, c);
    } else {
      OperationsEnd(config, c, j + 1);
      OperationStandsInProgram(config, c, j);
    }
  }

  lemma LastLine(config: Config, c: Choices)
    requires Possible(c, config)
    ensures OperationLine(config, c, |c.operations|) == DecLine(config, c) < |Program(config, c)|
  {
    assert c.operations[..|c.operations|] == c.operations;
  }

  lemma OneLine(config: Config, c: Choices, j: nat, l: Line)
    requires Possible(c, config) && j < |c.operations| && OperationLines(j, config.targetedBins, c.operations[j]) == [l]
    ensures var src, k := Program(config, c), OperationLine(config, c, j);
            k + 1 < |src| && src[k] == l && OperationLine(config, c, j + 1) == k + 1
  {
    hide Possible, Program, OperationLine, OperationLines;
    OperationStandsInProgram(config, c, j);
    LineOf(config, c, j, 0);
  }

  lemma TwoLines(config: Config, c: Choices, j: nat, l0: Line, l1: Line)
    requires Possible(c, config) && j < |c.operations|
    requires OperationLines(j, config.targetedBins, c.operations[j]) == [l0, l1]
    ensures var src, k := Program(config, c), OperationLine(config, c, j);
            k + 2 < |src| && src[k] == l0 && src[k + 1] == l1 && OperationLine(config, c, j + 1) == k + 2
  {
    hide Possible, Program, OperationLine, OperationLines;
    OperationStandsInProgram(config, c, j);
    LineOf(config, c, j, 0);
    LineOf(config, c, j, 1);
  }

  lemma ThreeLines(config: Config, c: Choices, j: nat, l0: Line, l1: Line, l2: Line)
    requires Possible(c, config) && j < |c.operations|
    requires OperationLines(j, config.targetedBins, c.operations[j]) == [l0, l1, l2]
    ensures var src, k := Program(config, c), OperationLine(config, c, j);
            && k + 3 < |src| && src[k] == l0 && src[k + 1] == l1 && src[k + 2] == l2
            && OperationLine(config, c, j + 1) == k + 3
  {
    hide Possible, Program, OperationLine, OperationLines;
    OperationStandsInProgram(config, c, j);
    LineOf(config, c, j, 0);
    LineOf(config, c, j, 1);
    LineOf(config, c, j, 2);
  }

  /** The source register of an arithmetic operation: for CMP and TEST the next one if both would be the same. */
  function SourceOf(o: Operation): (r: RegIndex)
    requires o.Arith?
    ensures r == if (o.op == CMP || o.op == TEST) && o.dst == o.src then (o.src + 1) % 10 else o.src
  {
    if o.op == CMP || o.op == TEST then Distinct(o.dst, o.src) else o.src
  }

  lemma ArithChoice(config: Config, c: Choices, j: nat)
    requires Possible(c, config) && j < |c.operations| && c.operations[j].Arith?
    ensures var o := c.operations[j];
            && TwoRegOpOf(o.op).Some?
            && ((o.op == CMP || o.op == TEST) ==> SourceOf(o) != o.dst)
            && ArithLines(j, config.targetedBins, o.op, o.dst, o.src)
               == OperationLines(j, config.targetedBins, o)
  {
    hide ArithLines;
    assert Allowed(c.operations[j], config.targetedBins);
  }

  /** An arithmetic operation without a target: the chosen one, on the chosen destination and source. */
  lemma ArithRuns(config: Config, c: Choices, table: Table, m: nat, j: nat)
    requires Possible(c, config) && Accepted(Program(config, c), table) && j < |c.operations|
    requires Reaches(config, c, table, m, OperationLine(config, c, j))
    requires c.operations[j].Arith? && !("add_overflow" in config.targetedBins && j == 0)
    requires !("adc_carry_in_set" in config.targetedBins && j == 1)
    requires !("sbb_carry_in_set" in config.targetedBins && j == 2)
    ensures var o := c.operations[j];
            && TwoRegOpOf(o.op).Some? && ((o.op == CMP || o.op == TEST) ==> SourceOf(o) != o.dst)
            && After(config, c, table, m + 1)
               == Exec(TwoReg(TwoRegOpOf(o.op).value, o.dst, SourceOf(o)), Skip(After(config, c, table, m)))
            && Reaches(config, c, table, m + 1, OperationLine(config, c, j + 1))
  {
    hide Possible, Program, Accepted, After, Reaches, Reg, Ins, LoadImm, OperationLine, OperationLines, Exec, SourceOf;
    var o := c.operations[j];
    ArithChoice(config, c, j);
    OneLine(config, c, j, Ins(o.op, [Reg(o.dst), Reg(SourceOf(o))]));
    RunsTwoReg(config, c, table, m, OperationLine(config, c, j), o.op, o.dst, SourceOf(o));
  }

  /** The target add_overflow: an addition that overflows. */
  lemma OverflowRuns(config: Config, c: Choices, table: Table, m: nat, j: nat)
    requires Possible(c, config) && Accepted(Program(config, c), table) && j < |c.operations|
    requires Reaches(config, c, table, m, OperationLine(config, c, j))
    requires c.operations[j].Arith? && "add_overflow" in config.targetedBins && j == 0
    ensures var t, u := After(config, c, table, m + 2), After(config, c, table, m + 3);
            && t.regs[0] == 0x7FFF && t.regs[1] == 0x0001 && u == Exec(TwoReg(Add, 0, 1), Skip(t))
            && u.regs[0] == 0x8000 && u.flags.v == 1
            && Reaches(config, c, table, m + 3, OperationLine(config, c, j + 1))
  {
    hide Possible, Program, Accepted, After, Reaches, Reg, Ins, LoadImm, OperationLine, OperationLines, Exec, SourceOf;
    var k := OperationLine(config, c, j);
    ArithChoice(config, c, j);
    ThreeLines(config, c, j, LoadImm(0, 0x7FFF), LoadImm(1, 0x0001), Ins(ADD, [Reg(0), Reg(1)]));
    RunsLoad(config, c, table, m, k, 0, 0x7FFF);
    RunsLoad(config, c, table, m + 1, k + 1, 1, 0x0001);
    RunsTwoReg(config, c, table, m + 2, k + 2, ADD, 0, 1);
    LargestPlusOne(After(config, c, table, m + 2));
  }

  lemma LargestPlusOne(s: Arch)
    requires s.regs[0] == 0x7FFF && s.regs[1] == 0x0001
    ensures var t := Exec(TwoReg(Add, 0, 1), Skip(s)); t.flags.v == 1 && t.regs[0] == 0x8000
  {}

  /** The targets adc_carry_in_set and sbb_carry_in_set: ADC or SBB is entered with C set and nothing else changed. */
  lemma CarryInRuns(config: Config, c: Choices, table: Table, m: nat, j: nat, op: TwoRegOp)
    requires Possible(c, config) && Accepted(Program(config, c), table) && j < |c.operations|
    requires Reaches(config, c, table, m, OperationLine(config, c, j))
    requires c.operations[j].Arith?
    requires ("adc_carry_in_set" in config.targetedBins && j == 1 && op == Adc)
             || ("sbb_carry_in_set" in config.targetedBins && j == 2 && op == Sbb)
    ensures var o, s := c.operations[j], After(config, c, table, m);
            var t, u := After(config, c, table, m + 1), After(config, c, table, m + 2);
            && t == Skip(s).(flags := s.flags.(c := 1)) && u == Exec(TwoReg(op, o.dst, SourceOf(o)), Skip(t))
            && Reaches(config, c, table, m + 2, OperationLine(config, c, j + 1))
  {
    hide Possible, Program, Accepted, After, Reaches, Reg, Ins, LoadImm, OperationLine, OperationLines, Exec, SourceOf;
    var o, k := c.operations[j], OperationLine(config, c, j);
    var mnemonic := if op == Adc then ADC else SBB;
    ArithChoice(config, c, j);
    TwoLines(config, c, j, Ins(STC, []), Ins(mnemonic, [Reg(o.dst), Reg(SourceOf(o))]));
    RunsCarry(config, c, table, m, k, true);
    RunsTwoReg(config, c, table, m + 1, k + 1, mnemonic, o.dst, SourceOf(o));
  }

  lemma UnaryChoice(config: Config, c: Choices, j: nat)
    requires Possible(c, config) && j < |c.operations| && c.operations[j].Unary?
    ensures var o := c.operations[j];
            && OneRegOpOf(o.op).Some?
            && UnaryLines(j, config.targetedBins, o.op, o.dst) == OperationLines(j, config.targetedBins, o)
  {
    hide UnaryLines;
    assert Allowed(c.operations[j], config.targetedBins);
  }

  /** A unary operation without a target: the chosen one, on the chosen register. */
  lemma UnaryRuns(config: Config, c: Choices, table: Table, m: nat, j: nat)
    requires Possible(c, config) && Accepted(Program(config, c), table) && j < |c.operations|
    requires Reaches(config, c, table, m, OperationLine(config, c, j))
    requires c.operations[j].Unary? && !("shl_sets_carry" in config.targetedBins && j == 0)
    requires !("shr_sets_carry" in config.targetedBins && j == 1)
    ensures var o := c.operations[j];
            && OneRegOpOf(o.op).Some?
            && After(config, c, table, m + 1)
               == Exec(OneReg(OneRegOpOf(o.op).value, o.dst), Skip(After(config, c, table, m)))
            && Reaches(config, c, table, m + 1, OperationLine(config, c, j + 1))
  {
    hide Possible, Program, Accepted, After, Reaches, Reg, Ins, LoadImm, OperationLine, OperationLines, Exec;
    var o := c.operations[j];
    UnaryChoice(config, c, j);
    OneLine(config, c, j, Ins(o.op, [Reg(o.dst)]));
    RunsOneReg(config, c, table, m, OperationLine(config, c, j), o.op, o.dst);
  }

  /** The targets shl_sets_carry and shr_sets_carry: the shift of a register whose outgoing bit is one. */
  lemma ShiftOutRuns(config: Config, c: Choices, table: Table, m: nat, j: nat, left: bool)
    requires Possible(c, config) && Accepted(Program(config, c), table) && j < |c.operations|
    requires Reaches(config, c, table, m, OperationLine(config, c, j))
    requires c.operations[j].Unary?
    requires if left then "shl_sets_carry" in config.targetedBins && j == 0
             else "shr_sets_carry" in config.targetedBins && j == 1
    ensures var t, u := After(config, c, table, m + 1), After(config, c, table, m + 2);
            && (left ==> t.regs[9] == 0x8001 && u == Exec(OneReg(Shl, 9), Skip(t)) && u.regs[9] == 0x0002)
            && (!left ==> t.regs[8] == 0x0001 && u == Exec(OneReg(Shr, 8), Skip(t)) && u.regs[8] == 0x0000)
            && u.flags.c == 1 && Reaches(config, c, table, m + 2, OperationLine(config, c, j + 1))
  {
    hide Possible, Program, Accepted, After, Reaches, Reg, Ins, LoadImm, OperationLine, OperationLines, Exec;
    var k := OperationLine(config, c, j);
    UnaryChoice(config, c, j);
    if left {
      TwoLines(config, c, j, LoadImm(9, 0x8001), Ins(SHL, [Reg(9)]));
      RunsLoad(config, c, table, m, k, 9, 0x8001);
      RunsOneReg(config, c, table, m + 1, k + 1, SHL, 9);
    } else {
      TwoLines(config, c, j, LoadImm(8, 0x0001), Ins(SHR, [Reg(8)]));
      RunsLoad(config, c, table, m, k, 8, 0x0001);
      RunsOneReg(config, c, table, m + 1, k + 1, SHR, 8);
    }
    ShiftsOutOne(After(config, c, table, m + 1));
  }

  lemma ShiftsOutOne(s: Arch)
    ensures s.regs[9] == 0x8001 ==> var t := Exec(OneReg(Shl, 9), Skip(s)); t.flags.c == 1 && t.regs[9] == 0x0002
    ensures s.regs[8] == 0x0001 ==> var t := Exec(OneReg(Shr, 8), Skip(s)); t.flags.c == 1 && t.regs[8] == 0x0000
  {}

  // ----- registers that addresses rely on -----

  /** The line names r as the register that it changes. */
  predicate Sets(l: Line, r: RegIndex) {
    l.mnemonic.Some? && (l.mnemonic.value == CALLA || (RegAt(l.operands, 0) == Some(r) && l.mnemonic.value != STRR))
  }

  lemma LineKeeps(src: Source, i: nat, s: Arch, r: RegIndex)
    requires Sized(src) && i < |src| && Perform(src, i, s).Some? && !Sets(src[i], r)
    ensures Perform(src, i, s).value.regs[r] == s.regs[r]
  {
    hide Address, Sized, Sum, Plain, TwoRegOutcome, OneRegOutcome, Denotes;
  }

  lemma StraightSets(l: Line, high: bool, r: RegIndex)
    requires Straight(l, high) && r >= POOL_SIZE
    ensures !Sets(l, r)
  {}

  lemma SkipSets(src: Source, i: nat, r: RegIndex)
    requires i < |src| && SkipBranch(src, i)
    ensures !Sets(src[i], r)
  {}

  lemma LoadSets(r: RegIndex, v: int, q: RegIndex)
    ensures Sets(LoadImm(r, v), q) <==> r == q
  {}

  lemma TailSets(r: RegIndex, x: int)
    ensures Sets(Ins(DEC, [Reg(12)]), r) <==> r == 12
    ensures !Sets(Ins(JRNZ, [Name(LOOP)]), r) && !Sets(Ins(JMPA, [Name(EXIT)]), r)
    ensures !Sets(LabelLine(EXIT), r) && !Sets(Line([HALT], Some(JR), [Name(HALT)]), r)
  {}

  /** R10 and R11 are set by the first two lines only, R13 by setup lines to 0xFF10 and by two lines of the ending. */
  lemma ShapeSets(src: Source, n0: nat, dec: nat, loops: int, x: int, high: bool, i: nat)
    requires Shape(src, n0, dec, loops, x, high) && i < |src|
    ensures Sets(src[i], 10) ==> i == 0
    ensures Sets(src[i], 11) ==> i == 1
    ensures Sets(src[i], 13) ==> SetsHigh(src[i]) || i == dec + 2 || i == dec + 4
  {
    hide Shape, Sets, Straight, Ins, LoadImm, Ending, SkipBranch, Reg, Name;
    ShapeLabels(src, n0, dec, loops, x, high);
    if i < n0 {
      SetupSets(src, n0, dec, loops, x, high, i);
    } else if i < dec {
      BodyLineAt(src, n0, dec, loops, x, high, i);
      if i == n0 || src[i].mnemonic.None? {
        NoLineSets(src[i]);
      } else if Straight(src[i], high) {
        StraightSets(src[i], high, 10);
        StraightSets(src[i], high, 11);
        StraightSets(src[i], high, 13);
      } else {
        SkipSets(src, i, 10);
        SkipSets(src, i, 11);
        SkipSets(src, i, 13);
      }
    } else {
      EndingLines(src, dec, x);
      LoadSets(13, x, 10);
      LoadSets(13, x, 11);
      LoadSets(13, 0xDEAD, 10);
      LoadSets(13, 0xDEAD, 11);
      TailSets(10, x);
      TailSets(11, x);
      TailSets(13, x);
    }
  }

  lemma NoLineSets(l: Line)
    ensures l.mnemonic.None? ==> forall r :: !Sets(l, r)
  {}

  lemma SetupSets(src: Source, n0: nat, dec: nat, loops: int, x: int, high: bool, i: nat)
    requires Shape(src, n0, dec, loops, x, high) && i < n0 && i < |src|
    ensures Sets(src[i], 10) ==> i == 0
    ensures Sets(src[i], 11) ==> i == 1
    ensures Sets(src[i], 13) ==> SetsHigh(src[i])
  {
    hide Sets, Straight, LoadImm, Ending, BodyLine, HighBefore, UniqueLabels;
    ShapeLabels(src, n0, dec, loops, x, high);
    var pre := src[..n0];
    assert src[i] == pre[i];
    if i < 3 {
      assert src[i] == OpeningLines(loops)[i];
      var v := if i == 0 then 0x0100 else if i == 1 then 0x0101 else loops;
      LoadSets(10 + i, v, 10);
      LoadSets(10 + i, v, 11);
      LoadSets(10 + i, v, 13);
    } else {
      assert SetupLine(pre, i);
      if SetsHigh(pre[i]) {
        LoadSets(13, 0xFF10, 10);
        LoadSets(13, 0xFF10, 11);
      } else {
        StraightSets(pre[i], HighBefore(pre, i), 10);
        StraightSets(pre[i], HighBefore(pre, i), 11);
        StraightSets(pre[i], HighBefore(pre, i), 13);
      }
    }
  }

  // ----- the run through the setup, and what it leaves in R10, R11 and R13 -----

  /** The line of the loop label. */
  function LoopLine(config: Config, c: Choices): nat
    requires Possible(c, config)
  {
    |SetupLines(config, c)|
  }

  /** The run is always at some instruction. */
  lemma AlwaysAtLine(config: Config, c: Choices, table: Table, m: nat) returns (i: nat)
    requires Possible(c, config) && Accepted(Program(config, c), table)
    ensures Reaches(config, c, table, m, i) && Program(config, c)[i].mnemonic.Some?
  {
    hide Possible, Program, Accepted, Start, Shape, Loaded, Address, Follow, ProgramSize, Step, DecLine, SetupLines,
         AtHalt;
    var src, n0, dec := Program(config, c), |SetupLines(config, c)|, DecLine(config, c);
    var s, high := Start(src, table), "mem_addr_high" in config.targetedBins;
    ProgramHasShape(config, c);
    var path := WholePath(src, table, n0, dec, c.loops, c.last, high);
    if m < |path| {
      AtPath(src, table, path, s, m);
      i := path[m];
      AtInstruction(src, table, i, Run(s, m));
    } else {
      HaltStays(s, |path|, m);
      EndingIsHalt(src, n0, dec, c.loops, c.last, high);
      i := dec + 6;
    }
  }

  /** The setup runs straight through: instruction k is line k. */
  lemma {:induction false} SetupIsStraight(config: Config, c: Choices, table: Table, k: nat)
    requires Possible(c, config) && Accepted(Program(config, c), table) && k <= LoopLine(config, c)
    ensures Reaches(config, c, table, k, k) && (k < LoopLine(config, c) ==> Program(config, c)[k].mnemonic.Some?)
  {
    hide Possible, Program, Accepted, Shape, After, Address, Perform, ProgramSize, DecLine, SetupLines;
    var src, n0, dec := Program(config, c), |SetupLines(config, c)|, DecLine(config, c);
    var high := "mem_addr_high" in config.targetedBins;
    ProgramHasShape(config, c);
    ShapeLabels(src, n0, dec, c.loops, c.last, high);
    if k == 0 {
      StartsAtLineZero(config, c, table);
    } else {
      SetupIsStraight(config, c, table, k - 1);
      RunsLine(config, c, table, k - 1, k - 1);
      SetupFalls(src, n0, dec, c.loops, c.last, high, k - 1, After(config, c, table, k - 1));
      ReachesNext(config, c, table, k - 1, k - 1);
    }
    if k < n0 {
      SetupHasMnemonics(src, n0, dec, c.loops, c.last, high, k);
    }
  }

  lemma StartsAtLineZero(config: Config, c: Choices, table: Table)
    requires Possible(c, config) && Accepted(Program(config, c), table)
    ensures After(config, c, table, 0) == Start(Program(config, c), table)
    ensures |Program(config, c)| > 0 ==> Reaches(config, c, table, 0, 0)
  {
    hide Possible, Program, Accepted;
  }

  lemma SetupHasMnemonics(src: Source, n0: nat, dec: nat, loops: int, x: int, high: bool, i: nat)
    requires Shape(src, n0, dec, loops, x, high) && i < n0
    ensures i < |src| && src[i].mnemonic.Some?
  {
    hide UniqueLabels, Straight, BodyLine, HighBefore, Ending;
    ShapeLabels(src, n0, dec, loops, x, high);
    var pre := src[..n0];
    assert src[i] == pre[i];
    if i < 3 {
      assert src[i] == OpeningLines(loops)[i];
    } else {
      assert SetupLine(pre, i);
      if !SetsHigh(pre[i]) {
        StraightHasMnemonic(pre[i], HighBefore(pre, i));
      }
    }
  }

  lemma OpeningAt(config: Config, c: Choices)
    requires Possible(c, config)
    ensures var src := Program(config, c);
            && LoopLine(config, c) >= 3 && |src| > LoopLine(config, c)
            && src[0] == LoadImm(10, 0x0100) && src[1] == LoadImm(11, 0x0101) && src[2] == LoadImm(12, c.loops)
  {
    hide TargetedSetup, PoolLines, HighSetup, BodyLines, LoadImm, Possible;
  }

  /** R10 and R11 point to the two data words from the third instruction on. */
  lemma {:induction false} PointersKept(config: Config, c: Choices, table: Table, m: nat)
    requires Possible(c, config) && Accepted(Program(config, c), table)
    ensures m >= 1 ==> After(config, c, table, m).regs[10] == 0x0100
    ensures m >= 2 ==> After(config, c, table, m).regs[11] == 0x0101
  {
    hide Possible, Program, Accepted, Shape, After, Address, Perform, ProgramSize, DecLine, SetupLines, Sets, LoadImm,
         Reaches;
    OpeningAt(config, c);
    if m == 0 {
    } else {
      var src, n0, dec := Program(config, c), |SetupLines(config, c)|, DecLine(config, c);
      var high := "mem_addr_high" in config.targetedBins;
      ProgramHasShape(config, c);
      PointersKept(config, c, table, m - 1);
      var i := AlwaysAtLine(config, c, table, m - 1);
      var s := After(config, c, table, m - 1);
      ReachesInside(config, c, table, m - 1, i);
      if m <= 2 {
        SetupIsStraight(config, c, table, m - 1);
        SameLine(config, c, table, m - 1, m - 1, i);
      }
      RunsLine(config, c, table, m - 1, i);
      ShapeSets(src, n0, dec, c.loops, c.last, high, i);
      if i == 0 {
        LoadLine(src, 0, s, 10, 0x0100);
      } else if i == 1 {
        LoadLine(src, 1, s, 11, 0x0101);
      }
      if !Sets(src[i], 10) {
        LineKeeps(src, i, s, 10);
      }
      if !Sets(src[i], 11) {
        LineKeeps(src, i, s, 11);
      }
    }
  }

  lemma ReachesInside(config: Config, c: Choices, table: Table, m: nat, i: nat)
    requires Possible(c, config) && Accepted(Program(config, c), table) && Reaches(config, c, table, m, i)
    ensures i < |Program(config, c)|
  {}

  /** A run stands at one instruction only. */
  lemma SameLine(config: Config, c: Choices, table: Table, m: nat, l: nat, i: nat)
    requires Possible(c, config) && Accepted(Program(config, c), table)
    requires Reaches(config, c, table, m, l) && Reaches(config, c, table, m, i)
    requires var src := Program(config, c);
             l < |src| && i < |src| && src[l].mnemonic.Some? && src[i].mnemonic.Some?
    ensures l == i
  {
    hide Possible, Program, After, Address, Accepted;
    assert Sized(Program(config, c)) by { AcceptedIsSized(Program(config, c), table); }
    InstructionsApart(Program(config, c), l, i);
  }

  /** At the loop label the setup is done. */
  lemma LoopIsReady(config: Config, c: Choices, table: Table)
    requires Possible(c, config) && Accepted(Program(config, c), table)
    ensures var t := After(config, c, table, LoopLine(config, c));
            && Ready(t, "mem_addr_high" in config.targetedBins) && t.regs[12] == Wrap(c.loops)
  {
    hide Possible, Program, Accepted, Start, Address, Follow, ProgramSize, DecLine, SetupLines, Loaded, Step, Supported,
         Current, Setup, HighBefore, BodyLine, Ending, UniqueLabels;
    var src, n0, dec := Program(config, c), |SetupLines(config, c)|, DecLine(config, c);
    var s, high := Start(src, table), "mem_addr_high" in config.targetedBins;
    ProgramHasShape(config, c);
    ShapeLabels(src, n0, dec, c.loops, c.last, high);
    var whole := WholePath(src, table, n0, dec, c.loops, c.last, high);
    var path := SetupRuns(src, n0, c.loops, n0, s);
    ProgramMeans(src, table, path, s);
  }

  /** Until the ending sets it, R13 keeps the high address. */
  lemma {:induction false} HighKept(config: Config, c: Choices, table: Table, m: nat)
    requires Possible(c, config) && Accepted(Program(config, c), table)
    requires "mem_addr_high" in config.targetedBins && m >= LoopLine(config, c)
    ensures var src, dec, t := Program(config, c), DecLine(config, c), After(config, c, table, m);
            && Sized(src) && dec + 6 < |src| && (t.pc <= Address(src, dec + 2) ==> t.regs[13] == 0xFF10)
  {
    hide Possible, Program, Accepted, Shape, After, Address, Perform, ProgramSize, DecLine, SetupLines, Sets, LoadImm,
         Reaches, Ready;
    var src, n0, dec := Program(config, c), |SetupLines(config, c)|, DecLine(config, c);
    var high := "mem_addr_high" in config.targetedBins;
    ProgramHasShape(config, c);
    ShapeLabels(src, n0, dec, c.loops, c.last, high);
    assert Sized(src) by { AcceptedIsSized(src, table); }
    if m == n0 {
      LoopIsReady(config, c, table);
      assert After(config, c, table, m).regs[13] == 0xFF10 by { ReadyMeans(After(config, c, table, m)); }
    } else {
      HighKept(config, c, table, m - 1);
      var i := AlwaysAtLine(config, c, table, m - 1);
      ReachesInside(config, c, table, m - 1, i);
      RunsLine(config, c, table, m - 1, i);
      ReachesAddress(config, c, table, m - 1, i);
      HighStep(src, n0, dec, c.loops, c.last, i, After(config, c, table, m - 1));
    }
  }

  lemma ReadyMeans(s: Arch)
    requires Ready(s, true)
    ensures s.regs[13] == 0xFF10
  {}

  lemma HighStep(src: Source, n0: nat, dec: nat, loops: int, x: int, i: nat, s: Arch)
    requires Sized(src) && ProgramSize(src) <= 0x100 && Shape(src, n0, dec, loops, x, true) && dec + 6 < |src|
    requires i < |src| && src[i].mnemonic.Some? && s.pc == Address(src, i) && Perform(src, i, s).Some?
    requires s.pc <= Address(src, dec + 2) ==> s.regs[13] == 0xFF10
    ensures var t := Perform(src, i, s).value; t.pc <= Address(src, dec + 2) ==> t.regs[13] == 0xFF10
  {
    hide Address, Perform, Shape, ProgramSize, Sets, Ins, Reg, Name, Ending, UniqueLabels, LoadImm, Defines;
    ShapeLabels(src, n0, dec, loops, x, true);
    ShapeSets(src, n0, dec, loops, x, true, i);
    EndingLines(src, dec, x);
    EndingSize(src, dec, x);
    NextAddress(src, i);
    if i <= dec + 1 {
      AddressesRise(src, i, dec + 2);
      if SetsHigh(src[i]) {
        LoadLine(src, i, s, 13, 0xFF10);
      } else {
        LineKeeps(src, i, s, 13);
      }
    } else {
      EndingStaysAbove(src, n0, dec, x, i, s);
    }
  }

  /** From the first setting of R13 in the ending, the run does not come back. */
  lemma EndingStaysAbove(src: Source, n0: nat, dec: nat, x: int, i: nat, s: Arch)
    requires Sized(src) && ProgramSize(src) <= 0x100 && UniqueLabels(src) && Ending(src, dec, x) && dec + 6 < |src|
    requires dec + 2 <= i < |src| && src[i].mnemonic.Some? && s.pc == Address(src, i) && Perform(src, i, s).Some?
    ensures Perform(src, i, s).value.pc > Address(src, dec + 2)
  {
    hide Address, Perform, ProgramSize, Ins, Reg, Name, Ending, UniqueLabels, LoadImm, Defines, IsBranch;
    EndingLines(src, dec, x);
    EndingSize(src, dec, x);
    EndingDefines(src[dec + 5], src[dec + 6]);
    NextAddress(src, i);
    if i == dec + 2 || i == dec + 4 {
      LoadLine(src, i, s, 13, if i == dec + 2 then x else 0xDEAD);
    } else if i == dec + 3 {
      EndingJumps();
      JumpIsNoBranch();
      JumpEnds(src, i, s, EXIT, dec + 5);
    } else {
      JumpEnds(src, i, s, HALT, i);
    }
  }

  /** A jump ends at its label or right after itself. */
  lemma JumpEnds(src: Source, i: nat, s: Arch, name: string, l: nat)
    requires Sized(src) && ProgramSize(src) <= 0x100 && UniqueLabels(src) && i < |src| && l < |src|
    requires src[i].operands == [Name(name)] && Perform(src, i, s).Some? && Defines(src[l], name)
    requires IsBranch(src[i]) || src[i].mnemonic == Some(JMPA)
    ensures var t := Perform(src, i, s).value;
            (IsBranch(src[i]) && t.pc == Wrap(s.pc + 1)) || t.pc == Address(src, l)
  {
    hide Address, Perform, ProgramSize, Name, UniqueLabels, Defines, IsBranch, Denotes;
    DenotesUnique(src, i, l, name);
    JumpGoes(src, i, s, name);
    NextAddress(src, l);
  }

  lemma JumpIsNoBranch()
    ensures !IsBranch(Ins(JMPA, [Name(EXIT)]))
  {}

  /** Whenever the loop body is executed, the store addresses are in place. */
  lemma ReadyInBody(config: Config, c: Choices, table: Table, m: nat, i: nat)
    requires Possible(c, config) && Accepted(Program(config, c), table) && Reaches(config, c, table, m, i)
    requires LoopLine(config, c) < i <= DecLine(config, c) && Program(config, c)[i].mnemonic.Some?
    ensures Ready(After(config, c, table, m), "mem_addr_high" in config.targetedBins)
  {
    hide Possible, Program, Accepted, Shape, After, Address, Perform, ProgramSize, DecLine, SetupLines, Sets, LoadImm,
         Reaches;
    var src, n0, dec := Program(config, c), |SetupLines(config, c)|, DecLine(config, c);
    var high := "mem_addr_high" in config.targetedBins;
    ProgramHasShape(config, c);
    OpeningAt(config, c);
    ReachesInside(config, c, table, m, i);
    if m < n0 {
      SetupIsStraight(config, c, table, m);
      SameLine(config, c, table, m, m, i);
    }
    PointersKept(config, c, table, m);
    if high {
      HighKept(config, c, table, m);
      AddressesRise(src, i, dec + 2);
      ReachesAddress(config, c, table, m, i);
    }
  }

  lemma ReachesAddress(config: Config, c: Choices, table: Table, m: nat, i: nat)
    requires Possible(c, config) && Accepted(Program(config, c), table) && Reaches(config, c, table, m, i)
    ensures var src := Program(config, c);
            Sized(src) && i < |src| && After(config, c, table, m).pc == Address(src, i)
  {
    hide Possible, Program, Address;
  }

  // ----- memory operations -----

  function WithWord(s: Arch, a: Word, x: Word): Arch {
    s.(mem := s.mem[a := x])
  }

  lemma OperationIsReady(config: Config, c: Choices, table: Table, m: nat, j: nat)
    requires Possible(c, config) && Accepted(Program(config, c), table) && j < |c.operations|
    requires Reaches(config, c, table, m, OperationLine(config, c, j))
    requires var ls := OperationLines(j, config.targetedBins, c.operations[j]); ls != [] && ls[0].mnemonic.Some?
    ensures Ready(After(config, c, table, m), "mem_addr_high" in config.targetedBins)
  {
    hide Possible, Program, Accepted, After, Reaches, OperationLines, Ready, SetupLines;
    LineOf(config, c, j, 0);
    OperationsEnd(config, c, j);
    OperationAfterLoop(config, c, j);
    ReadyInBody(config, c, table, m, OperationLine(config, c, j));
  }

  lemma OperationAfterLoop(config: Config, c: Choices, j: nat)
    requires Possible(c, config) && j < |c.operations|
    ensures OperationLine(config, c, j) > LoopLine(config, c)
  {
    hide Possible, SetupLines, BodyLines;
  }

  lemma MemoryChoice(config: Config, c: Choices, j: nat)
    requires Possible(c, config) && j < |c.operations| && (c.operations[j].Store? || c.operations[j].Load?)
    ensures var o, high := c.operations[j], "mem_addr_high" in config.targetedBins;
            && o.address in {10, 11, 13} && (o.address == 13 ==> high)
            && OperationLines(j, config.targetedBins, o)
               == [if o.Store? then Ins(STRR, [Reg(o.address), Reg(o.data)])
                   else Ins(LDRR, [Reg(o.dst), Reg(o.address)])]
  {
    hide LoadImm, Reg;
    assert Allowed(c.operations[j], config.targetedBins);
  }

  /** A store writes the chosen register to the word at 0x0100, 0x0101 or 0xFF10, and nothing else. */
  lemma StoreRuns(config: Config, c: Choices, table: Table, m: nat, j: nat)
    requires Possible(c, config) && Accepted(Program(config, c), table) && j < |c.operations|
    requires Reaches(config, c, table, m, OperationLine(config, c, j)) && c.operations[j].Store?
    ensures var o, s := c.operations[j], After(config, c, table, m);
            && o.address in {10, 11, 13} && Reaches(config, c, table, m + 1, OperationLine(config, c, j + 1))
            && var a := if o.address == 10 then 0x0100 else if o.address == 11 then 0x0101 else 0xFF10;
               After(config, c, table, m + 1) == WithWord(Skip(s), a, s.regs[o.data])
  {
    hide Possible, Program, Accepted, After, Reaches, Reg, OperationLine, OperationLines;
    var o := c.operations[j];
    MemoryChoice(config, c, j);
    OneLine(config, c, j, Ins(STRR, [Reg(o.address), Reg(o.data)]));
    OperationIsReady(config, c, table, m, j);
    RunsStore(config, c, table, m, OperationLine(config, c, j), o.address, o.data);
  }

  /** A load reads the chosen register from one of these words, and changes nothing else. */
  lemma LoadRuns(config: Config, c: Choices, table: Table, m: nat, j: nat)
    requires Possible(c, config) && Accepted(Program(config, c), table) && j < |c.operations|
    requires Reaches(config, c, table, m, OperationLine(config, c, j)) && c.operations[j].Load?
    ensures var o, s := c.operations[j], After(config, c, table, m);
            && o.address in {10, 11, 13} && Reaches(config, c, table, m + 1, OperationLine(config, c, j + 1))
            && var a := if o.address == 10 then 0x0100 else if o.address == 11 then 0x0101 else 0xFF10;
               After(config, c, table, m + 1) == Skip(s).(regs := s.regs[o.dst := s.mem[a]])
  {
    hide Possible, Program, Accepted, After, Reaches, Reg, OperationLine, OperationLines;
    var o := c.operations[j];
    MemoryChoice(config, c, j);
    OneLine(config, c, j, Ins(LDRR, [Reg(o.dst), Reg(o.address)]));
    OperationIsReady(config, c, table, m, j);
    RunsFetch(config, c, table, m, OperationLine(config, c, j), o.dst, o.address);
  }

  // ----- blocks -----

  /** Whatever happens, memory holds the program. */
  lemma AlwaysLoaded(config: Config, c: Choices, table: Table, m: nat)
    requires Possible(c, config) && Accepted(Program(config, c), table)
    ensures Loaded(Program(config, c), table, After(config, c, table, m).mem)
  {
    hide Possible, Program, Accepted, Start, Loaded, FirstHalt;
    var k := GeneratedProgramsHalt(config, c, table);
  }

  /**
   * A block goes on to the next operation: over the change of the carry flag when its branch is taken, which
   * `Taken` tells from the registers at its entry, and through it otherwise.
   */
  lemma BlockRunsOn(config: Config, c: Choices, table: Table, m: nat, j: nat) returns (n: nat)
    requires Possible(c, config) && Accepted(Program(config, c), table) && j < |c.operations|
    requires Reaches(config, c, table, m, OperationLine(config, c, j)) && c.operations[j].FlagBranch?
    ensures var bins, o := config.targetedBins, c.operations[j];
            var taken := Taken(bins, o, After(config, c, table, m).regs);
            && n == |FlagSetup(bins, o.dst, o.src)| + (if taken then 1 else 2)
            && Reaches(config, c, table, m + n, OperationLine(config, c, j + 1))
            && After(config, c, table, m + n).regs == BlockRegs(bins, After(config, c, table, m).regs)
            && After(config, c, table, m + n).mem == After(config, c, table, m).mem
            && (!taken ==> After(config, c, table, m + n).flags.c == if o.carry then 0 else 1)
  {
    hide Possible, Program, Accepted, Shape, Loaded, Address, Follow, ProgramSize, Step, DecLine, SetupLines,
         OperationAt, OperationLine, OperationLines, FlagSetup, Taken, UniqueLabels, Allowed, Supported, Current, Start,
         BlockRegs;
    var src, bins, o := Program(config, c), config.targetedBins, c.operations[j];
    var k, high, s := OperationLine(config, c, j), "mem_addr_high" in bins, After(config, c, table, m);
    assert Allowed(o, bins) by { ChoiceIsAllowed(config, c, j); }
    ProgramHasShape(config, c);
    ShapeLabels(src, |SetupLines(config, c)|, DecLine(config, c), c.loops, c.last, high);
    ProgramIsShort(src, table, |SetupLines(config, c)|, DecLine(config, c), c.loops, c.last, high);
    OperationStandsInProgram(config, c, j);
    OperationsEnd(config, c, j);
    AlwaysLoaded(config, c, table, m);
    assert Sized(src) by { AcceptedIsSized(src, table); }
    var path := BlockRuns(src, k, j, bins, o, s);
    ProgramMeans(src, table, path, s);
    n := |path|;
    RunAdd(Start(src, table), m, n);
    BlockEnds(src, k, j, bins, o);
    OperationsEnd(config, c, j + 1);
  }

  lemma ChoiceIsAllowed(config: Config, c: Choices, j: nat)
    requires Possible(c, config) && j < |c.operations|
    ensures Allowed(c.operations[j], config.targetedBins)
  {}

  lemma BlockEnds(src: Source, k: nat, j: nat, bins: set<string>, o: Operation)
    requires Sized(src) && ProgramSize(src) <= 0x100 && o.FlagBranch? && Allowed(o, bins)
    requires OperationAt(src, k, j, bins, o)
    ensures var end := k + |FlagSetup(bins, o.dst, o.src)| + 2;
            && |OperationLines(j, bins, o)| == end + 1 - k && end < |src| && Address(src, end + 1) == Address(src, end)
  {
    hide Address, ProgramSize, FlagSetup, OperationAt, OperationLines, SkipBranch, SetupAt, Allowed;
    var end := k + |FlagSetup(bins, o.dst, o.src)| + 2;
    BlockLines(src, k, j, bins, o);
    BlockLength(j, bins, o);
    assert src[end].mnemonic.None? by { SkipsToLabel(src, end - 2); }
    NextAddress(src, end);
  }

  lemma BlockLength(j: nat, bins: set<string>, o: Operation)
    requires o.FlagBranch?
    ensures |OperationLines(j, bins, o)| == |FlagSetup(bins, o.dst, o.src)| + 3
  {
    hide FlagSetup, SkipLabel;
  }

  lemma SkipsToLabel(src: Source, b: nat)
    requires b < |src| && SkipBranch(src, b)
    ensures b + 2 < |src| && src[b + 2].mnemonic.None?
  {}
}
