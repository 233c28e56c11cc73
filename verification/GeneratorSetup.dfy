/** The state in which a generated program enters its loop, and the one in which it halts. */
module GeneratorSetup {
  import opened Words
  import opened Isa
  import opened Assembler
  import opened SourceMachine
  import opened Generator
  import opened GeneratorHalts
  import opened GeneratorOperations

  // ----- where the setup lines stand -----

  /** The first line of the pool. */
  function PoolStart(config: Config, c: Choices): nat
    requires Possible(c, config)
  {
    3 + |TargetedSetup(config.targetedBins)|
  }

  /** The line that loads register q; for q == POOL_SIZE, the line after the pool. */
  function PoolLine(config: Config, c: Choices, q: nat): nat
    requires Possible(c, config) && q <= POOL_SIZE
  {
    PoolStart(config, c) + |PoolLines(config.targetedBins, c.biases[..q])|
  }

  lemma {:induction false} PoolGrows(bins: set<string>, biases: seq<int>, q: nat)
    requires q <= |biases| <= POOL_SIZE
    ensures PoolLines(bins, biases[..q]) <= PoolLines(bins, biases)
    decreases |biases| - q
  {
    hide PoolImm, PoolStore, LoadImm;
    if q == |biases| {
      assert biases[..q] == biases;
    } else {
      PoolGrows(bins, biases, q + 1);
      PoolNext(bins, biases[..q], biases[q]);
      assert biases[..q] + [biases[q]] == biases[..q + 1];
    }
  }

  lemma PoolLineIs(config: Config, c: Choices, q: nat)
    requires Possible(c, config) && q < POOL_SIZE
    ensures var src, k := Program(config, c), PoolLine(config, c, q);
            && PoolLine(config, c, q + 1) == k + 1 + |PoolStore(q)| <= LoopLine(config, c) < |src|
            && src[k] == LoadImm(q, PoolImm(config.targetedBins, q, c.biases[q]))
            && (PoolStore(q) != [] ==> src[k + 1] == PoolStore(q)[0])
  {
    hide Possible, TargetedSetup, HighSetup, BodyLines, Tail, LoadImm, PoolImm, PoolStore, PoolLines;
    assert |c.biases| == POOL_SIZE by { PossibleBiases(config, c); }
    var bins := config.targetedBins;
    var pool := PoolLines(bins, c.biases);
    PoolGrows(bins, c.biases, q + 1);
    PoolNext(bins, c.biases[..q], c.biases[q]);
    assert c.biases[..q] + [c.biases[q]] == c.biases[..q + 1];
    var before := OpeningLines(c.loops) + TargetedSetup(bins);
    var after := HighSetup(bins) + [LabelLine(LOOP)] + BodyLines(bins, c.operations) + Tail(c.last);
    assert Program(config, c) == before + pool + after;
    assert |before| == PoolStart(config, c);
  }

  lemma PossibleBiases(config: Config, c: Choices)
    requires Possible(c, config)
    ensures |c.biases| == POOL_SIZE && forall q :: 0 <= q < POOL_SIZE ==> 0 <= c.biases[q] <= 0xFFFF
    ensures 2 <= c.loops && 0 <= c.last <= 0xFFFF
  {}

  lemma HighLines(config: Config, c: Choices)
    requires Possible(c, config)
    ensures var src, k := Program(config, c), PoolLine(config, c, POOL_SIZE);
            if "mem_addr_high" in config.targetedBins then
              && k + 3 == LoopLine(config, c) < |src|
              && src[k] == LoadImm(13, 0xFF10) && src[k + 1] == Ins(STRR, [Reg(13), Reg(3)])
              && src[k + 2] == Ins(LDRR, [Reg(4), Reg(13)])
            else k == LoopLine(config, c)
  {
    hide TargetedSetup, BodyLines, Tail, LoadImm, Ins, PoolLines, Reg, Allowed;
    assert c.biases[..POOL_SIZE] == c.biases;
    var bins := config.targetedBins;
    var before := OpeningLines(c.loops) + TargetedSetup(bins) + PoolLines(bins, c.biases);
    var after := [LabelLine(LOOP)] + BodyLines(bins, c.operations) + Tail(c.last);
    assert Program(config, c) == before + HighSetup(bins) + after;
  }

  lemma TargetedLines(config: Config, c: Choices, k: nat)
    requires Possible(c, config) && 3 <= k < PoolStart(config, c)
    ensures var src, bins := Program(config, c), config.targetedBins;
            && k < LoopLine(config, c) < |src|
            && (TargetsMemory(bins) && k == PoolStart(config, c) - 1 ==> src[k] == LoadImm(13, 0xFF10))
            && (!(TargetsMemory(bins) && k == PoolStart(config, c) - 1) ==>
                  src[k] == LoadImm(0, 0x0000) || src[k] == LoadImm(9, 0x8001))
  {
    hide TargetsAny, TargetsMemory, HighSetup, BodyLines, Tail, LoadImm, PoolLines, Possible;
    PossibleBiases(config, c);
    var bins := config.targetedBins;
    var after := PoolLines(bins, c.biases) + HighSetup(bins) + [LabelLine(LOOP)] + BodyLines(bins, c.operations)
                 + Tail(c.last);
    assert Program(config, c) == OpeningLines(c.loops) + TargetedSetup(bins) + after;
    assert Program(config, c)[k] == TargetedSetup(bins)[k - 3];
  }

  // ----- running it -----

  /** R13 before the pool: the high address iff some memory target asks for it. */
  lemma {:induction false} HighBeforePool(config: Config, c: Choices, table: Table, k: nat)
    requires Possible(c, config) && Accepted(Program(config, c), table) && 3 <= k <= PoolStart(config, c)
    ensures After(config, c, table, k).regs[13]
         == if TargetsMemory(config.targetedBins) && k == PoolStart(config, c) then 0xFF10 else 0
  {
    hide Possible, Program, Accepted, After, Perform, LoadImm, PoolStart, TargetsMemory, Reaches, LoopLine;
    OpeningAt(config, c);
    if k == 3 {
      OpeningState(config, c, table);
      NoTargets(config, c);
    } else {
      TargetedLines(config, c, k - 1);
      HighBeforePool(config, c, table, k - 1);
      SetupIsStraight(config, c, table, k - 1);
      var l := Program(config, c)[k - 1];
      if l == LoadImm(13, 0xFF10) && TargetsMemory(config.targetedBins) && k == PoolStart(config, c) {
        RunsLoad(config, c, table, k - 1, k - 1, 13, 0xFF10);
      } else if l == LoadImm(0, 0x0000) {
        RunsLoad(config, c, table, k - 1, k - 1, 0, 0x0000);
      } else {
        RunsLoad(config, c, table, k - 1, k - 1, 9, 0x8001);
      }
    }
  }

  lemma NoTargets(config: Config, c: Choices)
    requires Possible(c, config)
    ensures PoolStart(config, c) == 3 ==> !TargetsMemory(config.targetedBins)
  {
    hide TargetsAny, TargetsMemory, Possible;
  }

  lemma OpeningState(config: Config, c: Choices, table: Table)
    requires Possible(c, config) && Accepted(Program(config, c), table)
    ensures After(config, c, table, 3).regs[12] == Wrap(c.loops) && After(config, c, table, 3).regs[13] == 0
  {
    hide Possible, Program, Accepted, After, Perform, LoadImm, Reaches, LoopLine;
    OpeningAt(config, c);
    StartsAtLineZero(config, c, table);
    SetupIsStraight(config, c, table, 0);
    SetupIsStraight(config, c, table, 1);
    SetupIsStraight(config, c, table, 2);
    RunsLoad(config, c, table, 0, 0, 10, 0x0100);
    RunsLoad(config, c, table, 1, 1, 11, 0x0101);
    RunsLoad(config, c, table, 2, 2, 12, c.loops);
    InitIsZero(ImageMem(Code(Program(config, c), table, |Program(config, c)|)), 13);
  }

  /** The first q registers of the pool and the data words, after the lines that load them. */
  predicate PoolLoaded(bins: set<string>, biases: seq<int>, q: nat, t: Arch)
    requires q <= POOL_SIZE == |biases|
  {
    && (forall r: RegIndex :: r < q ==> t.regs[r] == PoolImm(bins, r, biases[r]))
    && (q >= 2 ==> t.mem[0x0100] == PoolImm(bins, 1, biases[1]))
    && (q >= 3 ==> t.mem[0x0101] == PoolImm(bins, 2, biases[2]))
  }

  lemma PoolValue(bins: set<string>, idx: nat, bias: int)
    requires 0 <= bias <= 0xFFFF
    ensures 0 <= PoolImm(bins, idx, bias) <= 0xFFFF && Wrap(PoolImm(bins, idx, bias)) == PoolImm(bins, idx, bias)
  {}

  lemma {:induction false} PoolRuns(config: Config, c: Choices, table: Table, q: nat)
    requires Possible(c, config) && Accepted(Program(config, c), table) && q <= POOL_SIZE
    ensures |c.biases| == POOL_SIZE
    ensures var t := After(config, c, table, PoolLine(config, c, q));
            && PoolLoaded(config.targetedBins, c.biases, q, t)
            && t.regs[13] == if TargetsMemory(config.targetedBins) then 0xFF10 else 0
  {
    hide Possible, Program, Accepted, After, Perform, LoadImm, PoolStart, TargetsMemory, Reaches, LoopLine, PoolLines,
         PoolImm, Reg, Ins;
    PossibleBiases(config, c);
    if q == 0 {
      PoolIsEmpty(config, c);
      HighBeforePool(config, c, table, PoolStart(config, c));
    } else {
      var k := PoolLine(config, c, q - 1);
      var imm := PoolImm(config.targetedBins, q - 1, c.biases[q - 1]);
      PoolRuns(config, c, table, q - 1);
      PoolLineIs(config, c, q - 1);
      SetupIsStraight(config, c, table, k);
      PoolValue(config.targetedBins, q - 1, c.biases[q - 1]);
      RunsLoad(config, c, table, k, k, q - 1, imm);
      PoolAfterOpening(config, c, q - 1);
      PointersKept(config, c, table, k + 1);
      if q == 2 {
        RunsStore(config, c, table, k + 1, k + 1, 10, 1);
      } else if q == 3 {
        RunsStore(config, c, table, k + 1, k + 1, 11, 2);
      }
    }
  }

  lemma PoolIsEmpty(config: Config, c: Choices)
    requires Possible(c, config)
    ensures PoolLine(config, c, 0) == PoolStart(config, c) >= 3
  {
    hide Possible, TargetedSetup;
  }

  lemma PoolAfterOpening(config: Config, c: Choices, q: nat)
    requires Possible(c, config) && q <= POOL_SIZE
    ensures PoolLine(config, c, q) >= 3
  {
    hide Possible, TargetedSetup, PoolLines;
  }

  /**
   * The loop is entered with its count in R12, the store addresses in R10, R11 and R13, every register of the pool at
   * the value chosen or targeted for it, and the data words stored.
   */
  lemma LoopEntry(config: Config, c: Choices, table: Table)
    requires Possible(c, config) && Accepted(Program(config, c), table)
    ensures |c.biases| == 10
    ensures var t, bins := After(config, c, table, LoopLine(config, c)), config.targetedBins;
            && Reaches(config, c, table, LoopLine(config, c), LoopLine(config, c))
            && t.regs[10] == 0x0100 && t.regs[11] == 0x0101 && t.regs[12] == c.loops % 0x1_0000
            && t.regs[13] == (if exists name :: name in bins && "mem_" <= name then 0xFF10 else 0)
            && (forall r: RegIndex :: r < 10 ==>
                  t.regs[r] == if r == 0 && "mvrd_imm_zero" in bins then 0
                               else if r == 9 && "mvrd_imm_high" in bins then 0xF123
                               else if r == 4 && "mem_addr_high" in bins then c.biases[3]
                               else c.biases[r])
            && t.mem[0x0100] == c.biases[1] && t.mem[0x0101] == c.biases[2]
            && ("mem_addr_high" in bins ==> t.mem[0xFF10] == c.biases[3])
  {
    hide Possible, Program, Accepted, After, Perform, LoadImm, Reaches, LoopLine, PoolLine, Ready, Reg, Ins;
    var bins, k, n0 := config.targetedBins, PoolLine(config, c, POOL_SIZE), LoopLine(config, c);
    PossibleBiases(config, c);
    MemoryTargets(bins);
    PoolRuns(config, c, table, POOL_SIZE);
    HighLines(config, c);
    OpeningAt(config, c);
    SetupIsStraight(config, c, table, n0);
    PointersKept(config, c, table, n0);
    LoopIsReady(config, c, table);
    if "mem_addr_high" in bins {
      SetupIsStraight(config, c, table, k);
      RunsLoad(config, c, table, k, k, 13, 0xFF10);
      RunsStore(config, c, table, k + 1, k + 1, 13, 3);
      RunsFetch(config, c, table, k + 2, k + 2, 4, 13);
    }
  }

  /** The prefix mem_addr_high adds nothing to the prefix mem_. */
  lemma MemoryTargets(bins: set<string>)
    ensures TargetsMemory(bins) <==> exists name :: name in bins && "mem_" <= name
    ensures "mem_addr_high" in bins ==> TargetsMemory(bins)
  {
    if TargetsMemory(bins) {
      var name :| name in bins && (StartsWith(name, "mem_addr_high") || StartsWith(name, "mem_"));
      assert name[..4] == "mem_";
    }
    if name :| name in bins && "mem_" <= name {
      assert StartsWith(name, "mem_");
    }
    if "mem_addr_high" in bins {
      assert StartsWith("mem_addr_high", "mem_");
    }
  }

  // ----- the lines that targets add, and the choices that are possible -----

  /** Which lines the targets add before the pool, in this order. */
  lemma TargetedExactly(bins: set<string>)
    ensures var ls := TargetedSetup(bins);
            && (LoadImm(0, 0x0000) in ls <==> "mvrd_imm_zero" in bins || "test_zero" in bins || "cmp_zero" in bins)
            && (LoadImm(9, 0x8001) in ls <==>
                  "mvrd_imm_high" in bins || "add_overflow" in bins || "shl_sets_carry" in bins)
            && (LoadImm(13, 0xFF10) in ls <==> exists name :: name in bins && "mem_" <= name)
  {
    MemoryTargets(bins);
    hide TargetsMemory, LoadImm;
    LoadsDiffer();
  }

  /** They are nothing but a part of these three lines. */
  lemma TargetedInOrder(bins: set<string>)
    ensures var ls, l0, l9, l13 := TargetedSetup(bins), LoadImm(0, 0x0000), LoadImm(9, 0x8001), LoadImm(13, 0xFF10);
            || ls == [] || ls == [l0] || ls == [l9] || ls == [l13]
            || ls == [l0, l9] || ls == [l0, l13] || ls == [l9, l13] || ls == [l0, l9, l13]
  {
    hide TargetsAny, TargetsMemory, LoadImm;
  }

  lemma LoadsDiffer()
    ensures LoadImm(0, 0) != LoadImm(9, 0x8001) && LoadImm(9, 0x8001) != LoadImm(13, 0xFF10)
    ensures LoadImm(0, 0) != LoadImm(13, 0xFF10)
  {}

  function SomeChoices(config: Config, loops: int, o: Operation): Choices {
    Choices(loops, seq(POOL_SIZE, _ => 0), seq(BodyCount(config), _ => o), 0)
  }

  /** The values that R12 may be loaded with. */
  lemma LoopCounts(config: Config, loops: int)
    ensures (exists c :: Possible(c, config) && c.loops == loops) <==>
            2 <= loops <= if config.maxLoopDepth >= 0 then config.maxLoopDepth + 2 else 2
  {
    hide Allowed;
    var c := SomeChoices(config, loops, FlagBranch(0, 1, JRZ, false));
    assert Allowed(FlagBranch(0, 1, JRZ, false), config.targetedBins) by { BlockIsAllowed(config.targetedBins); }
    assert 2 <= loops <= LoopMaximum(config) ==> Possible(c, config);
  }

  lemma BlockIsAllowed(bins: set<string>)
    ensures Allowed(FlagBranch(0, 1, JRZ, false), bins)
  {}

  predicate Chosen(c: Choices, o: Operation) {
    exists k :: 0 <= k < |c.operations| && c.operations[k] == o
  }

  /** The operations that a program with a body may have. */
  lemma OperationsPossible(config: Config, o: Operation)
    requires config.bodyOps > 0
    ensures (exists c :: Possible(c, config) && Chosen(c, o)) <==>
            match o
            case Arith(op, dst, src) =>
              op in {ADD, SUB, AND, XOR, OR, ADC, SBB, CMP, TEST, MVRR} && dst <= 9 && src <= 9
            case Unary(op, dst) => op in {DEC, INC, SHL, SHR} && dst <= 9
            case Store(a, data) =>
              data <= 9 && (a == 10 || a == 11 || (a == 13 && "mem_addr_high" in config.targetedBins))
            case Load(dst, a) =>
              dst <= 9 && (a == 10 || a == 11 || (a == 13 && "mem_addr_high" in config.targetedBins))
            case FlagBranch(dst, src, branch, _) =>
              dst <= 9 && src <= 9 && branch in {JRZ, JRNZ, JRC, JRNC, JRS, JRNS}
  {
    var c := SomeChoices(config, 2, o);
    assert c.operations[0] == o;
    if Allowed(o, config.targetedBins) {
      assert Possible(c, config) && Chosen(c, o);
    }
  }
}
