/**
 * Which generated programs the assembler accepts: exactly those whose loop fits the backward branch, and so, whatever
 * the choices, exactly up to 18, 41 or 42 operations, depending on the targets.
 */
module GeneratorAccepts {
  import opened Words
  import opened Results
  import opened Assembler
  import opened SourceMachine
  import opened AssemblerCorrect
  import opened Encoding
  import opened Generator
  import opened GeneratorShape
  import opened GeneratorHalts
  import Lockstep

  // ----- single lines -----

  predicate Encodes(line: Line, address: nat, table: Table) {
    InstructionSize(line.mnemonic).Ok? && EncodeLine(line, address, table).Ok?
  }

  lemma StraightEncodes(line: Line, high: bool, address: nat, table: Table)
    requires Straight(line, high)
    ensures Encodes(line, address, table)
  {
    hide Fields;
  }

  lemma LoadEncodes(r: RegIndex, v: int, address: nat, table: Table)
    ensures Encodes(LoadImm(r, v), address, table)
  {
    hide Fields;
  }

  lemma LabelEncodes(name: string, address: nat, table: Table)
    ensures Encodes(LabelLine(name), address, table)
  {}

  /** A relative branch encodes iff its target resolves to an address within reach. */
  lemma BranchEncodesInReach(line: Line, address: nat, table: Table)
    requires line.mnemonic.Some? && SingleBranch(line.mnemonic.value).Some? && |line.operands| == 1
    ensures var target := ResolveTarget(line.operands[0], address, table);
            Encodes(line, address, table) <==> target.Ok? && -128 <= target.value - address - 1 <= 127
  {
    hide ResolveTarget;
  }

  lemma UniqueResolves(src: Source, table: Table, i: nat, k: nat, name: string)
    requires Sized(src) && IsTable(src, table) && UniqueLabels(src)
    requires i < |src| && SizeAt(src, i) > 0 && k < |src| && Defines(src[k], name)
    ensures ResolveTarget(Name(name), Address(src, i), table) == Ok(Address(src, k))
  {
    hide UniqueLabels, IsTable, Address, ResolveTarget;
    DenotesUnique(src, i, k, name);
    ResolutionFollowsSource(src, table, i, Name(name));
  }

  lemma {:induction false} SkipEncodes(src: Source, table: Table, k: nat)
    requires Sized(src) && IsTable(src, table) && UniqueLabels(src) && k < |src| && SkipBranch(src, k)
    ensures Encodes(src[k], Address(src, k), table)
  {
    hide UniqueLabels, IsTable, Address, ResolveTarget, EncodeLine;
    var skip := src[k + 2].labels[0];
    assert Defines(src[k + 2], skip);
    UniqueResolves(src, table, k, k + 2, skip);
    AddressStep(src, k);
    AddressStep(src, k + 1);
    BranchEncodesInReach(src[k], Address(src, k), table);
  }

  // ----- the whole program -----

  lemma SetupLineIsSized(src: Source, loops: int, i: nat)
    requires Setup(src, loops, 21) && i < |src|
    ensures InstructionSize(src[i].mnemonic).Ok?
  {
    hide Straight;
    if i >= 3 && !SetsHigh(src[i]) {
      assert SetupLine(src, i);
      StraightEncodes(src[i], HighBefore(src, i), 0, map[]);
    }
  }

  lemma BodyLineIsSized(src: Source, high: bool, i: nat)
    requires i < |src| && BodyLine(src, i, high)
    ensures InstructionSize(src[i].mnemonic).Ok?
  {
    hide Straight;
    if Straight(src[i], high) {
      StraightEncodes(src[i], high, 0, map[]);
    }
  }

  /** Every line of a generated program has a size. */
  lemma ShapeIsSized(src: Source, n0: nat, dec: nat, loops: int, x: int, high: bool)
    requires Shape(src, n0, dec, loops, x, high)
    ensures Sized(src)
  {
    hide UniqueLabels, HighBefore, Setup, BodyLine;
    forall i | 0 <= i < |src|
      ensures InstructionSize(src[i].mnemonic).Ok?
    {
      if i < n0 {
        SetupLineIsSized(src[..n0], loops, i);
      } else if n0 < i < dec {
        BodyLineIsSized(src, high, i);
      }
    }
  }

  lemma {:induction false} SetupEncodes(src: Source, table: Table, n0: nat, loops: int, i: nat)
    requires Sized(src) && i < n0 <= |src| && Setup(src[..n0], loops, 21)
    ensures Encodes(src[i], Address(src, i), table)
  {
    hide Address, Straight, Encodes, HighBefore;
    var pre, a := src[..n0], Address(src, i);
    assert src[i] == pre[i];
    LoadEncodes(10, 0x0100, a, table);
    LoadEncodes(11, 0x0101, a, table);
    LoadEncodes(12, loops, a, table);
    LoadEncodes(13, 0xFF10, a, table);
    if i >= 3 && !SetsHigh(pre[i]) {
      assert SetupLine(pre, i);
      StraightEncodes(pre[i], HighBefore(pre, i), a, table);
    }
  }

  lemma {:induction false} BodyEncodes(src: Source, table: Table, high: bool, i: nat)
    requires Sized(src) && IsTable(src, table) && UniqueLabels(src) && i < |src| && BodyLine(src, i, high)
    ensures Encodes(src[i], Address(src, i), table)
  {
    hide UniqueLabels, IsTable, Address, Straight, SkipBranch;
    if Straight(src[i], high) {
      StraightEncodes(src[i], high, Address(src, i), table);
    } else if src[i].mnemonic.Some? {
      SkipEncodes(src, table, i);
    }
  }

  /** The words of the loop, from its label through JRNZ LOOP. */
  function LoopWords(src: Source, n0: nat, dec: nat): int
    requires Sized(src) && n0 <= dec && dec + 2 <= |src|
  {
    Address(src, dec + 2) - Address(src, n0)
  }

  lemma LoopBranchEncodes(src: Source, table: Table, n0: nat, dec: nat, x: int)
    requires Sized(src) && IsTable(src, table) && UniqueLabels(src) && Ending(src, dec, x)
    requires n0 < dec && src[n0] == LabelLine(LOOP)
    ensures Encodes(src[dec + 1], Address(src, dec + 1), table) <==> LoopWords(src, n0, dec) <= 128
  {
    hide UniqueLabels, IsTable, Address, ResolveTarget, Encodes;
    var j := dec + 1;
    assert Defines(src[n0], LOOP);
    UniqueResolves(src, table, j, n0, LOOP);
    AddressStep(src, j);
    AddressesRise(src, n0, j);
    BranchEncodesInReach(src[j], Address(src, j), table);
  }

  lemma DecEncodes(address: nat, table: Table)
    ensures Encodes(Ins(DEC, [Reg(12)]), address, table)
  {
    hide Fields;
  }

  lemma JumpEncodes(name: string, address: nat, table: Table)
    requires ResolveTarget(Name(name), address, table).Ok?
    ensures Encodes(Ins(JMPA, [Name(name)]), address, table)
  {
    hide ResolveTarget;
  }

  lemma {:induction false} EndingEncodes(src: Source, table: Table, dec: nat, x: int, i: nat)
    requires Sized(src) && IsTable(src, table) && UniqueLabels(src) && Ending(src, dec, x)
    requires i == dec || dec + 1 < i < |src|
    ensures Encodes(src[i], Address(src, i), table)
  {
    hide UniqueLabels, IsTable, Address, ResolveTarget;
    if i == dec {
      hide Encodes;
      DecEncodes(Address(src, i), table);
    } else if i == dec + 2 || i == dec + 4 {
      hide Encodes;
      LoadEncodes(13, if i == dec + 2 then x else 0xDEAD, Address(src, i), table);
    } else if i == dec + 3 {
      hide Encodes;
      assert Defines(src[dec + 5], EXIT);
      UniqueResolves(src, table, i, dec + 5, EXIT);
      JumpEncodes(EXIT, Address(src, i), table);
    } else if i == dec + 6 {
      hide Encodes;
      assert Defines(src[i], HALT);
      UniqueResolves(src, table, i, i, HALT);
      BranchEncodesInReach(src[i], Address(src, i), table);
    }
  }

  /** The assembler accepts a generated program iff the loop takes at most 128 words. */
  lemma AcceptedExactlyWhenLoopFits(src: Source, table: Table, n0: nat, dec: nat, loops: int, x: int, high: bool)
    requires Shape(src, n0, dec, loops, x, high) && Sized(src) && IsTable(src, table)
    ensures Accepted(src, table) <==> LoopWords(src, n0, dec) <= 128
  {
    hide Address, IsTable, UniqueLabels, HighBefore, BodyLine, EncodeLine, Setup;
    LoopBranchEncodes(src, table, n0, dec, x);
    forall i | 0 <= i < |src| && i != dec + 1
      ensures Encodes(src[i], Address(src, i), table)
    {
      if i < n0 {
        SetupEncodes(src, table, n0, loops, i);
      } else if n0 < i < dec {
        BodyEncodes(src, table, high, i);
      } else if i == n0 {
        LabelEncodes(LOOP, Address(src, i), table);
      } else {
        EndingEncodes(src, table, dec, x, i);
      }
    }
  }

  // ----- how many operations always fit -----

  lemma {:induction false} WordsAreAddresses(src: Source, n: nat)
    requires Sized(src) && n <= |src|
    ensures Address(src, n) == WordCount(src[..n])
  {
    hide InstructionSize;
    if n == 0 {
    } else {
      WordsAreAddresses(src, n - 1);
      assert src[..n][..n - 1] == src[..n - 1];
    }
  }

  /** The loop of a generated program: the words of its body, DEC and JRNZ. */
  lemma ProgramLoopWords(config: Config, c: Choices)
    requires Possible(c, config)
    ensures var src := Program(config, c);
            && Sized(src)
            && LoopWords(src, |SetupLines(config, c)|, DecLine(config, c))
               == WordCount(BodyLines(config.targetedBins, c.operations)) + 2
  {
    hide Possible, SetupLines, BodyLines, Shape, Address, WordCount, Tail, Sized;
    var src, setup, body := Program(config, c), SetupLines(config, c), BodyLines(config.targetedBins, c.operations);
    var n0, dec, high := |setup|, DecLine(config, c), "mem_addr_high" in config.targetedBins;
    ProgramHasShape(config, c);
    ShapeIsSized(src, n0, dec, c.loops, c.last, high);
    LoopIsShort(src, n0, dec, c.loops, c.last, high);
    assert src[..n0] == setup && src[..dec] == setup + [LabelLine(LOOP)] + body;
    WordsAppend(setup, LabelLine(LOOP));
    WordsConcat(setup + [LabelLine(LOOP)], body);
  }

  /** The assembler has an encoding for a program iff the operations that the choices lead to take at most 126 words. */
  lemma AcceptedExactlyWhenBodyFits(config: Config, c: Choices)
    requires Possible(c, config)
    ensures HasEncoding(Program(config, c)) <==> WordCount(BodyLines(config.targetedBins, c.operations)) <= 126
  {
    hide Possible, SetupLines, BodyLines, Shape, Accepted, WordCount, IsTable, Program, LoopWords, DecLine;
    var src, n0, dec := Program(config, c), |SetupLines(config, c)|, DecLine(config, c);
    var high := "mem_addr_high" in config.targetedBins;
    ProgramHasShape(config, c);
    ProgramLoopWords(config, c);
    if table :| Accepted(src, table) {
      AcceptedHasTable(src, table);
      AcceptedExactlyWhenLoopFits(src, table, n0, dec, c.loops, c.last, high);
    }
    var table := TableExists(src);
    AcceptedExactlyWhenLoopFits(src, table, n0, dec, c.loops, c.last, high);
  }

  /** How many operations always fit. */
  function OperationLimit(bins: set<string>): nat {
    if BlockSize(bins) == 7 then 18 else if "add_overflow" in bins then 41 else 42
  }

  lemma LimitIsExact(bins: set<string>, n: nat)
    ensures BodySize(bins, n) <= 126 <==> n <= OperationLimit(bins)
  {}

  ghost predicate EveryChoiceFits(config: Config) {
    forall c :: Possible(c, config) ==> HasEncoding(Program(config, c))
  }

  /** For every configuration: whatever the choices, the program is accepted, iff it asks for no more than the limit. */
  lemma EveryChoiceFitsExactly(config: Config)
    ensures EveryChoiceFits(config) <==> BodyCount(config) <= OperationLimit(config.targetedBins)
  {
    hide Possible, HasEncoding, Program, BodyLines, WordCount, OperationLimit, BodySize;
    LimitIsExact(config.targetedBins, BodyCount(config));
    if BodyCount(config) <= OperationLimit(config.targetedBins) {
      forall c | Possible(c, config)
        ensures HasEncoding(Program(config, c))
      {
        PossibleFits(config, c);
      }
    } else {
      var c := MoreOperationsCanFail(config);
    }
  }

  lemma PossibleFits(config: Config, c: Choices)
    requires Possible(c, config) && BodyCount(config) <= OperationLimit(config.targetedBins)
    ensures HasEncoding(Program(config, c))
  {
    hide HasEncoding, Program, BodyLines, WordCount, OperationLimit, BodySize, Allowed;
    LimitIsExact(config.targetedBins, BodyCount(config));
    BodyWords(config.targetedBins, c.operations);
    AcceptedExactlyWhenBodyFits(config, c);
  }

  /** Beyond the limit there are choices whose program the assembler rejects. */
  lemma MoreOperationsCanFail(config: Config) returns (c: Choices)
    requires BodyCount(config) > OperationLimit(config.targetedBins)
    ensures Possible(c, config) && !HasEncoding(Program(config, c))
  {
    hide HasEncoding, Program, BodyLines, WordCount, OperationLimit, BodySize, LongFirst;
    var operations := LongestOperations(config.targetedBins, BodyCount(config));
    c := Choices(2, seq(POOL_SIZE, _ => 0), operations, 0);
    LimitIsExact(config.targetedBins, BodyCount(config));
    LongestWords(config.targetedBins, BodyCount(config));
    AcceptedExactlyWhenBodyFits(config, c);
  }

  /** Every program within the limit is accepted, and so halts. */
  lemma WithinLimitHalts(config: Config, c: Choices) returns (table: Table, k: nat)
    requires Possible(c, config) && config.bodyOps <= OperationLimit(config.targetedBins)
    ensures var src := Program(config, c);
            && |src| > 2 && src[2] == LoadImm(12, c.loops)
            && Accepted(src, table) && HaltsCleanly(src, table, k) && k + 1 <= 24 + 128 * Iterations(Wrap(c.loops))
  {
    hide Possible, Program, Accepted, HaltsCleanly, OperationLimit;
    PossibleFits(config, c);
    table :| Accepted(Program(config, c), table);
    k := GeneratedProgramsHalt(config, c, table);
  }

  /** End to end: within the limit and with loop depth 29, every program assembles and passes the lock-step checker. */
  lemma WithinLimitPasses(config: Config, c: Choices) returns (table: Table)
    requires Possible(c, config) && config.bodyOps <= OperationLimit(config.targetedBins) && config.maxLoopDepth <= 29
    ensures Accepted(Program(config, c), table)
    ensures forall v :: Lockstep.VerdictFor(Start(Program(config, c), table), v) ==> v.Pass?
  {
    hide Program, Accepted, Start, HaltsCleanly, Lockstep.VerdictFor, OperationLimit;
    var k;
    table, k := WithinLimitHalts(config, c);
    forall v | Lockstep.VerdictFor(Start(Program(config, c), table), v)
      ensures v.Pass?
    {
      GeneratedProgramsPassLockstep(config, c, table, v);
    }
  }

  lemma LoopIsShort(src: Source, n0: nat, dec: nat, loops: int, x: int, high: bool)
    requires Sized(src) && Shape(src, n0, dec, loops, x, high)
    ensures LoopWords(src, n0, dec) == WordCount(src[..dec]) - WordCount(src[..n0]) + 2
  {
    hide Address, UniqueLabels, HighBefore, BodyLine, Setup, WordCount;
    WordsAreAddresses(src, n0);
    WordsAreAddresses(src, dec);
    AddressStep(src, dec);
    AddressStep(src, dec + 1);
  }
}
