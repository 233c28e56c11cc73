/**
 * Every conditional branch that a generated program executes: it is the branch of a block whose setup has just
 * run, or the branch of the loop. So what blocks do is what runs do.
 */
module GeneratorBranches {
  import opened Words
  import opened Results
  import opened Isa
  import opened Assembler
  import opened SourceMachine
  import opened AssemblerCorrect
  import opened Halting
  import opened Generator
  import opened GeneratorShape
  import opened GeneratorHalts
  import opened GeneratorTargets

  // ----- where control can go -----

  /** From line j control goes to the next line or to a line with a label. */
  predicate Lands(src: Source, j: nat, pc: int)
    requires Sized(src) && j < |src|
  {
    pc == Address(src, j + 1) || exists l :: 0 <= l < |src| && src[l].labels != [] && pc == Address(src, l)
  }

  /** The only way to an unlabelled instruction right after another one is through that one. */
  lemma NoOtherWay(src: Source, j: nat, i: nat)
    requires Sized(src) && j < |src| && 0 < i < |src| && Lands(src, j, Address(src, i))
    requires src[i].labels == [] && src[i].mnemonic.Some? && src[i - 1].mnemonic.Some? && src[j].mnemonic.Some?
    ensures j == i - 1
  {
    hide Address;
    InstructionsHaveSize(src[i]);
    InstructionsHaveSize(src[i - 1]);
    if Address(src, i) == Address(src, j + 1) {
      AddressesDiffer(src, j + 1, i);
    } else {
      var l :| 0 <= l < |src| && src[l].labels != [] && Address(src, i) == Address(src, l);
      AddressesDiffer(src, l, i);
    }
  }

  lemma AddressesDiffer(src: Source, l: nat, i: nat)
    requires Sized(src) && l <= |src| && 0 < i < |src| && SizeAt(src, i - 1) > 0 && SizeAt(src, i) > 0
    ensures Address(src, l) == Address(src, i) ==> l == i
  {
    hide Address;
    if l < i {
      AddressStep(src, i - 1);
      if l < i - 1 {
        AddressesRise(src, l, i - 1);
      }
    } else if i < l {
      AddressesRise(src, i, l);
    }
  }

  lemma StraightFalls(src: Source, i: nat, s: Arch, high: bool)
    requires Sized(src) && i < |src| && Straight(src[i], high) && Perform(src, i, s).Some?
    ensures Perform(src, i, s).value.pc == Wrap(s.pc + SizeAt(src, i))
  {
    hide Straight, Perform, Address, Sized;
    assert src[i].mnemonic.Some? by { StraightHasMnemonic(src[i], high); }
    var m := src[i].mnemonic.value;
    if TwoRegOpOf(m).Some? || OneRegOpOf(m).Some? {
      StraightRegisterLine(src, i, s, high);
    } else {
      OtherFalls(src, i, s, high);
    }
  }

  lemma StraightHasMnemonic(l: Line, high: bool)
    requires Straight(l, high)
    ensures l.mnemonic.Some?
  {}

  lemma OtherFalls(src: Source, i: nat, s: Arch, high: bool)
    requires Sized(src) && i < |src| && Straight(src[i], high) && Perform(src, i, s).Some?
    requires var m := src[i].mnemonic; m.Some? && TwoRegOpOf(m.value).None? && OneRegOpOf(m.value).None?
    ensures Perform(src, i, s).value.pc == Wrap(s.pc + SizeAt(src, i))
  {
    hide Sum, Plain, Address, Sized, Denotes;
  }

  lemma FallingLands(src: Source, i: nat, pc: Word)
    requires Sized(src) && ProgramSize(src) <= 0x100 && i < |src| && pc == Wrap(Address(src, i) + SizeAt(src, i))
    ensures Lands(src, i, pc)
  {
    hide Address, ProgramSize;
    NextAddress(src, i);
  }

  /** A jump to a name goes to the line that defines it, or falls through. */
  lemma JumpGoes(src: Source, i: nat, s: Arch, name: string)
    requires Sized(src) && i < |src| && src[i].operands == [Name(name)] && Perform(src, i, s).Some?
    requires IsBranch(src[i]) || src[i].mnemonic == Some(JMPA)
    ensures var t, target := Perform(src, i, s).value, Denotes(src, i, Name(name));
            (IsBranch(src[i]) && t.pc == Wrap(s.pc + 1)) || (target.Some? && t.pc == Wrap(target.value))
  {
    hide Address, Denotes;
  }

  lemma JumpLands(src: Source, i: nat, s: Arch, name: string, l: nat)
    requires Sized(src) && ProgramSize(src) <= 0x100 && i < |src| && s.pc == Address(src, i)
    requires src[i].operands == [Name(name)] && Perform(src, i, s).Some?
    requires IsBranch(src[i]) || src[i].mnemonic == Some(JMPA)
    requires UniqueLabels(src) && l < |src| && Defines(src[l], name)
    ensures Lands(src, i, Perform(src, i, s).value.pc)
  {
    hide Address, Perform, Denotes, UniqueLabels, ProgramSize, Name;
    JumpGoes(src, i, s, name);
    DenotesUnique(src, i, l, name);
    NextAddress(src, i);
    NextAddress(src, l);
    if IsBranch(src[i]) {
      BranchesAreShort(src, i);
    }
  }

  lemma BranchesAreShort(src: Source, i: nat)
    requires Sized(src) && i < |src| && IsBranch(src[i])
    ensures SizeAt(src, i) == 1
  {}

  /** Every instruction of a generated program goes to the next line or to a label. */
  lemma ShapeLands(src: Source, n0: nat, dec: nat, loops: int, x: int, high: bool, i: nat, s: Arch)
    requires Sized(src) && ProgramSize(src) <= 0x100 && Shape(src, n0, dec, loops, x, high)
    requires i < |src| && src[i].mnemonic.Some? && s.pc == Address(src, i) && Perform(src, i, s).Some?
    ensures Lands(src, i, Perform(src, i, s).value.pc)
  {
    hide Address, Perform, Shape, ProgramSize, UniqueLabels, Straight, SkipBranch, Ending, Lands, Defines;
    ShapeLabels(src, n0, dec, loops, x, high);
    if i < n0 {
      SetupLands(src, n0, dec, loops, x, high, i, s);
    } else if i < dec {
      assert n0 != i && BodyLine(src, i, high) by { BodyLineAt(src, n0, dec, loops, x, high, i); }
      if Straight(src[i], high) {
        StraightFalls(src, i, s, high);
        FallingLands(src, i, Perform(src, i, s).value.pc);
      } else {
        SkipLands(src, i, s);
      }
    } else {
      EndingLands(src, n0, dec, x, i, s);
    }
  }

  lemma BodyLineAt(src: Source, n0: nat, dec: nat, loops: int, x: int, high: bool, i: nat)
    requires Shape(src, n0, dec, loops, x, high) && n0 <= i < dec
    ensures dec < |src| && if i == n0 then src[i].mnemonic.None? else BodyLine(src, i, high)
  {
    hide Setup, BodyLine, HighBefore, UniqueLabels;
  }

  lemma SkipLands(src: Source, i: nat, s: Arch)
    requires Sized(src) && ProgramSize(src) <= 0x100 && UniqueLabels(src) && i < |src| && SkipBranch(src, i)
    requires s.pc == Address(src, i) && Perform(src, i, s).Some?
    ensures Lands(src, i, Perform(src, i, s).value.pc)
  {
    hide Address, Perform, ProgramSize, UniqueLabels, Lands;
    JumpLands(src, i, s, src[i + 2].labels[0], i + 2);
  }

  lemma SetupFalls(src: Source, n0: nat, dec: nat, loops: int, x: int, high: bool, i: nat, s: Arch)
    requires Sized(src) && Shape(src, n0, dec, loops, x, high)
    requires i < n0 && i < |src| && Perform(src, i, s).Some?
    ensures src[i].mnemonic.Some? && Perform(src, i, s).value.pc == Wrap(s.pc + SizeAt(src, i))
  {
    hide Address, Perform, UniqueLabels, Straight, BodyLine, HighBefore, Ending, LoadImm;
    ShapeLabels(src, n0, dec, loops, x, high);
    var pre := src[..n0];
    assert src[i] == pre[i];
    if i < 3 {
      assert src[i] == OpeningLines(loops)[i];
      LoadsHaveMnemonic(10 + i, if i == 0 then 0x0100 else if i == 1 then 0x0101 else loops);
      LoadLine(src, i, s, 10 + i, if i == 0 then 0x0100 else if i == 1 then 0x0101 else loops);
    } else {
      assert SetupLine(pre, i);
      if SetsHigh(pre[i]) {
        LoadsHaveMnemonic(13, 0xFF10);
        LoadLine(src, i, s, 13, 0xFF10);
      } else {
        StraightHasMnemonic(pre[i], HighBefore(pre, i));
        StraightFalls(src, i, s, HighBefore(pre, i));
      }
    }
  }

  lemma SetupLands(src: Source, n0: nat, dec: nat, loops: int, x: int, high: bool, i: nat, s: Arch)
    requires Sized(src) && ProgramSize(src) <= 0x100 && Shape(src, n0, dec, loops, x, high)
    requires i < n0 && i < |src| && s.pc == Address(src, i) && Perform(src, i, s).Some?
    ensures Lands(src, i, Perform(src, i, s).value.pc)
  {
    hide Address, Perform, ProgramSize, Shape, Lands;
    SetupFalls(src, n0, dec, loops, x, high, i, s);
    FallingLands(src, i, Perform(src, i, s).value.pc);
  }

  lemma EndingLands(src: Source, n0: nat, dec: nat, x: int, i: nat, s: Arch)
    requires Sized(src) && ProgramSize(src) <= 0x100 && UniqueLabels(src) && Ending(src, dec, x)
    requires n0 < dec && dec <= i < |src| && Defines(src[n0], LOOP) && src[i].mnemonic.Some?
    requires s.pc == Address(src, i) && Perform(src, i, s).Some?
    ensures Lands(src, i, Perform(src, i, s).value.pc)
  {
    hide Address, Perform, ProgramSize, UniqueLabels, Ending, Reg, Name, Lands, Ins, LoadImm, Defines, IsBranch;
    EndingLines(src, dec, x);
    EndingDefines(src[dec + 5], src[dec + 6]);
    EndingJumps();
    if i == dec {
      DecStep(src, i, s);
      EndingSizes(src, dec, x);
      FallingLands(src, i, Perform(src, i, s).value.pc);
    } else if i == dec + 1 {
      JumpLands(src, i, s, LOOP, n0);
    } else if i == dec + 3 {
      JumpLands(src, i, s, EXIT, dec + 5);
    } else if i == dec + 6 {
      JumpLands(src, i, s, HALT, i);
    } else {
      LoadLine(src, i, s, 13, if i == dec + 2 then x else 0xDEAD);
      FallingLands(src, i, Perform(src, i, s).value.pc);
    }
  }

  lemma EndingDefines(exit: Line, halt: Line)
    ensures exit == LabelLine(EXIT) ==> exit.mnemonic.None? && Defines(exit, EXIT)
    ensures halt == Line([HALT], Some(JR), [Name(HALT)]) ==> IsBranch(halt) && Defines(halt, HALT)
  {}

  lemma EndingJumps()
    ensures var l := Ins(JRNZ, [Name(LOOP)]); IsBranch(l) && l.operands == [Name(LOOP)]
    ensures var l := Ins(JMPA, [Name(EXIT)]); l.mnemonic == Some(JMPA) && l.operands == [Name(EXIT)]
  {}

  // ----- how control came to a branch -----

  lemma PathStep(src: Source, path: seq<nat>, s: Arch, m: nat)
    requires Sized(src) && Follow(src, path, s).Some? && 0 < m <= |path|
    ensures var j, before := path[m - 1], Follow(src, path[..m - 1], s);
            && before.Some? && j < |src| && src[j].mnemonic.Some? && before.value.pc == Address(src, j)
            && Perform(src, j, before.value).Some? && Perform(src, j, before.value) == Follow(src, path[..m], s)
  {
    hide Address, Perform;
    FollowPrefix(src, path, s, m);
    assert path[..m][..m - 1] == path[..m - 1];
    NoLabelPerforms(src, path[m - 1], Follow(src, path[..m - 1], s).value);
  }

  lemma NoLabelPerforms(src: Source, j: nat, s: Arch)
    requires Sized(src) && j < |src|
    ensures src[j].mnemonic.None? ==> Perform(src, j, s).None?
  {}

  /** Lines i - n to i are instructions, and all but the first have no label. */
  predicate Chain(src: Source, i: nat, n: nat) {
    && n <= i < |src|
    && (forall k :: i - n <= k <= i ==> src[k].mnemonic.Some?)
    && (forall k :: i - n < k <= i ==> src[k].labels == [])
  }

  /** A run that stands at the end of such a chain was at its start n instructions ago. */
  lemma {:induction false} CameThrough(src: Source, n0: nat, dec: nat, loops: int, x: int, high: bool, path: seq<nat>,
                                       s: Arch, m: nat, i: nat, n: nat)
    requires Sized(src) && ProgramSize(src) <= 0x100 && Shape(src, n0, dec, loops, x, high)
    requires s.pc == 0 && Follow(src, path, s).Some? && m <= |path| && Chain(src, i, n)
    requires Follow(src, path[..m], s).Some? && Follow(src, path[..m], s).value.pc == Address(src, i)
    ensures n <= m && Follow(src, path[..m - n], s).Some?
    ensures Follow(src, path[..m - n], s).value.pc == Address(src, i - n)
  {
    hide Address, Perform, Follow, Shape, ProgramSize;
    if n == 0 {
      assert path[..m - n] == path[..m];
    } else {
      assert 0 < m by {
        if m == 0 {
          StartsAtZero(src, path, s);
          InstructionsHaveSize(src[i - 1]);
          AddressStep(src, i - 1);
        }
      }
      PathStep(src, path, s, m);
      ShapeLands(src, n0, dec, loops, x, high, path[m - 1], Follow(src, path[..m - 1], s).value);
      NoOtherWay(src, path[m - 1], i);
      CameThrough(src, n0, dec, loops, x, high, path, s, m - 1, i - 1, n - 1);
    }
  }

  lemma StartsAtZero(src: Source, path: seq<nat>, s: Arch)
    requires Sized(src)
    ensures Follow(src, path[..0], s) == Some(s)
  {}

  lemma BlockChain(src: Source, k: nat, idx: nat, bins: set<string>, o: Operation)
    requires o.FlagBranch? && Allowed(o, bins) && OperationAt(src, k, idx, bins, o)
    ensures Chain(src, k + |FlagSetup(bins, o.dst, o.src)|, |FlagSetup(bins, o.dst, o.src)|)
  {
    hide FlagSetup, SkipLabel, Allowed;
    BlockLines(src, k, idx, bins, o);
    BlockSetupIsStraight(bins, o);
    var setup := FlagSetup(bins, o.dst, o.src);
    var n := |setup|;
    forall j | k <= j < k + n
      ensures src[j].mnemonic.Some? && src[j].labels == []
    {
      assert src[j] == src[k..k + n][j - k] == setup[j - k];
      assert Straight(setup[j - k], "mem_addr_high" in bins);
    }
  }

  // ----- branches that are executed -----

  /** The instruction of s is a conditional branch. */
  predicate AtConditional(s: Arch) {
    Supported(s) && Current(s).Jump? && Current(s).cond != Always
  }

  lemma ConditionalOpcode(w: Word, m: Mnemonic)
    requires Decode(w).Some? && Decode(w).value.Jump? && OpcodeOf(m) == Some(Opcode(w))
    ensures ConditionOf(m) == Some(Decode(w).value.cond)
  {
    hide DestField, SourceField, Imm8, Signed8;
  }

  /** The line of the branch that is executed, with its condition. */
  lemma BranchLineAt(src: Source, table: Table, i: nat, s: Arch)
    requires At(src, table, i, s) && AtConditional(s)
    ensures i < |src| && IsBranch(src[i]) && ConditionOf(src[i].mnemonic.value) == Some(Current(s).cond)
    ensures src[i].mnemonic != Some(JR)
  {
    hide At, EncodeLine, Sized, Decode, ResolveTarget;
    WordsInMemory(src, table, i, s);
    EncodedOpcode(src[i], s.pc, table);
    ConditionalOpcode(Fetch(s), src[i].mnemonic.value);
  }

  /**
   * Instruction n of the run is the branch of block j, which stands at line k and was entered at instruction
   * `entry`; it is taken exactly as the block's targets and the registers at its entry say.
   */
  ghost predicate IsBlockBranch(config: Config, c: Choices, table: Table, n: nat, j: nat, k: nat, entry: nat)
    requires Possible(c, config) && Accepted(Program(config, c), table)
  {
    var src, bins := Program(config, c), config.targetedBins;
    var s := Start(src, table);
    && j < |c.operations| && c.operations[j].FlagBranch? && AtConditional(Run(s, n))
    && var o, cond := c.operations[j], Current(Run(s, n)).cond;
       && OperationAt(src, k, j, bins, o) && k < |src| && Run(s, entry).pc == Address(src, k)
       && n == entry + |FlagSetup(bins, o.dst, o.src)|
       && ConditionOf(BlockBranch(bins, o.branch)) == Some(cond)
       && (Holds(cond, Run(s, n).flags) <==> Taken(bins, o, Run(s, entry).regs))
  }

  ghost predicate IsLoopBranch(config: Config, c: Choices, table: Table, n: nat)
    requires Possible(c, config) && Accepted(Program(config, c), table)
  {
    var src := Program(config, c);
    var t := Run(Start(src, table), n);
    var line := DecLine(config, c) + 1;
    && line <= |src| && t.pc == Address(src, line)
    && AtConditional(t) && Current(t).cond == IfNotZ
  }

  /** A conditional branch line of a program is the branch of a block, or JRNZ LOOP. */
  lemma BranchLines(config: Config, c: Choices, i: nat) returns (j: nat, k: nat)
    requires Possible(c, config) && i < |Program(config, c)|
    requires IsBranch(Program(config, c)[i]) && Program(config, c)[i].mnemonic != Some(JR)
    ensures var src, bins, dec := Program(config, c), config.targetedBins, DecLine(config, c);
            if i == dec + 1 then src[i].mnemonic == Some(JRNZ)
            else
              && j < |c.operations| && c.operations[j].FlagBranch?
              && OperationAt(src, k, j, bins, c.operations[j])
              && i == k + |FlagSetup(bins, c.operations[j].dst, c.operations[j].src)|
              && src[i].mnemonic == Some(BlockBranch(bins, c.operations[j].branch))
  {
    hide BodyLines, Allowed, BlockBranch, SetupLines, Setup, UniqueLabels, BodyLine, HighBefore, OperationAt, FlagSetup;
    var src, n0, dec, bins := Program(config, c), |SetupLines(config, c)|, DecLine(config, c), config.targetedBins;
    ProgramHasShape(config, c);
    j, k := 0, 0;
    if i < n0 {
      assert src[i] == src[..n0][i];
      SetupIsNoBranch(src[..n0], c.loops, 21, i);
    } else if n0 < i < dec {
      var body := BodyLines(bins, c.operations);
      assert src[i] == body[i - n0 - 1];
      j, k := BodyBranches(bins, c.operations, i - n0 - 1);
      OperationShifts(body, k, j, bins, c.operations[j], SetupLines(config, c) + [LabelLine(LOOP)], Tail(c.last));
      k := n0 + 1 + k;
    } else {
      EndingLines(src, dec, c.last);
    }
  }

  lemma HaltIsUnconditional(s: Arch)
    requires AtHalt(s)
    ensures !AtConditional(s)
  {}

  /** A path from the start to the halting line. */
  ghost predicate IsWholePath(src: Source, table: Table, dec: nat, path: seq<nat>)
    requires Accepted(src, table)
  {
    var s := Start(src, table);
    && Loaded(src, table, s.mem) && s.pc == 0 && Follow(src, path, s).Some?
    && dec + 6 < |src| && AtHalt(Run(s, |path|)) && Run(s, |path|).pc == Address(src, dec + 6)
    && Loaded(src, table, Run(s, |path|).mem)
  }

  lemma WholePath(src: Source, table: Table, n0: nat, dec: nat, loops: int, x: int, high: bool)
    returns (path: seq<nat>)
    requires Accepted(src, table) && Shape(src, n0, dec, loops, x, high)
    ensures IsWholePath(src, table, dec, path) && Sized(src) && ProgramSize(src) <= 0x100
  {
    hide Address, Accepted, Shape, Follow, Loaded, ProgramSize, AtHalt, Step, Supported, Current;
    assert Sized(src) by { AcceptedIsSized(src, table); }
    ShapeLabels(src, n0, dec, loops, x, high);
    ProgramIsShort(src, table, n0, dec, loops, x, high);
    StartIsLoaded(src, table);
    var s := Start(src, table);
    path := WholeRun(src, table, n0, dec, loops, x, high);
    ProgramMeans(src, table, path, s);
    HaltLine(src, table, n0, dec, loops, x, high, Run(s, |path|));
  }

  /** While the path lasts, the run stands at its lines. */
  lemma AtPath(src: Source, table: Table, path: seq<nat>, s: Arch, n: nat)
    requires Accepted(src, table) && Loaded(src, table, s.mem) && Follow(src, path, s).Some? && n < |path|
    ensures At(src, table, path[n], Run(s, n)) && Follow(src, path[..n], s) == Some(Run(s, n))
    ensures path[n] < |src| && Run(s, n).pc == Address(src, path[n])
  {
    hide Accepted, Loaded, Follow, Perform, Step, Supported, Current, Address;
    assert Sized(src) by { AcceptedIsSized(src, table); }
    PathStep(src, path, s, n + 1);
    assert path[..n + 1][..n] == path[..n];
    ProgramMeans(src, table, path[..n], s);
  }

  /** Back from the branch of a block to its first line, and forth again through its setup. */
  lemma BlockWasEntered(src: Source, table: Table, n0: nat, dec: nat, loops: int, x: int, high: bool, path: seq<nat>,
                        s: Arch, n: nat, k: nat, idx: nat, bins: set<string>, o: Operation) returns (entry: nat)
    requires Accepted(src, table) && Loaded(src, table, s.mem) && s.pc == 0
    requires Shape(src, n0, dec, loops, x, high) && Sized(src) && ProgramSize(src) <= 0x100
    requires Follow(src, path, s).Some? && n < |path| && o.FlagBranch? && Allowed(o, bins)
    requires OperationAt(src, k, idx, bins, o) && path[n] == k + |FlagSetup(bins, o.dst, o.src)|
    ensures n == entry + |FlagSetup(bins, o.dst, o.src)| && k < |src| && Run(s, entry).pc == Address(src, k)
    ensures BranchHolds(bins, o, Run(s, n).flags) <==> Taken(bins, o, Run(s, entry).regs)
  {
    hide Accepted, Loaded, Follow, Shape, Allowed, OperationAt, FlagSetup, Chain, SetupAt, BranchHolds, Taken, Step,
         Supported, Current, Address, ProgramSize;
    var size := |FlagSetup(bins, o.dst, o.src)|;
    AtPath(src, table, path, s, n);
    BlockChain(src, k, idx, bins, o);
    BlockLines(src, k, idx, bins, o);
    CameThrough(src, n0, dec, loops, x, high, path, s, n, path[n], size);
    entry := n - size;
    AtPath(src, table, path, s, entry);
    var p := SetupDecides(src, k, bins, o, Run(s, entry));
    FollowAppend(src, path[..entry], p, s);
    ProgramMeans(src, table, path[..entry] + p, s);
  }

  /**
   * Every conditional branch that an accepted program ever executes is that of the loop, or that of a block whose
   * setup has just run, and then it is taken exactly as the block says.
   */
  lemma EveryBranch(config: Config, c: Choices, table: Table, n: nat) returns (j: nat, k: nat, entry: nat)
    requires Possible(c, config) && Accepted(Program(config, c), table)
    requires AtConditional(Run(Start(Program(config, c), table), n))
    ensures IsLoopBranch(config, c, table, n) || IsBlockBranch(config, c, table, n, j, k, entry)
  {
    hide Program, Accepted, Start, Shape, Loaded, Address, Follow, Step, Run, AtConditional, ProgramSize, Allowed, At,
         OperationAt, FlagSetup, BlockBranch, DecLine, SetupLines, AtHalt, Taken, IsBranch, Current, Supported, Holds;
    var src, n0, dec := Program(config, c), |SetupLines(config, c)|, DecLine(config, c);
    var s, bins := Start(src, table), config.targetedBins;
    var high := "mem_addr_high" in bins;
    ProgramHasShape(config, c);
    var path := ShapePath(src, table, n0, dec, c.loops, c.last, high, n);
    AtPath(src, table, path, s, n);
    var i := path[n];
    BranchLineAt(src, table, i, Run(s, n));
    j, k := BranchLines(config, c, i);
    entry := 0;
    if i != dec + 1 {
      entry := BlockWasEntered(src, table, n0, dec, c.loops, c.last, high, path, s, n, k, j, bins, c.operations[j]);
    }
  }

  /** A path that the run follows beyond instruction n, which is before the halt. */
  lemma ShapePath(src: Source, table: Table, n0: nat, dec: nat, loops: int, x: int, high: bool, n: nat)
    returns (path: seq<nat>)
    requires Accepted(src, table) && Shape(src, n0, dec, loops, x, high)
    requires AtConditional(Run(Start(src, table), n))
    ensures IsWholePath(src, table, dec, path) && n < |path|
    ensures Sized(src) && ProgramSize(src) <= 0x100
  {
    hide Accepted, Shape, AtHalt, Step, AtConditional, Follow, Loaded;
    path := WholePath(src, table, n0, dec, loops, x, high);
    var s := Start(src, table);
    if |path| <= n {
      HaltStays(s, |path|, n);
      HaltIsUnconditional(Run(s, n));
    }
  }

  /**
   * The targets for branches passed by, over runs: with jrc_not_taken targeted, every JRC that an accepted program
   * executes finds C set; with jrnc_not_taken targeted, it executes no JRNC.
   */
  lemma NotTakenNeverMet(config: Config, c: Choices, table: Table, n: nat)
    requires Possible(c, config) && Accepted(Program(config, c), table)
    requires AtConditional(Run(Start(Program(config, c), table), n))
    ensures var t, bins := Run(Start(Program(config, c), table), n), config.targetedBins;
            && ("jrc_not_taken" in bins && Current(t).cond == IfC ==> t.flags.c == 1)
            && ("jrnc_not_taken" in bins ==> Current(t).cond != IfNotC)
  {
    hide Possible, Program, Accepted, Start, Run, AtConditional, Current, Supported, OperationAt, FlagSetup, Taken,
         Address, DecLine, BlockBranch;
    var j, k, entry := EveryBranch(config, c, table, n);
    if IsBlockBranch(config, c, table, n, j, k, entry) {
      var o, bins := c.operations[j], config.targetedBins;
      NotTakenTargetsMiss(bins, o, Run(Start(Program(config, c), table), entry).regs);
      ConditionsDiffer(BlockBranch(bins, o.branch));
    }
  }

  lemma ConditionsDiffer(m: Mnemonic)
    ensures ConditionOf(m) == Some(IfC) <==> m == JRC
    ensures ConditionOf(m) == Some(IfNotC) <==> m == JRNC
  {}
}
