/**
 * Every program that the generator emits and the assembler accepts halts, whatever the random choices: it
 * leaves its own code alone, meets no unsupported opcode, and reaches 0x40FF within a bound set by R12.
 */
module GeneratorHalts {
  import opened Words
  import opened Results
  import opened Isa
  import opened Assembler
  import opened SourceMachine
  import opened AssemblerCorrect
  import opened Generator
  import opened GeneratorShape
  import opened Halting
  import opened Rtl
  import opened Refinement
  import opened Retirement
  import Golden
  import Lockstep
  import Reference

  // ----- composing runs -----

  lemma {:induction false} FollowAppend(src: Source, p: seq<nat>, q: seq<nat>, s: Arch)
    requires Sized(src) && Follow(src, p, s).Some?
    ensures Follow(src, p + q, s) == Follow(src, q, Follow(src, p, s).value)
  {
    hide Perform, Address;
    if q == [] {
      assert p + q == p;
    } else {
      FollowAppend(src, p, q[..|q| - 1], s);
      assert (p + q)[..|p + q| - 1] == p + q[..|q| - 1];
    }
  }

  lemma FollowOne(src: Source, i: nat, s: Arch)
    requires Sized(src) && i < |src| && s.pc == Address(src, i)
    ensures Follow(src, [i], s) == Perform(src, i, s)
  {
    hide Perform, Address;
    assert [i][..0] == [];
    assert Follow(src, [], s) == Some(s);
  }

  lemma {:induction false} FollowPrefix(src: Source, path: seq<nat>, s: Arch, k: nat)
    requires Sized(src) && Follow(src, path, s).Some? && k <= |path|
    ensures Follow(src, path[..k], s).Some?
  {
    hide Perform, Address;
    if k < |path| {
      FollowPrefix(src, path[..|path| - 1], s, k);
      assert path[..|path| - 1][..k] == path[..k];
    } else {
      assert path[..k] == path;
    }
  }

  // ----- one line -----

  /** The registers that the stores of the program rely on. */
  predicate Ready(s: Arch, high: bool) {
    s.regs[10] == 0x0100 && s.regs[11] == 0x0101 && (high ==> s.regs[13] == 0xFF10)
  }

  /** R10 to R15 are as they were. */
  predicate KeepsAbovePool(s: Arch, t: Arch) {
    forall r: RegIndex :: POOL_SIZE <= r ==> t.regs[r] == s.regs[r]
  }

  /** Everything a straight line keeps, beyond moving to the next line. */
  predicate Passes(s: Arch, t: Arch, size: nat) {
    t.pc == Wrap(s.pc + size) && KeepsAbovePool(s, t)
  }

  lemma StraightLine(src: Source, i: nat, s: Arch, high: bool)
    requires Sized(src) && i < |src| && Straight(src[i], high) && Ready(s, high) && ProgramSize(src) <= 0x100
    ensures Perform(src, i, s).Some? && Passes(s, Perform(src, i, s).value, SizeAt(src, i))
  {
    hide Straight, Perform, Address, Sized;
    var m := src[i].mnemonic;
    if m.Some? && (TwoRegOpOf(m.value).Some? || OneRegOpOf(m.value).Some?) {
      StraightRegisterLine(src, i, s, high);
    } else {
      StraightOtherLine(src, i, s, high);
    }
  }

  lemma StraightRegisterLine(src: Source, i: nat, s: Arch, high: bool)
    requires Sized(src) && i < |src| && Straight(src[i], high)
    requires var m := src[i].mnemonic; m.Some? && (TwoRegOpOf(m.value).Some? || OneRegOpOf(m.value).Some?)
    ensures Perform(src, i, s).Some? && Passes(s, Perform(src, i, s).value, SizeAt(src, i))
  {
    hide TwoRegOutcome, OneRegOutcome, Sum, Plain, Address, Sized;
  }

  lemma StraightOtherLine(src: Source, i: nat, s: Arch, high: bool)
    requires Sized(src) && i < |src| && Straight(src[i], high) && Ready(s, high) && ProgramSize(src) <= 0x100
    requires var m := src[i].mnemonic; m.Some? ==> TwoRegOpOf(m.value).None? && OneRegOpOf(m.value).None?
    ensures Perform(src, i, s).Some? && Passes(s, Perform(src, i, s).value, SizeAt(src, i))
  {
    hide Sum, Plain, Address, Sized;
  }

  lemma LoadLine(src: Source, i: nat, s: Arch, r: RegIndex, v: int)
    requires Sized(src) && i < |src| && src[i] == LoadImm(r, v)
    ensures SizeAt(src, i) == 2
    ensures Perform(src, i, s) == Some(WithReg(s.(pc := Wrap(s.pc + 2)), r, Wrap(v)))
  {
    hide Address;
  }

  lemma NextAddress(src: Source, i: nat)
    requires Sized(src) && i < |src| && ProgramSize(src) <= 0x100
    ensures Address(src, i + 1) == Address(src, i) + SizeAt(src, i) <= 0x100
    ensures SizeAt(src, i) <= 2 && (src[i].mnemonic.Some? <==> SizeAt(src, i) >= 1)
  {
    if i + 1 < |src| {
      AddressesRise(src, i + 1, |src|);
    }
  }

  lemma {:induction false} AddressAtMost(src: Source, i: nat)
    requires Sized(src) && i <= |src|
    ensures Address(src, i) <= 2 * i
  {
    if i == 0 {
    } else {
      AddressAtMost(src, i - 1);
    }
  }

  /** A label that is defined once denotes the address of its line everywhere. */
  lemma DenotesUnique(src: Source, i: nat, k: nat, name: string)
    requires Sized(src) && i < |src| && k < |src| && UniqueLabels(src) && Defines(src[k], name)
    ensures Denotes(src, i, Name(name)) == Some(Address(src, k))
  {
    hide Address;
    assert FirstDefinition(src, name, 0, |src|) == Some(k);
  }

  // ----- the setup -----

  /** From the start through the first k lines. */
  lemma {:induction false} SetupRuns(src: Source, n0: nat, loops: int, k: nat, s: Arch) returns (path: seq<nat>)
    requires Sized(src) && ProgramSize(src) <= 0x100 && s.pc == 0
    requires n0 <= |src| && Setup(src[..n0], loops, 21) && 3 <= k <= n0
    ensures |path| == k && Follow(src, path, s).Some?
    ensures var t := Follow(src, path, s).value;
            t.pc == Address(src, k) && Ready(t, HighBefore(src[..n0], k)) && t.regs[12] == Wrap(loops)
  {
    hide Address, Perform, Straight, SetupLine, ProgramSize, Follow;
    if k == 3 {
      path := OpeningRuns(src, loops, s);
      assert !HighBefore(src[..n0], 3);
    } else {
      var before := SetupRuns(src, n0, loops, k - 1, s);
      var t := Follow(src, before, s).value;
      NextAddress(src, k - 1);
      FollowOne(src, k - 1, t);
      FollowAppend(src, before, [k - 1], s);
      path := before + [k - 1];
      SetupStep(src, n0, loops, k - 1, t);
    }
  }

  lemma OpeningRuns(src: Source, loops: int, s: Arch) returns (path: seq<nat>)
    requires Sized(src) && s.pc == 0 && Opening(src, loops)
    ensures |path| == 3 && Follow(src, path, s).Some?
    ensures var t := Follow(src, path, s).value;
            t.pc == Address(src, 3) && Ready(t, false) && t.regs[12] == Wrap(loops)
  {
    hide Perform, Follow;
    assert Address(src, 0) == 0;
    LoadLine(src, 0, s, 10, 0x0100);
    FollowOne(src, 0, s);
    var t := Perform(src, 0, s).value;
    assert Address(src, 1) == 2;
    LoadLine(src, 1, t, 11, 0x0101);
    FollowOne(src, 1, t);
    FollowAppend(src, [0], [1], s);
    var u := Perform(src, 1, t).value;
    assert Address(src, 2) == 4;
    LoadLine(src, 2, u, 12, loops);
    FollowOne(src, 2, u);
    FollowAppend(src, [0] + [1], [2], s);
    path := [0] + [1] + [2];
    assert Address(src, 3) == 6;
  }

  lemma SetupStep(src: Source, n0: nat, loops: int, k: nat, s: Arch)
    requires Sized(src) && ProgramSize(src) <= 0x100 && 3 <= k < n0 <= |src| && Setup(src[..n0], loops, 21)
    requires s.pc == Address(src, k) && Ready(s, HighBefore(src[..n0], k))
    ensures Perform(src, k, s).Some?
    ensures var t := Perform(src, k, s).value;
            t.pc == Address(src, k + 1) && Ready(t, HighBefore(src[..n0], k + 1)) && t.regs[12] == s.regs[12]
  {
    hide Address, Straight, ProgramSize, Perform;
    var pre := src[..n0];
    assert SetupLine(pre, k);
    NextAddress(src, k);
    if SetsHigh(pre[k]) {
      LoadLine(src, k, s, 13, 0xFF10);
    } else {
      StraightLine(src, k, s, HighBefore(pre, k));
      assert HighBefore(pre, k + 1) ==> HighBefore(pre, k);
    }
  }

  // ----- the loop -----

  /**
   * From line k of the loop body to the DEC, in no more steps than there are words in between: every branch
   * skips forward over one line.
   */
  lemma {:induction false} BodyRuns(src: Source, n0: nat, dec: nat, loops: int, x: int, high: bool, k: nat, s: Arch)
    returns (path: seq<nat>)
    requires Sized(src) && ProgramSize(src) <= 0x100 && Shape(src, n0, dec, loops, x, high)
    requires n0 < k <= dec && s.pc == Address(src, k) && Ready(s, high)
    ensures Follow(src, path, s).Some?
    ensures var t := Follow(src, path, s).value;
            t.pc == Address(src, dec) && Ready(t, high) && KeepsAbovePool(s, t)
    ensures |path| <= Address(src, dec) - Address(src, k)
    decreases dec - k
  {
    if k == dec {
      path := [];
    } else {
      hide Address, Perform, Straight, ProgramSize, Shape, SkipBranch, Follow;
      var next := BodyStep(src, n0, dec, loops, x, high, k, s);
      if src[k].mnemonic.None? {
        path := BodyRuns(src, n0, dec, loops, x, high, k + 1, s);
      } else {
        var t := Perform(src, k, s).value;
        FollowOne(src, k, s);
        var rest := BodyRuns(src, n0, dec, loops, x, high, next, t);
        path := [k] + rest;
        FollowAppend(src, [k], rest, s);
      }
    }
  }

  lemma BodyStep(src: Source, n0: nat, dec: nat, loops: int, x: int, high: bool, k: nat, s: Arch)
    returns (next: nat)
    requires Sized(src) && ProgramSize(src) <= 0x100 && Shape(src, n0, dec, loops, x, high)
    requires n0 < k < dec && s.pc == Address(src, k) && Ready(s, high)
    ensures dec < |src| && k < next <= dec
    ensures src[k].mnemonic.None? ==> Address(src, k + 1) == Address(src, k)
    ensures src[k].mnemonic.Some? ==>
              && Perform(src, k, s).Some?
              && var t := Perform(src, k, s).value;
                 t.pc == Address(src, next) && Ready(t, high) && KeepsAbovePool(s, t)
                 && Address(src, next) >= Address(src, k) + 1
  {
    hide Address, Straight, ProgramSize, Perform, Setup, SkipBranch;
    assert BodyLine(src, k, high);
    NextAddress(src, k);
    next := k + 1;
    if Straight(src[k], high) {
      hide Shape;
      StraightLine(src, k, s, high);
    } else if src[k].mnemonic.Some? {
      BranchIsBeforeEnd(src, n0, dec, loops, x, high, k);
      hide Shape;
      next := SkipBodyStep(src, k, s);
    }
  }

  lemma SkipBodyStep(src: Source, k: nat, s: Arch) returns (next: nat)
    requires Sized(src) && ProgramSize(src) <= 0x100 && UniqueLabels(src)
    requires k + 2 < |src| && SkipBranch(src, k) && s.pc == Address(src, k)
    ensures next == if Holds(ConditionOf(src[k].mnemonic.value).value, s.flags) then k + 2 else k + 1
    ensures Perform(src, k, s).Some?
    ensures var t := Perform(src, k, s).value; t.pc == Address(src, next) && t == s.(pc := t.pc)
    ensures Address(src, next) >= Address(src, k) + 1
  {
    hide Address, ProgramSize, Perform, UniqueLabels;
    NextAddress(src, k);
    NextAddress(src, k + 1);
    var skip := src[k + 2].labels[0];
    assert Defines(src[k + 2], skip);
    DenotesUnique(src, k, k + 2, skip);
    SkipStep(src, k, s);
    next := if Holds(ConditionOf(src[k].mnemonic.value).value, s.flags) then k + 2 else k + 1;
  }

  lemma BranchIsBeforeEnd(src: Source, n0: nat, dec: nat, loops: int, x: int, high: bool, k: nat)
    requires Shape(src, n0, dec, loops, x, high) && n0 < k < dec && SkipBranch(src, k)
    ensures k + 2 < dec
  {
    hide Setup, UniqueLabels, HighBefore, BodyLine;
    assert src[dec].mnemonic == Some(DEC);
    assert src[dec + 1].mnemonic == Some(JRNZ);
  }

  lemma SkipStep(src: Source, k: nat, s: Arch)
    requires Sized(src) && k < |src| && SkipBranch(src, k) && s.pc == Address(src, k) && s.pc < 0x100
    requires Denotes(src, k, Name(src[k + 2].labels[0])) == Some(Address(src, k + 2))
    ensures SizeAt(src, k) == 1
    ensures Perform(src, k, s)
         == Some(s.(pc := if Holds(ConditionOf(src[k].mnemonic.value).value, s.flags) then Wrap(Address(src, k + 2))
                          else Wrap(s.pc + 1)))
  {
    hide Address, Denotes;
  }

  /** How often the loop runs for a value of R12: zero counts as 65536. */
  function Iterations(r12: Word): nat {
    if r12 == 0 then 0x1_0000 else r12
  }

  /** An accepted JRNZ LOOP keeps the whole loop within 128 words. */
  lemma LoopFits(src: Source, table: Table, n0: nat, dec: nat, loops: int, x: int, high: bool)
    requires Accepted(src, table) && Shape(src, n0, dec, loops, x, high)
    ensures Address(src, dec + 1) + 1 - Address(src, n0) <= 128
  {
    hide Address, IsTable, Setup, BodyLine, HighBefore, ResolveTarget, EncodeLine, EncodeRelative;
    var j := dec + 1;
    assert Defines(src[n0], LOOP);
    DenotesUnique(src, j, n0, LOOP);
    assert SizeAt(src, j) == 1;
    ResolutionFollowsSource(src, table, j, Name(LOOP));
    assert EncodeLine(src[j], Address(src, j), table).Ok?;
    BranchEncodes(src[j], Address(src, j), table);
    RelativeWord(0x4700, src[j].operands, Address(src, j), Address(src, j) + 1, [], table);
  }

  lemma BranchEncodes(line: Line, address: nat, table: Table)
    requires line.mnemonic == Some(JRNZ)
    ensures EncodeLine(line, address, table) == EncodeRelative(0x4700, line.operands, address, address + 1, [], table)
  {
    hide EncodeRelative;
  }

  /** The whole program lies below the addresses that it stores to. */
  lemma ProgramIsShort(src: Source, table: Table, n0: nat, dec: nat, loops: int, x: int, high: bool)
    requires Accepted(src, table) && Shape(src, n0, dec, loops, x, high)
    ensures ProgramSize(src) < 0x100
  {
    LoopFits(src, table, n0, dec, loops, x, high);
    AddressAtMost(src, n0);
    EndingSize(src, dec, x);
  }

  lemma EndingSize(src: Source, dec: nat, x: int)
    requires Sized(src) && |src| == dec + 7 && Ending(src, dec, x)
    ensures ProgramSize(src) == Address(src, dec + 1) + 8
    ensures Address(src, dec + 1) == Address(src, dec) + 1 && Address(src, dec + 2) == Address(src, dec) + 2
    ensures Address(src, dec + 3) == Address(src, dec) + 4
    ensures Address(src, dec + 5) == Address(src, dec + 6) == Address(src, dec) + 8
  {
    hide Address, SizeAt, Ending, InstructionSize;
    EndingSizes(src, dec, x);
    AddressStep(src, dec);
    AddressStep(src, dec + 1);
    AddressStep(src, dec + 2);
    AddressStep(src, dec + 3);
    AddressStep(src, dec + 4);
    AddressStep(src, dec + 5);
    AddressStep(src, dec + 6);
  }

  lemma EndingSizes(src: Source, dec: nat, x: int)
    requires Sized(src) && Ending(src, dec, x)
    ensures SizeAt(src, dec) == 1 && SizeAt(src, dec + 1) == 1 && SizeAt(src, dec + 2) == 2 && SizeAt(src, dec + 3) == 2
    ensures SizeAt(src, dec + 4) == 2 && SizeAt(src, dec + 5) == 0 && SizeAt(src, dec + 6) == 1
  {
    hide Address, Ending, Reg;
    EndingLines(src, dec, x);
  }

  /** The lines of the ending, one by one. */
  lemma EndingLines(src: Source, dec: nat, x: int)
    requires Ending(src, dec, x)
    ensures |src| == dec + 7
    ensures src[dec] == Ins(DEC, [Reg(12)]) && src[dec + 1] == Ins(JRNZ, [Name(LOOP)])
    ensures src[dec + 2] == LoadImm(13, x) && src[dec + 3] == Ins(JMPA, [Name(EXIT)])
    ensures src[dec + 4] == LoadImm(13, 0xDEAD) && src[dec + 5] == LabelLine(EXIT)
    ensures src[dec + 6] == Line([HALT], Some(JR), [Name(HALT)])
  {
    hide Ins, LoadImm, LabelLine;
  }

  /** Where the labels of the loop and the ending are defined. */
  lemma ShapeLabels(src: Source, n0: nat, dec: nat, loops: int, x: int, high: bool)
    requires Shape(src, n0, dec, loops, x, high)
    ensures UniqueLabels(src) && Ending(src, dec, x) && n0 < dec && |src| == dec + 7
    ensures Defines(src[n0], LOOP) && Defines(src[dec + 5], EXIT)
  {
    hide Setup, BodyLine, HighBefore, UniqueLabels;
  }

  /** DEC R12 and JRNZ LOOP: back to the loop until R12 reaches zero. */
  lemma Turn(src: Source, n0: nat, dec: nat, loops: int, x: int, high: bool, s: Arch) returns (path: seq<nat>)
    requires Sized(src) && ProgramSize(src) <= 0x100 && Shape(src, n0, dec, loops, x, high)
    requires s.pc == Address(src, dec) && Ready(s, high)
    ensures |path| == 2 && Follow(src, path, s).Some?
    ensures var t, r := Follow(src, path, s).value, Wrap(s.regs[12] as int - 1);
            && Ready(t, high) && t.regs[12] == r
            && t.pc == if r == 0 then Address(src, dec + 2) else Address(src, n0)
  {
    hide Address, ProgramSize, Ending, Shape, UniqueLabels, Follow, Perform, Reg, Name, Ins;
    ShapeLabels(src, n0, dec, loops, x, high);
    EndingLines(src, dec, x);
    EndingSize(src, dec, x);
    DecStep(src, dec, s);
    var t := Perform(src, dec, s).value;
    FollowOne(src, dec, s);
    DenotesUnique(src, dec + 1, n0, LOOP);
    NextAddress(src, n0);
    LoopStep(src, dec + 1, n0, t);
    FollowOne(src, dec + 1, t);
    FollowAppend(src, [dec], [dec + 1], s);
    path := [dec] + [dec + 1];
  }

  lemma DecStep(src: Source, dec: nat, s: Arch)
    requires Sized(src) && dec < |src| && src[dec] == Ins(DEC, [Reg(12)])
    ensures Perform(src, dec, s).Some?
    ensures var t, r := Perform(src, dec, s).value, Wrap(s.regs[12] as int - 1);
            && t.pc == Wrap(s.pc + 1) && t.regs == s.regs[12 := r] && (t.flags.z == 0 <==> r != 0)
  {
    hide Address;
  }

  lemma LoopStep(src: Source, j: nat, n0: nat, s: Arch)
    requires Sized(src) && j < |src| && src[j] == Ins(JRNZ, [Name(LOOP)])
    requires n0 < |src| && Denotes(src, j, Name(LOOP)) == Some(Address(src, n0))
    ensures Perform(src, j, s) == Some(s.(pc := if s.flags.z == 0 then Wrap(Address(src, n0)) else Wrap(s.pc + 1)))
  {
    hide Address, Denotes;
  }

  /** The loop ends after Iterations(R12) rounds of at most 128 steps. */
  lemma {:induction false} LoopRuns(src: Source, table: Table, n0: nat, dec: nat, loops: int, x: int, high: bool,
                                    s: Arch)
    returns (path: seq<nat>)
    requires Accepted(src, table) && Shape(src, n0, dec, loops, x, high)
    requires s.pc == Address(src, n0) && Ready(s, high)
    ensures Follow(src, path, s).Some?
    ensures var t := Follow(src, path, s).value; t.pc == Address(src, dec + 2) && t.regs[12] == 0
    ensures |path| <= 128 * Iterations(s.regs[12])
    decreases Iterations(s.regs[12])
  {
    hide Address, Accepted, Setup, BodyLine, HighBefore, Follow, Perform, ProgramSize, Ready, UniqueLabels;
    assert Sized(src) by { AcceptedIsSized(src, table); }
    ProgramIsShort(src, table, n0, dec, loops, x, high);
    LoopFits(src, table, n0, dec, loops, x, high);
    EndingSize(src, dec, x);
    NextAddress(src, n0);
    var body := BodyRuns(src, n0, dec, loops, x, high, n0 + 1, s);
    var t := Follow(src, body, s).value;
    var turn := Turn(src, n0, dec, loops, x, high, t);
    FollowAppend(src, body, turn, s);
    path := body + turn;
    var u := Follow(src, path, s).value;
    assert |path| <= 128;
    if u.regs[12] != 0 {
      var rest := LoopRuns(src, table, n0, dec, loops, x, high, u);
      FollowAppend(src, path, rest, s);
      path := path + rest;
    }
  }

  // ----- the ending -----

  lemma EndingRuns(src: Source, n0: nat, dec: nat, loops: int, x: int, high: bool, s: Arch) returns (path: seq<nat>)
    requires Sized(src) && ProgramSize(src) <= 0x100 && Shape(src, n0, dec, loops, x, high)
    requires s.pc == Address(src, dec + 2)
    ensures |path| == 2 && Follow(src, path, s).Some?
    ensures var t := Follow(src, path, s).value;
            t.pc == Address(src, dec + 6) && t.regs == s.regs[13 := Wrap(x)]
  {
    hide Address, ProgramSize, Ending, Shape, UniqueLabels, Follow, Perform, Reg, Name, Ins;
    ShapeLabels(src, n0, dec, loops, x, high);
    EndingLines(src, dec, x);
    EndingSize(src, dec, x);
    LoadLine(src, dec + 2, s, 13, x);
    FollowOne(src, dec + 2, s);
    var t := Perform(src, dec + 2, s).value;
    DenotesUnique(src, dec + 3, dec + 5, EXIT);
    ExitStep(src, dec + 3, t);
    FollowOne(src, dec + 3, t);
    FollowAppend(src, [dec + 2], [dec + 3], s);
    path := [dec + 2] + [dec + 3];
  }

  lemma ExitStep(src: Source, j: nat, s: Arch)
    requires Sized(src) && j < |src| && src[j] == Ins(JMPA, [Name(EXIT)]) && Denotes(src, j, Name(EXIT)).Some?
    ensures Perform(src, j, s) == Some(s.(pc := Wrap(Denotes(src, j, Name(EXIT)).value)))
  {
    hide Address, Denotes;
  }

  /** The line HALT: JR HALT is the word 0x40FF. */
  lemma HaltLine(src: Source, table: Table, n0: nat, dec: nat, loops: int, x: int, high: bool, s: Arch)
    requires Accepted(src, table) && Shape(src, n0, dec, loops, x, high) && Loaded(src, table, s.mem)
    requires s.pc == Address(src, dec + 6)
    ensures AtHalt(s)
  {
    hide Address, IsTable, Setup, BodyLine, HighBefore, ResolveTarget, EncodeLine, EncodeRelative, Loaded, Denotes;
    var j := dec + 6;
    assert Defines(src[j], HALT);
    DenotesUnique(src, j, j, HALT);
    assert At(src, table, j, s);
    WordsInMemory(src, table, j, s);
    assert ValueAt(src, j, 0) == Some(Address(src, j));
    HaltEncodes(src[j], s.pc, table);
    RelativeWord(0x4000, src[j].operands, s.pc, s.pc + 1, [], table);
  }

  lemma HaltEncodes(line: Line, address: nat, table: Table)
    requires line.mnemonic == Some(JR)
    ensures EncodeLine(line, address, table) == EncodeRelative(0x4000, line.operands, address, address + 1, [], table)
  {
    hide EncodeRelative;
  }

  // ----- the theorem -----

  /** The state in which the reference model and the RTL start on an assembled program. */
  ghost function Start(src: Source, table: Table): Arch
    requires Accepted(src, table)
  {
    InitArch(ImageMem(Code(src, table, |src|)))
  }

  lemma StartIsLoaded(src: Source, table: Table)
    requires Accepted(src, table) && ProgramSize(src) <= 0x1_0000
    ensures Loaded(src, table, Start(src, table).mem)
  {
    hide IsTable, EncodeLine, Address;
    CodeLength(src, table, |src|);
  }

  /** A path from the start to the halting line. */
  lemma WholeRun(src: Source, table: Table, n0: nat, dec: nat, loops: int, x: int, high: bool)
    returns (path: seq<nat>)
    requires Accepted(src, table) && Shape(src, n0, dec, loops, x, high)
    ensures var s := Start(src, table);
            && Follow(src, path, s).Some? && Follow(src, path, s).value.pc == Address(src, dec + 6)
            && Follow(src, path, s).value.regs[12] == 0 && Follow(src, path, s).value.regs[13] == Wrap(x)
            && |path| <= 23 + 128 * Iterations(Wrap(loops))
  {
    hide Address, Accepted, Setup, BodyLine, HighBefore, Follow, Perform, ProgramSize, UniqueLabels;
    assert Sized(src) by { AcceptedIsSized(src, table); }
    ProgramIsShort(src, table, n0, dec, loops, x, high);
    var s := Start(src, table);
    path := SetupRuns(src, n0, loops, n0, s);
    var t := Follow(src, path, s).value;
    var loop := LoopRuns(src, table, n0, dec, loops, x, high, t);
    FollowAppend(src, path, loop, s);
    path := path + loop;
    var u := Follow(src, path, s).value;
    var ending := EndingRuns(src, n0, dec, loops, x, high, u);
    FollowAppend(src, path, ending, s);
    path := path + ending;
  }

  /** k instructions come before the first 0x40FF, none of them unsupported or a RET, all with the program intact. */
  ghost predicate HaltsCleanly(src: Source, table: Table, k: nat)
    requires Accepted(src, table)
  {
    var s := Start(src, table);
    && FirstHalt(s, k) && Reference.AllSupported(s, k) && Golden.AllKnown(s, k)
    && forall j: nat :: Loaded(src, table, Run(s, j).mem)
  }

  /** No generated program contains a RET, the one instruction that the golden model lacks. */
  lemma NoReturnLine(src: Source, n0: nat, dec: nat, loops: int, x: int, high: bool, i: nat)
    requires Shape(src, n0, dec, loops, x, high) && i < |src|
    ensures src[i].mnemonic != Some(RET)
  {
    hide UniqueLabels, HighBefore;
    if i < n0 {
      assert src[i] == src[..n0][i];
      assert i >= 3 ==> SetupLine(src[..n0], i);
    } else if n0 < i < dec {
      assert BodyLine(src, i, high);
    }
  }

  lemma NoReturns(src: Source, table: Table, n0: nat, dec: nat, loops: int, x: int, high: bool, path: seq<nat>)
    requires Accepted(src, table) && Shape(src, n0, dec, loops, x, high)
    requires var s := Start(src, table); Loaded(src, table, s.mem) && Follow(src, path, s).Some?
    ensures Golden.AllKnown(Start(src, table), |path|)
  {
    hide Accepted, Shape, Follow, Loaded, Step, Supported, Current, Start;
    var s := Start(src, table);
    ProgramMeans(src, table, path, s);
    forall j: nat | j < |path|
      ensures Golden.Known(Run(s, j))
    {
      NoReturnLine(src, n0, dec, loops, x, high, path[j]);
    }
  }

  lemma ShapeHalts(src: Source, table: Table, n0: nat, dec: nat, loops: int, x: int, high: bool) returns (k: nat)
    requires Accepted(src, table) && Shape(src, n0, dec, loops, x, high)
    ensures HaltsCleanly(src, table, k) && k + 1 <= 24 + 128 * Iterations(Wrap(loops))
    ensures var t := Run(Start(src, table), k); t.regs[12] == 0 && t.regs[13] == Wrap(x)
  {
    hide Address, Accepted, Shape, Follow, Perform, Loaded, ProgramSize, AtHalt, Step, Supported;
    assert Sized(src) by { AcceptedIsSized(src, table); }
    ProgramIsShort(src, table, n0, dec, loops, x, high);
    StartIsLoaded(src, table);
    var s := Start(src, table);
    var path := WholeRun(src, table, n0, dec, loops, x, high);
    ProgramMeans(src, table, path, s);
    HaltLine(src, table, n0, dec, loops, x, high, Run(s, |path|));
    k := FirstHaltBefore(s, |path|);
    HaltStays(s, k, |path|);
    NoReturns(src, table, n0, dec, loops, x, high, path);
    forall j: nat
      ensures Loaded(src, table, Run(s, j).mem)
    {
      if j <= |path| {
        FollowPrefix(src, path, s, j);
        ProgramMeans(src, table, path[..j], s);
      } else {
        HaltStays(s, |path|, j);
      }
    }
  }

  /**
   * Every generated program that the assembler accepts halts: the first 0x40FF is among the first 24 + 128 * n
   * instructions, for the n rounds that the value it loads into R12 stands for.
   */
  lemma GeneratedProgramsHalt(config: Config, c: Choices, table: Table) returns (k: nat)
    requires Possible(c, config) && Accepted(Program(config, c), table)
    ensures var src := Program(config, c);
            && |src| > 2 && src[2] == LoadImm(12, c.loops)
            && HaltsCleanly(src, table, k) && k + 1 <= 24 + 128 * Iterations(Wrap(c.loops))
            && var t := Run(Start(src, table), k); t.regs[12] == 0 && t.regs[13] == c.last
  {
    hide Shape, Accepted, HaltsCleanly, Start, TargetedSetup, PoolLines, HighSetup, BodyLines, Tail;
    ProgramHasShape(config, c);
    k := ShapeHalts(Program(config, c), table, |SetupLines(config, c)|, DecLine(config, c), c.loops, c.last,
                    "mem_addr_high" in config.targetedBins);
  }

  /** The reference model returns normally on it whenever the step budget covers the bound and the repeats. */
  lemma GeneratedProgramsPass(config: Config, c: Choices, table: Table, maxSteps: int, threshold: int,
                              outcome: Reference.RunOutcome, n: nat)
    requires Possible(c, config) && Accepted(Program(config, c), table) && threshold >= 1
    requires Reference.RunEnds(Start(Program(config, c), table), maxSteps, threshold, outcome, n)
    ensures var src := Program(config, c); |src| > 2 && src[2] == LoadImm(12, c.loops)
    ensures maxSteps >= 23 + 128 * Iterations(Wrap(c.loops)) + threshold ==> outcome.Halted?
  {
    hide Possible, Program, Accepted, Start, FirstHalt, Reference.AllSupported, Reference.RunEnds;
    var k := GeneratedProgramsHalt(config, c, table);
    HaltDetectionIsExact(Start(Program(config, c), table), maxSteps, threshold, outcome, n);
  }

  /** The lock-step checker reports PASS on it whenever the bound and the repeats fit under its retirement cap. */
  lemma GeneratedProgramsPassLockstep(config: Config, c: Choices, table: Table, v: Lockstep.Verdict)
    requires Possible(c, config) && Accepted(Program(config, c), table)
    requires Lockstep.VerdictFor(Start(Program(config, c), table), v)
    ensures var src := Program(config, c); |src| > 2 && src[2] == LoadImm(12, c.loops)
    ensures 23 + 128 * Iterations(Wrap(c.loops)) + 3 <= 4000 ==> v.Pass?
  {
    hide Possible, Program, Accepted, Start, FirstHalt, Golden.AllKnown, Lockstep.VerdictFor;
    var k := GeneratedProgramsHalt(config, c, table);
    Lockstep.PassIsExact(Start(Program(config, c), table), v);
  }

  /** The RTL, one cycle after reset on the assembled image, fetches the halting jump within the same bound. */
  lemma GeneratedProgramsHaltInRtl(config: Config, c: Choices, table: Table, system: System) returns (cycles: nat)
    requires Possible(c, config) && Accepted(Program(config, c), table)
    requires AtFetch(system) && ArchOf(system) == Start(Program(config, c), table)
    ensures var src := Program(config, c); |src| > 2 && src[2] == LoadImm(12, c.loops)
    ensures AtFetch(Ticks(system, cycles)) && AtHalt(ArchOf(Ticks(system, cycles)))
    ensures cycles <= 5 * (23 + 128 * Iterations(Wrap(c.loops)))
  {
    hide Possible, Program, Accepted, Start, Reference.AllSupported, Step, Tick, AtHalt, CyclesOf, Loaded;
    var k := GeneratedProgramsHalt(config, c, table);
    cycles := TotalCycles(Start(Program(config, c), table), k);
    RunRefines(system, k);
    CycleBounds(Start(Program(config, c), table), k);
  }
}
