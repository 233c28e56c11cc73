/** What the conditional blocks of generated programs do, and which coverage targets they can reach. */
module GeneratorTargets {
  import opened Words
  import opened Results
  import opened Isa
  import opened Assembler
  import opened SourceMachine
  import opened AssemblerCorrect
  import opened Generator
  import opened GeneratorShape
  import opened GeneratorHalts

  /** When the branch of a block is taken, by the registers that the block finds. */
  function Taken(bins: set<string>, o: Operation, regs: Regs): bool
    requires o.FlagBranch?
  {
    var b: int, a: int := regs[o.dst], regs[Distinct(o.dst, o.src)];
    if "jrz_taken" in bins then true
    else if "jrnz_taken" in bins then b != a
    else if "jrc_taken" in bins || "jrnc_not_taken" in bins || "jrnc_taken" in bins || "jrc_not_taken" in bins then true
    else if "jrs_taken" in bins || "jrns_taken" in bins then true
    else
      match o.branch
      case JRZ => b == a
      case JRNZ => b != a
      case JRC => b < a
      case JRNC => b >= a
      case JRS => Signed(Wrap(b - a)) < 0
      case _ => Signed(Wrap(b - a)) >= 0
  }

  // ----- the lines of a block -----

  /** The carry, zero and sign that comparing b with a leaves. */
  predicate Compared(f: Flags, b: int, a: int) {
    (f.c == 1 <==> b < a) && (f.z == 1 <==> b == a) && (f.s == 1 <==> Signed(Wrap(b - a)) < 0)
  }

  lemma CompareLine(src: Source, i: nat, s: Arch, x: RegIndex, y: RegIndex)
    requires Sized(src) && i < |src| && src[i] == Ins(CMP, [Reg(x), Reg(y)])
    ensures SizeAt(src, i) == 1 && Perform(src, i, s).Some?
    ensures var t := Perform(src, i, s).value;
            && t.pc == Wrap(s.pc + 1) && t.regs == s.regs && t.mem == s.mem
            && Compared(t.flags, s.regs[x], s.regs[y])
  {
    hide Address;
  }

  lemma SubtractLine(src: Source, i: nat, s: Arch, x: RegIndex, y: RegIndex)
    requires Sized(src) && i < |src| && src[i] == Ins(SUB, [Reg(x), Reg(y)])
    ensures SizeAt(src, i) == 1 && Perform(src, i, s).Some?
    ensures var t := Perform(src, i, s).value;
            && t.pc == Wrap(s.pc + 1) && t.regs == s.regs[x := Wrap(s.regs[x] as int - s.regs[y])] && t.mem == s.mem
            && Compared(t.flags, s.regs[x], s.regs[y])
  {
    hide Address;
  }

  lemma CarryLine(src: Source, i: nat, s: Arch, one: bool)
    requires Sized(src) && i < |src| && src[i] == Ins(if one then STC else CLC, [])
    ensures SizeAt(src, i) == 1
    ensures Perform(src, i, s) == Some(s.(pc := Wrap(s.pc + 1), flags := s.flags.(c := if one then 1 else 0)))
  {
    hide Address;
  }

  lemma NextInside(src: Source, i: nat)
    requires Sized(src) && ProgramSize(src) <= 0x1_0000 && i + 1 < |src| && src[i + 1].mnemonic.Some?
    ensures Address(src, i + 1) == Address(src, i) + SizeAt(src, i) < 0x1_0000
  {
    AddressStep(src, i);
    AddressesRise(src, i + 1, |src|);
    InstructionsHaveSize(src[i + 1]);
  }

  // ----- the setup of a block -----

  /** The setup of the block for o stands at line k, with an instruction after it. */
  predicate SetupAt(src: Source, k: nat, bins: set<string>, o: Operation)
    requires o.FlagBranch?
  {
    var n := |FlagSetup(bins, o.dst, o.src)|;
    k + n < |src| && src[k..k + n] == FlagSetup(bins, o.dst, o.src) && src[k + n].mnemonic.Some?
  }

  predicate BranchHolds(bins: set<string>, o: Operation, f: Flags)
    requires o.FlagBranch?
  {
    var cond := ConditionOf(BlockBranch(bins, o.branch));
    cond.Some? && Holds(cond.value, f)
  }

  lemma ZeroDecides(bins: set<string>, o: Operation, regs: Regs, f: Flags)
    requires o.FlagBranch? && TargetsZero(bins)
    requires Compared(f, regs[o.dst], regs[if "jrz_taken" in bins then o.dst else Distinct(o.dst, o.src)])
    ensures BranchHolds(bins, o, f) <==> Taken(bins, o, regs)
  {
    hide Distinct;
  }

  lemma CarryDecides(bins: set<string>, o: Operation, regs: Regs, f: Flags)
    requires o.FlagBranch? && !TargetsZero(bins) && TargetsCarry(bins)
    requires f.c == if "jrc_taken" in bins || "jrnc_not_taken" in bins then 1 else 0
    ensures BranchHolds(bins, o, f) <==> Taken(bins, o, regs)
  {}

  lemma SignDecides(bins: set<string>, o: Operation, regs: Regs, f: Flags)
    requires o.FlagBranch? && !TargetsZero(bins) && !TargetsCarry(bins) && TargetsSign(bins)
    requires Compared(f, if "jrs_taken" in bins then 0 else 1, 1)
    ensures BranchHolds(bins, o, f) <==> Taken(bins, o, regs)
  {}

  lemma RandomDecides(bins: set<string>, o: Operation, regs: Regs, f: Flags)
    requires o.FlagBranch? && Allowed(o, bins) && !TargetsZero(bins) && !TargetsCarry(bins) && !TargetsSign(bins)
    requires Compared(f, regs[o.dst], regs[Distinct(o.dst, o.src)])
    ensures BranchHolds(bins, o, f) <==> Taken(bins, o, regs)
  {
    hide Distinct;
  }

  /** A block changes no register, unless a sign target makes it compare or subtract two constants. */
  function BlockRegs(bins: set<string>, regs: Regs): Regs {
    if TargetsZero(bins) || TargetsCarry(bins) then regs
    else if "jrs_taken" in bins then regs[0 := 0xFFFF][1 := 0x0001]
    else if "jrns_taken" in bins then regs[0 := 0x0001][1 := 0x0001]
    else regs
  }

  lemma OneLineDecides(src: Source, k: nat, bins: set<string>, o: Operation, s: Arch)
    requires Sized(src) && ProgramSize(src) <= 0x1_0000 && o.FlagBranch? && Allowed(o, bins)
    requires SetupAt(src, k, bins, o) && s.pc == Address(src, k) && |FlagSetup(bins, o.dst, o.src)| == 1
    ensures Perform(src, k, s).Some?
    ensures var t := Perform(src, k, s).value;
            && t.pc == Address(src, k + 1) && t.regs == s.regs && t.mem == s.mem
            && (BranchHolds(bins, o, t.flags) <==> Taken(bins, o, s.regs))
  {
    hide Address, ProgramSize, Perform, LoadImm, Ins, Distinct, BranchHolds, Taken, Compared, Allowed;
    assert src[k..k + 1][0] == src[k];
    NextInside(src, k);
    if TargetsZero(bins) {
      var y := if "jrz_taken" in bins then o.dst else Distinct(o.dst, o.src);
      CompareLine(src, k, s, o.dst, y);
      ZeroDecides(bins, o, s.regs, Perform(src, k, s).value.flags);
    } else if TargetsCarry(bins) {
      CarryLine(src, k, s, "jrc_taken" in bins || "jrnc_not_taken" in bins);
      CarryDecides(bins, o, s.regs, Perform(src, k, s).value.flags);
    } else {
      CompareLine(src, k, s, o.dst, Distinct(o.dst, o.src));
      RandomDecides(bins, o, s.regs, Perform(src, k, s).value.flags);
    }
  }

  /** Two loads and a comparison or subtraction of constants. */
  lemma ThreeLinesDecide(src: Source, k: nat, bins: set<string>, o: Operation, s: Arch) returns (path: seq<nat>)
    requires Sized(src) && ProgramSize(src) <= 0x1_0000 && o.FlagBranch? && Allowed(o, bins)
    requires SetupAt(src, k, bins, o) && s.pc == Address(src, k) && |FlagSetup(bins, o.dst, o.src)| == 3
    ensures |path| == 3 && Follow(src, path, s).Some?
    ensures var t := Follow(src, path, s).value;
            && t.pc == Address(src, k + 3) && t.regs == BlockRegs(bins, s.regs) && t.mem == s.mem
            && (BranchHolds(bins, o, t.flags) <==> Taken(bins, o, s.regs))
  {
    hide Address, ProgramSize, Perform, Follow, LoadImm, Ins, Distinct, BranchHolds, Taken, Compared, Allowed;
    var ls := FlagSetup(bins, o.dst, o.src);
    var v := if "jrs_taken" in bins then 0x0000 else 0x0001;
    assert src[k..k + 3][0] == src[k] && src[k..k + 3][1] == src[k + 1] && src[k..k + 3][2] == src[k + 2];
    LoadLine(src, k, s, 0, v);
    assert src[k + 1] == LoadImm(1, 0x0001) && src[k + 1].mnemonic.Some? by { LoadsHaveMnemonic(1, 0x0001); }
    NextInside(src, k);
    var t := Perform(src, k, s).value;
    FollowOne(src, k, s);
    LoadLine(src, k + 1, t, 1, 0x0001);
    assert src[k + 2].mnemonic.Some? by { InsHasMnemonic(SUB); InsHasMnemonic(CMP); }
    NextInside(src, k + 1);
    var u := Perform(src, k + 1, t).value;
    FollowOne(src, k + 1, t);
    FollowAppend(src, [k], [k + 1], s);
    if "jrs_taken" in bins {
      SubtractLine(src, k + 2, u, 0, 1);
    } else {
      CompareLine(src, k + 2, u, 0, 1);
    }
    SignDecides(bins, o, s.regs, Perform(src, k + 2, u).value.flags);
    NextInside(src, k + 2);
    FollowOne(src, k + 2, u);
    FollowAppend(src, [k] + [k + 1], [k + 2], s);
    path := [k] + [k + 1] + [k + 2];
  }

  lemma LoadsHaveMnemonic(r: RegIndex, v: int)
    ensures LoadImm(r, v).mnemonic.Some?
  {}

  lemma InsHasMnemonic(m: Mnemonic)
    ensures forall ops :: Ins(m, ops).mnemonic.Some?
  {}

  /** The setup of a block falls through to its branch, which then holds exactly when it is to be taken. */
  lemma SetupDecides(src: Source, k: nat, bins: set<string>, o: Operation, s: Arch) returns (path: seq<nat>)
    requires Sized(src) && ProgramSize(src) <= 0x1_0000 && o.FlagBranch? && Allowed(o, bins)
    requires SetupAt(src, k, bins, o) && s.pc == Address(src, k)
    ensures var n := |FlagSetup(bins, o.dst, o.src)|;
            && |path| == n && Follow(src, path, s).Some?
            && var t := Follow(src, path, s).value;
               && k + n < |src| && t.pc == Address(src, k + n) && t.regs == BlockRegs(bins, s.regs) && t.mem == s.mem
               && (BranchHolds(bins, o, t.flags) <==> Taken(bins, o, s.regs))
  {
    hide Address, ProgramSize, Perform, Follow, BranchHolds, Taken, LoadImm, Ins;
    if |FlagSetup(bins, o.dst, o.src)| == 3 {
      path := ThreeLinesDecide(src, k, bins, o, s);
    } else {
      OneLineDecides(src, k, bins, o, s);
      FollowOne(src, k, s);
      path := [k];
    }
  }

  // ----- a whole block -----

  /** The lines of operation o, the idx-th of the body, stand at line k. */
  predicate OperationAt(src: Source, k: nat, idx: nat, bins: set<string>, o: Operation) {
    var ls := OperationLines(idx, bins, o);
    k + |ls| <= |src| && src[k..k + |ls|] == ls
  }

  lemma BlockLines(src: Source, k: nat, idx: nat, bins: set<string>, o: Operation)
    requires o.FlagBranch? && Allowed(o, bins) && OperationAt(src, k, idx, bins, o)
    ensures var b := k + |FlagSetup(bins, o.dst, o.src)|;
            && SetupAt(src, k, bins, o) && b + 2 < |src| && SkipBranch(src, b)
            && src[b].mnemonic == Some(BlockBranch(bins, o.branch)) && ConditionOf(src[b].mnemonic.value).Some?
            && src[b + 1] == Ins(if o.carry then CLC else STC, [])
  {
    hide FlagSetup, SkipLabel;
    var setup, skip := FlagSetup(bins, o.dst, o.src), SkipLines(idx, BlockBranch(bins, o.branch), o.carry);
    var n := |setup|;
    var block := src[k..k + n + 3];
    assert block == setup + skip && src[k..k + n] == block[..n];
    assert src[k + n] == block[n] == skip[0] && src[k + n + 1] == block[n + 1] == skip[1];
    assert src[k + n + 2] == block[n + 2] == skip[2];
  }

  /**
   * A block runs to its own label: over the change of the carry flag exactly when the branch is to be taken, and
   * through it otherwise.
   */
  lemma BlockRuns(src: Source, k: nat, idx: nat, bins: set<string>, o: Operation, s: Arch) returns (path: seq<nat>)
    requires Sized(src) && ProgramSize(src) <= 0x100 && UniqueLabels(src) && o.FlagBranch? && Allowed(o, bins)
    requires OperationAt(src, k, idx, bins, o) && k < |src| && s.pc == Address(src, k)
    ensures var end := k + |FlagSetup(bins, o.dst, o.src)| + 2;
            && end < |src| && Follow(src, path, s).Some?
            && |path| == end - k - (if Taken(bins, o, s.regs) then 1 else 0)
            && var t := Follow(src, path, s).value;
               && t.pc == Address(src, end) && t.regs == BlockRegs(bins, s.regs) && t.mem == s.mem
               && (!Taken(bins, o, s.regs) ==> t.flags.c == if o.carry then 0 else 1)
  {
    hide Address, ProgramSize, Perform, Follow, FlagSetup, Taken, UniqueLabels, SkipBranch, SetupAt, OperationAt, Ins;
    BlockLines(src, k, idx, bins, o);
    var b := k + |FlagSetup(bins, o.dst, o.src)|;
    path := SetupDecides(src, k, bins, o, s);
    var t := Follow(src, path, s).value;
    var next := SkipBodyStep(src, b, t);
    FollowOne(src, b, t);
    FollowAppend(src, path, [b], s);
    path := path + [b];
    if next == b + 1 {
      var u := Perform(src, b, t).value;
      CarryLine(src, b + 1, u, !o.carry);
      NextAddress(src, b + 1);
      FollowOne(src, b + 1, u);
      FollowAppend(src, path, [b + 1], s);
      path := path + [b + 1];
    }
  }

  // ----- targets -----

  /** With these targets, from some registers, a block has the branch m and does or does not take it. */
  predicate BlockCan(bins: set<string>, m: Mnemonic, taken: bool, o: Operation, regs: Regs) {
    o.FlagBranch? && Allowed(o, bins) && BlockBranch(bins, o.branch) == m && Taken(bins, o, regs) == taken
  }

  ghost predicate CanMeet(bins: set<string>, m: Mnemonic, taken: bool) {
    exists o, regs :: BlockCan(bins, m, taken, o, regs)
  }

  /**
   * Which targets blocks can meet, for every set of targets: zero targets shadow carry targets, these shadow sign
   * targets, and the first of each pair shadows the second. No target for a branch passed by is ever met.
   */
  lemma TargetsMet(bins: set<string>)
    ensures "jrz_taken" in bins ==> CanMeet(bins, JRZ, true)
    ensures "jrnz_taken" in bins ==> (CanMeet(bins, JRNZ, true) <==> "jrz_taken" !in bins)
    ensures "jrc_taken" in bins ==> (CanMeet(bins, JRC, true) <==> !TargetsZero(bins))
    ensures "jrnc_taken" in bins ==>
              (CanMeet(bins, JRNC, true) <==> !TargetsZero(bins) && "jrc_taken" !in bins && "jrnc_not_taken" !in bins)
    ensures "jrs_taken" in bins ==> (CanMeet(bins, JRS, true) <==> !TargetsZero(bins) && !TargetsCarry(bins))
    ensures "jrns_taken" in bins ==>
              (CanMeet(bins, JRNS, true) <==> !TargetsZero(bins) && !TargetsCarry(bins) && "jrs_taken" !in bins)
    ensures "jrc_not_taken" in bins ==> !CanMeet(bins, JRC, false)
    ensures "jrnc_not_taken" in bins ==> !CanMeet(bins, JRNC, false)
  {
    var o, regs := FlagBranch(0, 1, JRZ, false), ZeroRegs()[1 := 1];
    assert TargetsZero(bins) || TargetsCarry(bins) || TargetsSign(bins) ==>
        BlockCan(bins, BlockBranch(bins, JRZ), true, o, regs);
  }

  /** Without any of these targets, every branch can be taken and can be passed by. */
  lemma UntargetedMeetsAll(bins: set<string>, m: Mnemonic, taken: bool)
    requires !TargetsZero(bins) && !TargetsCarry(bins) && !TargetsSign(bins) && m in BRANCH_OPS
    ensures CanMeet(bins, m, taken)
  {
    var o := FlagBranch(0, 1, m, false);
    var regs := if taken == (m in {JRZ, JRNC, JRNS}) then ZeroRegs() else ZeroRegs()[1 := 1];
    assert BlockCan(bins, m, taken, o, regs);
  }

  /** Whatever else is targeted, blocks miss the two not-taken targets: such a JRC is taken, and no JRNC is emitted. */
  lemma NotTakenTargetsMiss(bins: set<string>, o: Operation, regs: Regs)
    requires o.FlagBranch?
    ensures "jrc_not_taken" in bins && BlockBranch(bins, o.branch) == JRC ==> Taken(bins, o, regs)
    ensures "jrnc_not_taken" in bins ==> BlockBranch(bins, o.branch) != JRNC
  {}

  // ----- where blocks stand -----

  predicate IsBranch(l: Line) {
    l.mnemonic.Some? && ConditionOf(l.mnemonic.value).Some?
  }

  lemma {:induction false} StraightIsNoBranch(ls: Source, high: bool, i: nat)
    requires AllStraight(ls, high) && i < |ls|
    ensures !IsBranch(ls[i])
  {
    assert Straight(ls[i], high);
  }

  lemma OperationShifts(src: Source, k: nat, idx: nat, bins: set<string>, o: Operation, pre: Source, post: Source)
    requires OperationAt(src, k, idx, bins, o)
    ensures OperationAt(pre + src + post, |pre| + k, idx, bins, o)
  {
    hide OperationLines;
    var all, n := pre + src + post, |OperationLines(idx, bins, o)|;
    assert all[|pre| + k..|pre| + k + n] == src[k..k + n];
  }

  /** Every operation stands in the loop body, after the lines of those before it. */
  lemma {:induction false} OperationStands(bins: set<string>, operations: seq<Operation>, j: nat)
    requires j < |operations|
    ensures OperationAt(BodyLines(bins, operations), |BodyLines(bins, operations[..j])|, j, bins, operations[j])
  {
    hide OperationLines;
    var idx := |operations| - 1;
    var front, ls := BodyLines(bins, operations[..idx]), OperationLines(idx, bins, operations[idx]);
    if j == idx {
      assert (front + ls)[|front|..|front| + |ls|] == ls;
    } else {
      assert operations[..idx][..j] == operations[..j];
      OperationStands(bins, operations[..idx], j);
      OperationShifts(front, |BodyLines(bins, operations[..j])|, j, bins, operations[j], [], ls);
      assert [] + front + ls == front + ls;
    }
  }

  /** The first line of operation j of a program; for the number of operations, the line of DEC R12. */
  function OperationLine(config: Config, c: Choices, j: nat): nat
    requires Possible(c, config) && j <= |c.operations|
  {
    |SetupLines(config, c)| + 1 + |BodyLines(config.targetedBins, c.operations[..j])|
  }

  /** Every operation stands in the program, one after the other, and DEC R12 after the last. */
  lemma OperationStandsInProgram(config: Config, c: Choices, j: nat)
    requires Possible(c, config) && j < |c.operations|
    ensures OperationAt(Program(config, c), OperationLine(config, c, j), j, config.targetedBins, c.operations[j])
    ensures OperationLine(config, c, j + 1)
         == OperationLine(config, c, j) + |OperationLines(j, config.targetedBins, c.operations[j])|
    ensures OperationLine(config, c, |c.operations|) == DecLine(config, c)
  {
    hide SetupLines, OperationAt, OperationLines, Tail, Allowed;
    var bins, pre := config.targetedBins, SetupLines(config, c) + [LabelLine(LOOP)];
    OperationStands(bins, c.operations, j);
    OperationShifts(BodyLines(bins, c.operations), |BodyLines(bins, c.operations[..j])|, j, bins, c.operations[j], pre,
                    Tail(c.last));
    assert c.operations[..j + 1][..j] == c.operations[..j];
    assert c.operations[..|c.operations|] == c.operations;
  }

  /** Every branch of the loop body is the branch of a block. */
  lemma {:induction false} BodyBranches(bins: set<string>, operations: seq<Operation>, i: nat) returns (j: nat, k: nat)
    requires forall k :: 0 <= k < |operations| ==> Allowed(operations[k], bins)
    requires i < |BodyLines(bins, operations)| && IsBranch(BodyLines(bins, operations)[i])
    ensures j < |operations| && operations[j].FlagBranch?
    ensures BodyLines(bins, operations)[i].mnemonic == Some(BlockBranch(bins, operations[j].branch))
    ensures OperationAt(BodyLines(bins, operations), k, j, bins, operations[j])
    ensures i == k + |FlagSetup(bins, operations[j].dst, operations[j].src)|
  {
    hide IsBranch, OperationLines, Allowed, FlagSetup;
    var idx := |operations| - 1;
    var front, ls := BodyLines(bins, operations[..idx]), OperationLines(idx, bins, operations[idx]);
    if i < |front| {
      j, k := BodyBranches(bins, operations[..idx], i);
      OperationShifts(front, k, j, bins, operations[j], [], ls);
      assert [] + front + ls == front + ls;
    } else {
      j, k := idx, |front|;
      OperationBranch(idx, bins, operations[idx], i - |front|);
      assert (front + ls)[k..k + |ls|] == ls;
    }
  }

  lemma OperationBranch(idx: nat, bins: set<string>, o: Operation, i: nat)
    requires Allowed(o, bins) && i < |OperationLines(idx, bins, o)| && IsBranch(OperationLines(idx, bins, o)[i])
    ensures o.FlagBranch? && OperationLines(idx, bins, o)[i].mnemonic == Some(BlockBranch(bins, o.branch))
    ensures i == |FlagSetup(bins, o.dst, o.src)|
  {
    hide FlagSetup, SkipLabel, ArithLines, UnaryLines, Allowed;
    var high := "mem_addr_high" in bins;
    if o.FlagBranch? {
      var setup := FlagSetup(bins, o.dst, o.src);
      assert AllStraight(setup, high) by { BlockSetupIsStraight(bins, o); }
      if i < |setup| {
        StraightIsNoBranch(setup, high, i);
      }
    } else {
      OperationIsStraight(idx, bins, o);
      StraightIsNoBranch(OperationLines(idx, bins, o), high, i);
    }
  }

  lemma BlockSetupIsStraight(bins: set<string>, o: Operation)
    requires o.FlagBranch? && Allowed(o, bins)
    ensures AllStraight(FlagSetup(bins, o.dst, o.src), "mem_addr_high" in bins)
  {
    hide FlagSetup;
    FlagSetupIsStraight(bins, o.dst, o.src, "mem_addr_high" in bins);
  }

  lemma SetupIsNoBranch(src: Source, loops: int, n: nat, i: nat)
    requires Setup(src, loops, n) && i < |src|
    ensures !IsBranch(src[i])
  {
    if i >= 3 {
      assert SetupLine(src, i);
    }
  }

  /** With jrnc_not_taken targeted, no program has a JRNC at all. */
  lemma NoJrncToMiss(config: Config, c: Choices, i: nat)
    requires Possible(c, config) && "jrnc_not_taken" in config.targetedBins && i < |Program(config, c)|
    ensures Program(config, c)[i].mnemonic != Some(JRNC)
  {
    hide BodyLines, Allowed, BlockBranch, SetupLines, Setup, UniqueLabels, BodyLine, HighBefore;
    var src, n0, dec, bins := Program(config, c), |SetupLines(config, c)|, DecLine(config, c), config.targetedBins;
    ProgramHasShape(config, c);
    if i < n0 {
      SetupIsNoBranch(src[..n0], c.loops, 21, i);
      assert src[i] == src[..n0][i];
    } else if n0 < i < dec && src[i].mnemonic == Some(JRNC) {
      assert src[i] == BodyLines(bins, c.operations)[i - n0 - 1];
      var j, k := BodyBranches(bins, c.operations, i - n0 - 1);
      NotTakenTargetsMiss(bins, c.operations[j], ZeroRegs());
    }
  }
}
