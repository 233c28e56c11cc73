/** The shape of generated programs: what every choice leads to. */
module GeneratorShape {
  import opened Words
  import opened Results
  import opened Assembler
  import opened SourceMachine
  import opened Generator
  import Hex

  predicate SetsHigh(l: Line) {
    l == LoadImm(13, 0xFF10)
  }

  /**
   * An unlabelled instruction that falls through, writes no register above the pool, and stores only through
   * R10, R11 or, when `high`, R13.
   */
  predicate Straight(l: Line, high: bool) {
    && l.labels == [] && l.mnemonic.Some?
    && var m, ops := l.mnemonic.value, l.operands;
       var r0, r1 := RegAt(ops, 0), RegAt(ops, 1);
       if TwoRegOpOf(m).Some? then |ops| == 2 && r0.Some? && r1.Some? && r0.value < POOL_SIZE
       else if OneRegOpOf(m).Some? then |ops| == 1 && r0.Some? && r0.value < POOL_SIZE
       else
         match m
         case CLC => ops == []
         case STC => ops == []
         case MVRD => |ops| == 2 && r0.Some? && r0.value < POOL_SIZE && ops[1].Number? && ops[1].value.Some?
         case LDRR => |ops| == 2 && r0.Some? && r1.Some? && r0.value < POOL_SIZE
         case STRR =>
           |ops| == 2 && r0.Some? && r1.Some? && (r0.value == 10 || r0.value == 11 || (high && r0.value == 13))
         case _ => false
  }

  predicate HighBefore(src: Source, k: nat) {
    exists j :: 3 <= j < k && j < |src| && SetsHigh(src[j])
  }

  /** A line of the setup part; R13 is a store address only after it has been set. */
  predicate SetupLine(src: Source, k: nat)
    requires k < |src|
  {
    SetsHigh(src[k]) || Straight(src[k], HighBefore(src, k))
  }

  /** A conditional branch over exactly the next line. */
  predicate SkipBranch(src: Source, k: nat)
    requires k < |src|
  {
    && src[k].labels == [] && src[k].mnemonic.Some? && ConditionOf(src[k].mnemonic.value).Some?
    && k + 2 < |src|
    && (src[k + 1] == Ins(CLC, []) || src[k + 1] == Ins(STC, []))
    && |src[k + 2].labels| == 1
    && var skip := src[k + 2].labels[0];
       src[k].operands == [Name(skip)] && src[k + 2] == LabelLine(skip)
  }

  predicate BodyLine(src: Source, k: nat, high: bool)
    requires k < |src|
  {
    Straight(src[k], high) || src[k].mnemonic.None? || SkipBranch(src, k)
  }

  predicate Opening(src: Source, loops: int) {
    OpeningLines(loops) <= src
  }

  predicate Unlabelled(src: Source, n: nat)
    requires n <= |src|
  {
    forall k :: 0 <= k < n ==> src[k].labels == []
  }

  /** The setup part: everything so far is setup, at most `n` lines. */
  predicate Setup(src: Source, loops: int, n: nat) {
    && Opening(src, loops) && |src| <= n && Unlabelled(src, |src|)
    && forall k :: 3 <= k < |src| ==> SetupLine(src, k)
  }

  ghost predicate UniqueLabels(src: Source) {
    forall i, j, name ::
      0 <= i < |src| && 0 <= j < |src| && Defines(src[i], name) && Defines(src[j], name) ==> i == j
  }

  ghost predicate LabelsBelow(src: Source, idx: nat) {
    forall k, name :: 0 <= k < |src| && Defines(src[k], name) ==>
      name == LOOP || exists j: nat :: j < idx && name == SkipLabel(j)
  }

  /** The loop so far, from the line of its label at n0 on. */
  ghost predicate Body(src: Source, n0: nat, idx: nat, high: bool) {
    && n0 < |src| && src[n0] == LabelLine(LOOP)
    && (forall k :: n0 < k < |src| ==> BodyLine(src, k, high))
    && UniqueLabels(src) && LabelsBelow(src, idx)
  }

  predicate Ending(src: Source, dec: nat, x: int) {
    |src| == dec + |Tail(x)| && forall k :: dec <= k < |src| ==> src[k] == Tail(x)[k - dec]
  }

  /** A generated program: setup lines 0..n0, the loop from n0 to dec, and the ending. */
  ghost predicate Shape(src: Source, n0: nat, dec: nat, loops: int, x: int, high: bool) {
    && 3 <= n0 < dec && n0 <= 21 && Ending(src, dec, x)
    && Setup(src[..n0], loops, 21)
    && src[n0] == LabelLine(LOOP)
    && (forall k :: n0 < k < dec ==> BodyLine(src, k, high))
    && (high ==> HighBefore(src[..n0], n0))
    && UniqueLabels(src)
  }

  // ----- appending to the parts -----

  lemma SkipLabelsDiffer(i: nat, j: nat)
    ensures SkipLabel(i) == SkipLabel(j) ==> i == j
    ensures SkipLabel(i) != LOOP && SkipLabel(i) != EXIT && SkipLabel(i) != HALT
  {
    if SkipLabel(i) == SkipLabel(j) {
      assert Hex.Numeral(10, i) == SkipLabel(i)[5..] == Hex.Numeral(10, j);
      Hex.NumeralInjective(10, i, j);
    }
    assert SkipLabel(i)[0] == 'S';
  }

  lemma SetupGrows(src: Source, loops: int, n: nat, l: Line)
    requires Setup(src, loops, n) && l.labels == [] && (SetsHigh(l) || Straight(l, HighBefore(src, |src|)))
    ensures Setup(src + [l], loops, n + 1)
  {
    var t := src + [l];
    forall k | 3 <= k < |t|
      ensures SetupLine(t, k)
    {
      if HighBefore(src, k) {
        var j :| 3 <= j < k && j < |src| && SetsHigh(src[j]);
        assert SetsHigh(t[j]);
      }
      if k < |src| {
        assert SetupLine(src, k);
        assert HighBefore(t, k) <==> HighBefore(src, k) by { SameHigh(src, t, k); }
      }
    }
  }

  lemma SameHigh(src: Source, t: Source, k: nat)
    requires k <= |src| <= |t| && forall j :: 0 <= j < k ==> src[j] == t[j]
    ensures HighBefore(t, k) <==> HighBefore(src, k)
  {
    if HighBefore(t, k) {
      var j :| 3 <= j < k && j < |t| && SetsHigh(t[j]);
      assert SetsHigh(src[j]);
    }
    if HighBefore(src, k) {
      var j :| 3 <= j < k && j < |src| && SetsHigh(src[j]);
      assert SetsHigh(t[j]);
    }
  }

  lemma SkipBranchKept(src: Source, t: Source, k: nat)
    requires k < |src| <= |t| && src == t[..|src|] && SkipBranch(src, k)
    ensures SkipBranch(t, k)
  {
    assert src[k] == t[k] && src[k + 1] == t[k + 1] && src[k + 2] == t[k + 2];
  }

  lemma BodyLineKept(src: Source, t: Source, k: nat, high: bool)
    requires k < |src| <= |t| && src == t[..|src|] && BodyLine(src, k, high)
    ensures BodyLine(t, k, high)
  {
    hide SkipBranch, Straight;
    assert src[k] == t[k];
    if SkipBranch(src, k) {
      SkipBranchKept(src, t, k);
    }
  }

  lemma BodyGrows(src: Source, n0: nat, idx: nat, high: bool, l: Line)
    requires Body(src, n0, idx, high) && Straight(l, high)
    ensures Body(src + [l], n0, idx, high)
  {
    var t := src + [l];
    forall k | n0 < k < |t|
      ensures BodyLine(t, k, high)
    {
      if k < |src| {
        BodyLineKept(src, t, k, high);
      }
    }
    assert !exists name :: Defines(l, name);
  }

  lemma BodySkips(src: Source, n0: nat, idx: nat, high: bool, branch: Line, flag: Line)
    requires Body(src, n0, idx, high)
    requires branch.labels == [] && branch.mnemonic.Some? && ConditionOf(branch.mnemonic.value).Some?
    requires branch.operands == [Name(SkipLabel(idx))] && (flag == Ins(CLC, []) || flag == Ins(STC, []))
    ensures Body(src + [branch, flag, LabelLine(SkipLabel(idx))], n0, idx + 1, high)
  {
    var skip := SkipLabel(idx);
    var t := src + [branch, flag, LabelLine(skip)];
    forall k | n0 < k < |t|
      ensures BodyLine(t, k, high)
    {
      if k < |src| {
        BodyLineKept(src, t, k, high);
      } else if k == |src| {
        assert SkipBranch(t, k);
      } else if k == |src| + 1 {
        assert Straight(t[k], high);
      }
    }
    forall k, name | 0 <= k < |t| && Defines(t[k], name)
      ensures if k < |src| then Defines(src[k], name) && name != skip else k == |src| + 2 && name == skip
    {
      if k < |src| {
        assert Defines(src[k], name);
        if j: nat :| j < idx && name == SkipLabel(j) {
          SkipLabelsDiffer(j, idx);
        }
        SkipLabelsDiffer(idx, idx);
      }
    }
  }

  lemma BodyNext(src: Source, n0: nat, idx: nat, high: bool)
    requires Body(src, n0, idx, high)
    ensures Body(src, n0, idx + 1, high)
  {}

  lemma EndsInShape(src: Source, n0: nat, idx: nat, loops: int, x: int, high: bool)
    requires Body(src, n0, idx, high) && 3 <= n0 <= 21 && Setup(src[..n0], loops, 21)
    requires high ==> HighBefore(src[..n0], n0)
    ensures Shape(src + Tail(x), n0, |src|, loops, x, high)
  {
    hide Setup, HighBefore;
    var t := src + Tail(x);
    assert t[..n0] == src[..n0];
    forall k | n0 < k < |src|
      ensures BodyLine(t, k, high)
    {
      BodyLineKept(src, t, k, high);
    }
    forall k, name | 0 <= k < |t| && Defines(t[k], name)
      ensures if k < |src| then Defines(src[k], name) && name != EXIT && name != HALT
              else (k == |src| + 5 && name == EXIT) || (k == |src| + 6 && name == HALT)
    {
      if k < |src| {
        assert Defines(src[k], name);
        if j: nat :| j < idx && name == SkipLabel(j) {
          SkipLabelsDiffer(j, j);
        }
      }
    }
    assert Ending(t, |src|, x);
  }

  lemma LoopStarts(src: Source, loops: int, high: bool)
    requires Setup(src, loops, 21)
    ensures Body(src + [LabelLine(LOOP)], |src|, 0, high)
  {
    var t := src + [LabelLine(LOOP)];
    assert forall k :: 0 <= k < |src| ==> t[k].labels == [];
    assert forall k, name :: 0 <= k < |t| && Defines(t[k], name) ==> k == |src| && name == LOOP;
  }

  // ----- straight lines -----

  predicate AllStraight(ls: Source, high: bool) {
    forall k :: 0 <= k < |ls| ==> Straight(ls[k], high)
  }

  lemma StraightForms(high: bool, dst: RegIndex, src: RegIndex)
    requires dst < POOL_SIZE
    ensures Straight(Ins(CMP, [Reg(dst), Reg(src)]), high) && Straight(Ins(SUB, [Reg(dst), Reg(src)]), high)
    ensures Straight(Ins(ADD, [Reg(dst), Reg(src)]), high) && Straight(Ins(ADC, [Reg(dst), Reg(src)]), high)
    ensures Straight(Ins(SBB, [Reg(dst), Reg(src)]), high)
    ensures forall v: int :: Straight(LoadImm(dst, v), high)
    ensures Straight(Ins(STC, []), high) && Straight(Ins(CLC, []), high)
  {
    hide Straight, LoadImm, Ins;
    ArithIsStraight(CMP, dst, src, high);
    ArithIsStraight(SUB, dst, src, high);
    ArithIsStraight(ADD, dst, src, high);
    ArithIsStraight(ADC, dst, src, high);
    ArithIsStraight(SBB, dst, src, high);
    LoadsAreStraight(dst, high);
    CarryIsStraight(high);
  }

  lemma LoadsAreStraight(dst: RegIndex, high: bool)
    requires dst < POOL_SIZE
    ensures forall v: int :: Straight(LoadImm(dst, v), high)
  {}

  lemma CarryIsStraight(high: bool)
    ensures Straight(Ins(STC, []), high) && Straight(Ins(CLC, []), high)
  {}

  lemma ArithIsStraight(op: Mnemonic, dst: RegIndex, src: RegIndex, high: bool)
    requires op in ARITH_OPS && dst < POOL_SIZE
    ensures Straight(Ins(op, [Reg(dst), Reg(src)]), high)
  {
    hide Hex.Numeral;
  }

  lemma UnaryIsStraight(op: Mnemonic, dst: RegIndex, high: bool)
    requires op in UNARY_OPS && dst < POOL_SIZE
    ensures Straight(Ins(op, [Reg(dst)]), high)
  {
    hide Hex.Numeral;
  }

  lemma StoreIsStraight(a: RegIndex, d: RegIndex, high: bool)
    requires a == 10 || a == 11 || (high && a == 13)
    ensures Straight(Ins(STRR, [Reg(a), Reg(d)]), high)
  {}

  lemma LoadIsStraight(d: RegIndex, a: RegIndex, high: bool)
    requires d < POOL_SIZE
    ensures Straight(Ins(LDRR, [Reg(d), Reg(a)]), high)
  {
  }

  lemma FlagSetupIsStraight(bins: set<string>, dst: RegIndex, src: RegIndex, high: bool)
    requires dst < POOL_SIZE && src < POOL_SIZE
    ensures AllStraight(FlagSetup(bins, dst, src), high) && 1 <= |FlagSetup(bins, dst, src)| <= 3
  {
    hide Straight, LoadImm, Ins;
    StraightForms(high, dst, dst);
    StraightForms(high, dst, Distinct(dst, src));
    StraightForms(high, 0, 1);
    StraightForms(high, 1, 0);
  }

  lemma ArithIsAllStraight(idx: nat, bins: set<string>, op: Mnemonic, dst: RegIndex, src: RegIndex, high: bool)
    requires op in ARITH_OPS && dst < POOL_SIZE && src < POOL_SIZE
    ensures AllStraight(ArithLines(idx, bins, op, dst, src), high)
  {
    hide Straight, LoadImm, Ins;
    var s := if op == CMP || op == TEST then Distinct(dst, src) else src;
    StraightForms(high, dst, s);
    StraightForms(high, 0, 1);
    StraightForms(high, 1, 0);
    ArithIsStraight(op, dst, s, high);
  }

  lemma UnaryIsAllStraight(idx: nat, bins: set<string>, op: Mnemonic, dst: RegIndex, high: bool)
    requires op in UNARY_OPS && dst < POOL_SIZE
    ensures AllStraight(UnaryLines(idx, bins, op, dst), high)
  {
    hide Straight, LoadImm, Ins;
    StraightForms(high, 9, 0);
    StraightForms(high, 8, 0);
    UnaryIsStraight(op, dst, high);
    UnaryIsStraight(SHL, 9, high);
    UnaryIsStraight(SHR, 8, high);
  }

  lemma {:induction false} StraightLinesGrow(src: Source, n0: nat, idx: nat, high: bool, ls: Source)
    requires Body(src, n0, idx, high) && AllStraight(ls, high)
    ensures Body(src + ls, n0, idx, high)
  {
    hide Body, Straight;
    if ls == [] {
      assert src + ls == src;
    } else {
      var front := ls[..|ls| - 1];
      StraightLinesGrow(src, n0, idx, high, front);
      BodyGrows(src + front, n0, idx, high, ls[|ls| - 1]);
      assert src + ls == src + front + [ls[|ls| - 1]];
    }
  }

  // ----- the loop body -----

  lemma {:induction false} OperationGrows(src: Source, n0: nat, idx: nat, bins: set<string>, o: Operation)
    requires Body(src, n0, idx, "mem_addr_high" in bins) && Allowed(o, bins)
    ensures Body(src + OperationLines(idx, bins, o), n0, idx + 1, "mem_addr_high" in bins)
  {
    hide Body, Straight, ArithLines, UnaryLines, FlagSetup, LoadImm, SkipLabel;
    var high := "mem_addr_high" in bins;
    if o.FlagBranch? {
      var setup := FlagSetup(bins, o.dst, o.src);
      FlagSetupIsStraight(bins, o.dst, o.src, high);
      StraightLinesGrow(src, n0, idx, high, setup);
      var skip := SkipLines(idx, BlockBranch(bins, o.branch), o.carry);
      BodySkips(src + setup, n0, idx, high, skip[0], skip[1]);
      assert src + OperationLines(idx, bins, o) == src + setup + skip;
    } else {
      OperationIsStraight(idx, bins, o);
      StraightLinesGrow(src, n0, idx, high, OperationLines(idx, bins, o));
      BodyNext(src + OperationLines(idx, bins, o), n0, idx, high);
    }
  }

  lemma OperationIsStraight(idx: nat, bins: set<string>, o: Operation)
    requires Allowed(o, bins) && !o.FlagBranch?
    ensures AllStraight(OperationLines(idx, bins, o), "mem_addr_high" in bins)
  {
    hide Straight, ArithLines, UnaryLines, LoadImm, Ins;
    var high := "mem_addr_high" in bins;
    match o
    case Arith(op, dst, src) => ArithIsAllStraight(idx, bins, op, dst, src, high);
    case Unary(op, dst) => UnaryIsAllStraight(idx, bins, op, dst, high);
    case Store(address, data) => StoreIsStraight(address, data, high);
    case Load(dst, address) => LoadIsStraight(dst, address, high);
  }

  lemma {:induction false} BodyHasShape(src: Source, n0: nat, bins: set<string>, operations: seq<Operation>)
    requires Body(src, n0, 0, "mem_addr_high" in bins)
    requires forall k :: 0 <= k < |operations| ==> Allowed(operations[k], bins)
    ensures Body(src + BodyLines(bins, operations), n0, |operations|, "mem_addr_high" in bins)
  {
    hide Body, OperationLines, Allowed;
    if operations == [] {
      assert src + BodyLines(bins, operations) == src;
    } else {
      var idx := |operations| - 1;
      var front := BodyLines(bins, operations[..idx]);
      BodyHasShape(src, n0, bins, operations[..idx]);
      OperationGrows(src + front, n0, idx, bins, operations[idx]);
      assert src + BodyLines(bins, operations) == src + front + OperationLines(idx, bins, operations[idx]);
    }
  }

  // ----- the setup -----

  /** A setup line that needs no register set before it. */
  predicate PlainSetup(l: Line) {
    l.labels == [] && (SetsHigh(l) || Straight(l, false))
  }

  predicate AllPlain(ls: Source) {
    forall k :: 0 <= k < |ls| ==> PlainSetup(ls[k])
  }

  lemma {:induction false} PlainLinesGrow(src: Source, loops: int, n: nat, ls: Source)
    requires Setup(src, loops, n) && AllPlain(ls)
    ensures Setup(src + ls, loops, n + |ls|)
  {
    hide Setup, Straight, SetsHigh;
    if ls == [] {
      assert src + ls == src;
    } else {
      var front, l := ls[..|ls| - 1], ls[|ls| - 1];
      PlainLinesGrow(src, loops, n, front);
      assert PlainSetup(l);
      if !SetsHigh(l) {
        StraightWhateverHigh(l, HighBefore(src + front, |src + front|));
      }
      SetupGrows(src + front, loops, n + |front|, l);
      assert src + ls == src + front + [l];
    }
  }

  lemma StraightWhateverHigh(l: Line, high: bool)
    requires Straight(l, false)
    ensures Straight(l, high)
  {}

  lemma PoolLoadIsPlain(r: RegIndex, v: int)
    requires r < POOL_SIZE
    ensures PlainSetup(LoadImm(r, v))
  {}

  lemma TargetedSetupIsPlain(bins: set<string>)
    ensures AllPlain(TargetedSetup(bins)) && |TargetedSetup(bins)| <= 3
  {
    hide TargetsAny, TargetsMemory, PlainSetup, LoadImm;
    PoolLoadIsPlain(0, 0x0000);
    PoolLoadIsPlain(9, 0x8001);
    assert PlainSetup(LoadImm(13, 0xFF10)) by { HighIsPlain(); }
  }

  lemma HighIsPlain()
    ensures PlainSetup(LoadImm(13, 0xFF10)) && SetsHigh(LoadImm(13, 0xFF10))
  {}

  lemma {:induction false} PoolIsPlain(bins: set<string>, biases: seq<int>)
    requires |biases| <= POOL_SIZE
    ensures AllPlain(PoolLines(bins, biases))
    ensures |PoolLines(bins, biases)| == |biases| + if |biases| > 2 then 2 else if |biases| > 1 then 1 else 0
  {
    hide PlainSetup, LoadImm, PoolImm;
    if biases == [] {
    } else {
      var idx := |biases| - 1;
      PoolIsPlain(bins, biases[..idx]);
      PoolLoadIsPlain(idx, PoolImm(bins, idx, biases[idx]));
      PoolStoreIsPlain(idx);
    }
  }

  lemma PoolStoreIsPlain(idx: nat)
    ensures AllPlain(PoolStore(idx)) && |PoolStore(idx)| == if idx == 1 || idx == 2 then 1 else 0
  {
    StoreIsStraight(10, 1, false);
    StoreIsStraight(11, 2, false);
  }

  lemma OpeningIsSetup(loops: int)
    ensures Setup(OpeningLines(loops), loops, 3)
  {}

  lemma SetupMore(src: Source, loops: int, m: nat, n: nat)
    requires Setup(src, loops, m) && m <= n
    ensures Setup(src, loops, n)
  {}

  lemma SetHigh(src: Source, k: nat, loops: int, n: nat)
    requires Setup(src, loops, n) && k < |src| && SetsHigh(src[k])
    ensures HighBefore(src, |src|)
  {
    assert k >= 3;
  }

  /** The store and the load through R13 come after R13 has been set. */
  lemma HighSetupGrows(src: Source, loops: int, n: nat, bins: set<string>)
    requires Setup(src, loops, n)
    ensures var t := src + HighSetup(bins);
            Setup(t, loops, n + 3) && ("mem_addr_high" in bins ==> HighBefore(t, |t|))
  {
    hide Setup, Straight, HighBefore, LoadImm, Ins;
    if "mem_addr_high" in bins {
      var base, store, load := LoadImm(13, 0xFF10), Ins(STRR, [Reg(13), Reg(3)]), Ins(LDRR, [Reg(4), Reg(13)]);
      HighIsPlain();
      var t := src + [base];
      SetupGrows(src, loops, n, base);
      SetHigh(t, |src|, loops, n + 1);
      StoreIsStraight(13, 3, true);
      var u := t + [store];
      SetupGrows(t, loops, n + 1, store);
      SetHigh(u, |src|, loops, n + 2);
      LoadIsStraight(4, 13, true);
      var v := u + [load];
      SetupGrows(u, loops, n + 2, load);
      SetHigh(v, |src|, loops, n + 3);
      assert src + HighSetup(bins) == v;
    } else {
      assert src + HighSetup(bins) == src;
      SetupMore(src, loops, n, n + 3);
    }
  }

  lemma SetupHasShape(config: Config, c: Choices)
    requires Possible(c, config)
    ensures var setup := SetupLines(config, c);
            && Setup(setup, c.loops, 21) && 3 <= |setup| <= 21
            && ("mem_addr_high" in config.targetedBins ==> HighBefore(setup, |setup|))
  {
    hide Setup, HighBefore, TargetedSetup, PoolLines, HighSetup, OpeningLines;
    var bins := config.targetedBins;
    var opening, targeted, pool := OpeningLines(c.loops), TargetedSetup(bins), PoolLines(bins, c.biases);
    OpeningIsSetup(c.loops);
    TargetedSetupIsPlain(bins);
    PlainLinesGrow(opening, c.loops, 3, targeted);
    PoolIsPlain(bins, c.biases);
    PlainLinesGrow(opening + targeted, c.loops, 3 + |targeted|, pool);
    SetupMore(opening + targeted + pool, c.loops, 3 + |targeted| + |pool|, 18);
    HighSetupGrows(opening + targeted + pool, c.loops, 18, bins);
    SetupLength(SetupLines(config, c), c.loops);
  }

  lemma SetupLength(src: Source, loops: int)
    requires Setup(src, loops, 21)
    ensures 3 <= |src| <= 21
  {}

  predicate LoadsReg(l: Line, r: RegIndex) {
    l.mnemonic == Some(MVRD) && RegAt(l.operands, 0) == Some(r)
  }

  /** Every register of the pool is given a value before the loop. */
  lemma {:induction false} PoolIsLoaded(bins: set<string>, biases: seq<int>, r: RegIndex) returns (k: nat)
    requires |biases| <= POOL_SIZE && r < |biases|
    ensures k < |PoolLines(bins, biases)| && LoadsReg(PoolLines(bins, biases)[k], r)
  {
    hide PoolStore, PoolImm;
    var idx := |biases| - 1;
    if r < idx {
      k := PoolIsLoaded(bins, biases[..idx], r);
    } else {
      k := |PoolLines(bins, biases[..idx])|;
    }
  }

  // ----- the whole program -----

  /** The line of DEC R12. */
  function DecLine(config: Config, c: Choices): nat
    requires Possible(c, config)
  {
    |SetupLines(config, c)| + 1 + |BodyLines(config.targetedBins, c.operations)|
  }

  /** Every program that the choices lead to has the shape. */
  lemma ProgramHasShape(config: Config, c: Choices)
    requires Possible(c, config)
    ensures Shape(Program(config, c), |SetupLines(config, c)|, DecLine(config, c), c.loops, c.last,
                  "mem_addr_high" in config.targetedBins)
  {
    hide Setup, HighBefore, Body, SetupLines, BodyLines, Allowed, Shape, Tail;
    var bins, setup := config.targetedBins, SetupLines(config, c);
    var body := BodyLines(bins, c.operations);
    SetupHasShape(config, c);
    LoopStarts(setup, c.loops, "mem_addr_high" in bins);
    BodyHasShape(setup + [LabelLine(LOOP)], |setup|, bins, c.operations);
    var src := setup + [LabelLine(LOOP)] + body;
    assert src[..|setup|] == setup;
    EndsInShape(src, |setup|, |c.operations|, c.loops, c.last, "mem_addr_high" in bins);
    assert Program(config, c) == src + Tail(c.last);
  }

  // ----- how many words -----

  function LineWords(l: Line): nat {
    match InstructionSize(l.mnemonic)
    case Ok(n) => n
    case Error(_) => 0
  }

  /** How many words the lines take. */
  function WordCount(src: Source): nat {
    if src == [] then 0 else WordCount(src[..|src| - 1]) + LineWords(src[|src| - 1])
  }

  lemma WordsAppend(src: Source, l: Line)
    ensures WordCount(src + [l]) == WordCount(src) + LineWords(l)
  {
    assert (src + [l])[..|src|] == src;
  }

  lemma {:induction false} WordsConcat(a: Source, b: Source)
    ensures WordCount(a + b) == WordCount(a) + WordCount(b)
  {
    hide LineWords;
    if b == [] {
      assert a + b == a;
    } else {
      var front, l := b[..|b| - 1], b[|b| - 1];
      WordsConcat(a, front);
      WordsAppend(a + front, l);
      assert a + b == a + front + [l];
    }
  }

  lemma FewWords(a: Line, b: Line, c: Line)
    ensures WordCount([a]) == LineWords(a) && WordCount([a, b]) == LineWords(a) + LineWords(b)
    ensures WordCount([a, b, c]) == LineWords(a) + LineWords(b) + LineWords(c)
  {
    hide LineWords;
    WordsAppend([], a);
    assert [] + [a] == [a];
    WordsAppend([a], b);
    assert [a] + [b] == [a, b];
    WordsAppend([a, b], c);
    assert [a, b] + [c] == [a, b, c];
  }

  /** The words of a block: its setup loads two registers when a sign branch is what it targets. */
  function BlockSize(bins: set<string>): nat {
    if !TargetsZero(bins) && !TargetsCarry(bins) && TargetsSign(bins) then 7 else 3
  }

  lemma SetupLineWords()
    ensures forall r, v :: LineWords(LoadImm(r, v)) == 2
    ensures forall m, ops :: SingleRegReg(m).Some? || SingleReg(m).Some? || m in {STC, CLC, LDRR, STRR} ==>
              LineWords(Ins(m, ops)) == 1
  {}

  lemma FlagSetupWords(bins: set<string>, dst: RegIndex, src: RegIndex)
    ensures WordCount(FlagSetup(bins, dst, src)) + 2 == BlockSize(bins)
  {
    hide WordCount, Reg, LoadImm, LineWords, Ins;
    var ls := FlagSetup(bins, dst, src);
    SetupLineWords();
    if |ls| == 3 {
      FewWords(ls[0], ls[1], ls[2]);
      assert ls == [ls[0], ls[1], ls[2]];
    } else {
      FewWords(ls[0], ls[0], ls[0]);
      assert ls == [ls[0]];
    }
  }

  lemma SkipWords(idx: nat, branch: Mnemonic, carry: bool)
    requires ConditionOf(branch).Some?
    ensures WordCount(SkipLines(idx, branch, carry)) == 2
  {
    hide WordCount, SkipLabel;
    var ls := SkipLines(idx, branch, carry);
    FewWords(ls[0], ls[1], ls[2]);
  }

  lemma BlockWords(idx: nat, bins: set<string>, o: Operation)
    requires o.FlagBranch? && Allowed(o, bins)
    ensures WordCount(OperationLines(idx, bins, o)) == BlockSize(bins)
  {
    hide WordCount, SkipLines, FlagSetup, BlockSize;
    FlagSetupWords(bins, o.dst, o.src);
    SkipWords(idx, BlockBranch(bins, o.branch), o.carry);
    WordsConcat(FlagSetup(bins, o.dst, o.src), SkipLines(idx, BlockBranch(bins, o.branch), o.carry));
  }

  /** The first operation may be an addition of two loaded registers, longer than a short block. */
  predicate LongFirst(bins: set<string>) {
    "add_overflow" in bins && BlockSize(bins) == 3
  }

  /** The most words that the operation at idx may take. */
  function OperationSize(bins: set<string>, idx: nat): nat {
    if idx == 0 && LongFirst(bins) then 5 else BlockSize(bins)
  }

  /** The most words that n operations may take. */
  function BodySize(bins: set<string>, n: nat): nat {
    if n == 0 then 0 else BlockSize(bins) * n + if LongFirst(bins) then 2 else 0
  }

  lemma SizesAddUp(bins: set<string>, n: nat)
    ensures BodySize(bins, 0) == 0 && BodySize(bins, n + 1) == BodySize(bins, n) + OperationSize(bins, n)
  {
    hide TargetsZero, TargetsCarry, TargetsSign;
  }

  lemma ArithWords(idx: nat, bins: set<string>, op: Mnemonic, dst: RegIndex, src: RegIndex)
    requires op in ARITH_OPS
    ensures var n := WordCount(ArithLines(idx, bins, op, dst, src));
            if "add_overflow" in bins && idx == 0 then n == 5 else 1 <= n <= 2
  {
    hide WordCount, Reg, LoadImm, LineWords, Ins;
    var ls := ArithLines(idx, bins, op, dst, src);
    SetupLineWords();
    if |ls| == 3 {
      FewWords(ls[0], ls[1], ls[2]);
      assert ls == [ls[0], ls[1], ls[2]];
    } else if |ls| == 2 {
      FewWords(ls[0], ls[1], ls[0]);
      assert ls == [ls[0], ls[1]];
    } else {
      FewWords(ls[0], ls[0], ls[0]);
      assert ls == [ls[0]];
    }
  }

  lemma UnaryWords(idx: nat, bins: set<string>, op: Mnemonic, dst: RegIndex)
    requires op in UNARY_OPS
    ensures 1 <= WordCount(UnaryLines(idx, bins, op, dst)) <= 3
  {
    hide WordCount, Reg, LoadImm, LineWords, Ins;
    var ls := UnaryLines(idx, bins, op, dst);
    SetupLineWords();
    if |ls| == 2 {
      FewWords(ls[0], ls[1], ls[0]);
      assert ls == [ls[0], ls[1]];
    } else {
      FewWords(ls[0], ls[0], ls[0]);
      assert ls == [ls[0]];
    }
  }

  lemma OperationWords(idx: nat, bins: set<string>, o: Operation)
    requires Allowed(o, bins)
    ensures 1 <= WordCount(OperationLines(idx, bins, o)) <= OperationSize(bins, idx)
  {
    hide WordCount, ArithLines, UnaryLines, FlagSetup, LoadImm, Ins, Reg, LineWords;
    match o
    case Arith(op, dst, src) => ArithWords(idx, bins, op, dst, src);
    case Unary(op, dst) => UnaryWords(idx, bins, op, dst);
    case FlagBranch(dst, src, branch, carry) => BlockWords(idx, bins, o);
    case Store(address, data) =>
      SetupLineWords();
      var l := Ins(STRR, [Reg(address), Reg(data)]);
      FewWords(l, l, l);
    case Load(dst, address) =>
      SetupLineWords();
      var l := Ins(LDRR, [Reg(dst), Reg(address)]);
      FewWords(l, l, l);
  }

  /** The operations of the loop body take at least one word each, and no more than the targets allow for. */
  lemma {:induction false} BodyWords(bins: set<string>, operations: seq<Operation>)
    requires forall k :: 0 <= k < |operations| ==> Allowed(operations[k], bins)
    ensures |operations| <= WordCount(BodyLines(bins, operations)) <= BodySize(bins, |operations|)
  {
    hide WordCount, OperationLines, Allowed, BodySize, OperationSize;
    if operations == [] {
      NoWords();
      SizesAddUp(bins, 0);
    } else {
      var idx := |operations| - 1;
      SizesAddUp(bins, idx);
      BodyWords(bins, operations[..idx]);
      OperationWords(idx, bins, operations[idx]);
      WordsConcat(BodyLines(bins, operations[..idx]), OperationLines(idx, bins, operations[idx]));
    }
  }

  /** Choices that take the most words. */
  function LongestOperations(bins: set<string>, n: nat): seq<Operation> {
    seq(n, k => if k == 0 && LongFirst(bins) then Arith(ADD, 0, 1) else FlagBranch(0, 1, JRZ, false))
  }

  /** The bound of BodyWords is reached, for every set of targets and every number of operations. */
  lemma {:induction false} LongestWords(bins: set<string>, n: nat)
    ensures WordCount(BodyLines(bins, LongestOperations(bins, n))) == BodySize(bins, n)
  {
    hide WordCount, OperationLines, BodySize, OperationSize, LongFirst;
    if n == 0 {
      NoWords();
      SizesAddUp(bins, 0);
      assert BodyLines(bins, LongestOperations(bins, 0)) == [];
    } else {
      var before := LongestOperations(bins, n - 1);
      LongestWords(bins, n - 1);
      SizesAddUp(bins, n - 1);
      assert LongestOperations(bins, n)[..n - 1] == before;
      var o := LongestOperations(bins, n)[n - 1];
      LongestOperation(n - 1, bins, o);
      WordsConcat(BodyLines(bins, before), OperationLines(n - 1, bins, o));
    }
  }

  lemma LongestOperation(idx: nat, bins: set<string>, o: Operation)
    requires o == if idx == 0 && LongFirst(bins) then Arith(ADD, 0, 1) else FlagBranch(0, 1, JRZ, false)
    ensures WordCount(OperationLines(idx, bins, o)) == OperationSize(bins, idx)
  {
    hide WordCount, ArithLines, SkipLines, FlagSetup;
    if o.FlagBranch? {
      BlockWords(idx, bins, o);
    } else {
      ArithWords(idx, bins, ADD, 0, 1);
    }
  }

  lemma NoWords()
    ensures WordCount([]) == 0
  {}
}
