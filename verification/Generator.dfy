/**
 * model/generate_random_tests.py: the random program generator, emitting parsed source lines. Every random
 * decision is an arbitrary choice among the values it may take, and a program is a function of the choices.
 */
module Generator {
  import opened Words
  import opened Results
  import opened Assembler
  import Hex

  datatype Config = Config(bodyOps: int, maxLoopDepth: int, targetedBins: set<string>)

  const LOOP := "LOOP"
  const EXIT := "EXIT"
  const HALT := "HALT"
  const POOL_SIZE := 10

  const ARITH_OPS := [ADD, SUB, AND, XOR, OR, ADC, SBB, CMP, TEST, MVRR]
  const UNARY_OPS := [DEC, INC, SHL, SHR]
  const BRANCH_OPS := [JRZ, JRNZ, JRC, JRNC, JRS, JRNS]

  function SkipLabel(idx: nat): string {
    "SKIP_" + Hex.Numeral(10, idx)
  }

  // ----- source lines -----

  function Reg(r: RegIndex): Token {
    Symbol("R" + Hex.Numeral(10, r), Some(r), None)
  }

  function Imm(v: int): Token {
    Number(Some(v))
  }

  function Name(text: string): Token {
    Symbol(text, None, None)
  }

  function Ins(m: Mnemonic, operands: seq<Token>): Line {
    Line([], Some(m), operands)
  }

  function LoadImm(r: RegIndex, v: int): Line {
    Ins(MVRD, [Reg(r), Imm(v)])
  }

  function LabelLine(name: string): Line {
    Line([name], None, [])
  }

  // ----- choices -----

  /** The random decisions for one operation of the loop body. */
  datatype Operation =
    | Arith(op: Mnemonic, dst: RegIndex, src: RegIndex)
    | Unary(op: Mnemonic, dst: RegIndex)
    | Store(address: RegIndex, data: RegIndex)
    | Load(dst: RegIndex, address: RegIndex)
    | FlagBranch(dst: RegIndex, src: RegIndex, branch: Mnemonic, carry: bool)

  predicate StoreAddress(r: RegIndex, bins: set<string>) {
    r == 10 || r == 11 || (r == 13 && "mem_addr_high" in bins)
  }

  predicate Allowed(o: Operation, bins: set<string>) {
    match o
    case Arith(op, dst, src) => op in ARITH_OPS && dst < POOL_SIZE && src < POOL_SIZE
    case Unary(op, dst) => op in UNARY_OPS && dst < POOL_SIZE
    case Store(address, data) => StoreAddress(address, bins) && data < POOL_SIZE
    case Load(dst, address) => dst < POOL_SIZE && StoreAddress(address, bins)
    case FlagBranch(dst, src, branch, _) => dst < POOL_SIZE && src < POOL_SIZE && branch in BRANCH_OPS
  }

  /** All random decisions of a program: R12, the biases of the pool, the operations, and the last value of R13. */
  datatype Choices = Choices(loops: int, biases: seq<int>, operations: seq<Operation>, last: int)

  function BodyCount(config: Config): nat {
    if config.bodyOps > 0 then config.bodyOps else 0
  }

  function LoopMaximum(config: Config): int {
    if config.maxLoopDepth + 2 > 2 then config.maxLoopDepth + 2 else 2
  }

  predicate Possible(c: Choices, config: Config) {
    && 2 <= c.loops <= LoopMaximum(config) && 0 <= c.last <= 0xFFFF
    && |c.biases| == POOL_SIZE && (forall k :: 0 <= k < POOL_SIZE ==> 0 <= c.biases[k] <= 0xFFFF)
    && |c.operations| == BodyCount(config)
    && forall k :: 0 <= k < |c.operations| ==> Allowed(c.operations[k], config.targetedBins)
  }

  // ----- the emitted lines -----

  predicate TargetsAny(bins: set<string>, names: set<string>) {
    exists name :: name in bins && name in names
  }

  predicate TargetsMemory(bins: set<string>) {
    exists name :: name in bins && (StartsWith(name, "mem_addr_high") || StartsWith(name, "mem_"))
  }

  predicate StartsWith(name: string, prefix: string) {
    prefix <= name
  }

  function TargetedSetup(bins: set<string>): Source {
    (if TargetsAny(bins, {"mvrd_imm_zero", "test_zero", "cmp_zero"}) then [LoadImm(0, 0x0000)] else [])
    + (if TargetsAny(bins, {"mvrd_imm_high", "add_overflow", "shl_sets_carry"}) then [LoadImm(9, 0x8001)] else [])
    + (if TargetsMemory(bins) then [LoadImm(13, 0xFF10)] else [])
  }

  function PoolImm(bins: set<string>, idx: nat, bias: int): int {
    if "mvrd_imm_zero" in bins && idx == 0 then 0x0000
    else if "mvrd_imm_high" in bins && idx == POOL_SIZE - 1 then 0xF123
    else bias
  }

  function PoolStore(idx: nat): Source {
    if idx == 1 then [Ins(STRR, [Reg(10), Reg(1)])]
    else if idx == 2 then [Ins(STRR, [Reg(11), Reg(2)])]
    else []
  }

  /** A load for each register that has a bias, and the two words that R10 and R11 point to. */
  function PoolLines(bins: set<string>, biases: seq<int>): Source
    requires |biases| <= POOL_SIZE
  {
    if biases == [] then []
    else
      var idx := |biases| - 1;
      PoolLines(bins, biases[..idx]) + [LoadImm(idx, PoolImm(bins, idx, biases[idx]))] + PoolStore(idx)
  }

  lemma NoPool(bins: set<string>)
    ensures PoolLines(bins, []) == []
  {}

  lemma PoolNext(bins: set<string>, biases: seq<int>, bias: int)
    requires |biases| < POOL_SIZE
    ensures PoolLines(bins, biases + [bias])
         == PoolLines(bins, biases) + [LoadImm(|biases|, PoolImm(bins, |biases|, bias))] + PoolStore(|biases|)
  {
    hide LoadImm, PoolImm, PoolStore;
    assert (biases + [bias])[..|biases|] == biases;
  }

  function HighSetup(bins: set<string>): Source {
    if "mem_addr_high" in bins then
      [LoadImm(13, 0xFF10), Ins(STRR, [Reg(13), Reg(3)]), Ins(LDRR, [Reg(4), Reg(13)])]
    else []
  }

  function OpeningLines(loops: int): Source {
    [LoadImm(10, 0x0100), LoadImm(11, 0x0101), LoadImm(12, loops)]
  }

  function SetupLines(config: Config, c: Choices): Source
    requires Possible(c, config)
  {
    OpeningLines(c.loops) + TargetedSetup(config.targetedBins) + PoolLines(config.targetedBins, c.biases)
    + HighSetup(config.targetedBins)
  }

  function Next(r: RegIndex): RegIndex {
    (r + 1) % POOL_SIZE
  }

  function Distinct(dst: RegIndex, src: RegIndex): RegIndex {
    if dst == src then Next(src) else src
  }

  // The targets of branches, in the order in which a block looks for them.

  predicate TargetsZero(bins: set<string>) {
    "jrz_taken" in bins || "jrnz_taken" in bins
  }

  predicate TargetsCarry(bins: set<string>) {
    "jrc_taken" in bins || "jrnc_not_taken" in bins || "jrnc_taken" in bins || "jrc_not_taken" in bins
  }

  predicate TargetsSign(bins: set<string>) {
    "jrs_taken" in bins || "jrns_taken" in bins
  }

  lemma DistinctIs(dst: RegIndex, src: RegIndex)
    ensures Distinct(dst, src) == if dst == src then (src + 1) % POOL_SIZE else src
  {}

  /** The instructions that decide the branch of a block. */
  function FlagSetup(bins: set<string>, dst: RegIndex, src: RegIndex): Source {
    if "jrz_taken" in bins then [Ins(CMP, [Reg(dst), Reg(dst)])]
    else if "jrnz_taken" in bins then [Ins(CMP, [Reg(dst), Reg(Distinct(dst, src))])]
    else if "jrc_taken" in bins || "jrnc_not_taken" in bins then [Ins(STC, [])]
    else if "jrnc_taken" in bins || "jrc_not_taken" in bins then [Ins(CLC, [])]
    else if "jrs_taken" in bins then [LoadImm(0, 0x0000), LoadImm(1, 0x0001), Ins(SUB, [Reg(0), Reg(1)])]
    else if "jrns_taken" in bins then [LoadImm(0, 0x0001), LoadImm(1, 0x0001), Ins(CMP, [Reg(0), Reg(1)])]
    else [Ins(CMP, [Reg(dst), Reg(Distinct(dst, src))])]
  }

  /** The branch of a block; only without a target is it the random one. */
  function BlockBranch(bins: set<string>, random: Mnemonic): Mnemonic {
    if "jrz_taken" in bins then JRZ
    else if "jrnz_taken" in bins then JRNZ
    else if "jrc_taken" in bins || "jrnc_not_taken" in bins then JRC
    else if "jrnc_taken" in bins || "jrc_not_taken" in bins then JRNC
    else if "jrs_taken" in bins then JRS
    else if "jrns_taken" in bins then JRNS
    else random
  }

  function SkipLines(idx: nat, branch: Mnemonic, carry: bool): Source {
    [Ins(branch, [Name(SkipLabel(idx))]), Ins(if carry then CLC else STC, []), LabelLine(SkipLabel(idx))]
  }

  function ArithLines(idx: nat, bins: set<string>, op: Mnemonic, dst: RegIndex, src: RegIndex): Source {
    var s := if op == CMP || op == TEST then Distinct(dst, src) else src;
    if "add_overflow" in bins && idx == 0 then
      [LoadImm(0, 0x7FFF), LoadImm(1, 0x0001), Ins(ADD, [Reg(0), Reg(1)])]
    else if "adc_carry_in_set" in bins && idx == 1 then [Ins(STC, []), Ins(ADC, [Reg(dst), Reg(s)])]
    else if "sbb_carry_in_set" in bins && idx == 2 then [Ins(STC, []), Ins(SBB, [Reg(dst), Reg(s)])]
    else [Ins(op, [Reg(dst), Reg(s)])]
  }

  function UnaryLines(idx: nat, bins: set<string>, op: Mnemonic, dst: RegIndex): Source {
    if "shl_sets_carry" in bins && idx == 0 then [LoadImm(9, 0x8001), Ins(SHL, [Reg(9)])]
    else if "shr_sets_carry" in bins && idx == 1 then [LoadImm(8, 0x0001), Ins(SHR, [Reg(8)])]
    else [Ins(op, [Reg(dst)])]
  }

  function OperationLines(idx: nat, bins: set<string>, o: Operation): Source {
    match o
    case Arith(op, dst, src) => ArithLines(idx, bins, op, dst, src)
    case Unary(op, dst) => UnaryLines(idx, bins, op, dst)
    case Store(address, data) => [Ins(STRR, [Reg(address), Reg(data)])]
    case Load(dst, address) => [Ins(LDRR, [Reg(dst), Reg(address)])]
    case FlagBranch(dst, src, branch, carry) =>
      FlagSetup(bins, dst, src) + SkipLines(idx, BlockBranch(bins, branch), carry)
  }

  function BodyLines(bins: set<string>, operations: seq<Operation>): Source {
    if operations == [] then []
    else
      var idx := |operations| - 1;
      BodyLines(bins, operations[..idx]) + OperationLines(idx, bins, operations[idx])
  }

  function Tail(x: int): Source {
    [Ins(DEC, [Reg(12)]), Ins(JRNZ, [Name(LOOP)]), LoadImm(13, x), Ins(JMPA, [Name(EXIT)]), LoadImm(13, 0xDEAD),
     LabelLine(EXIT), Line([HALT], Some(JR), [Name(HALT)])]
  }

  function Program(config: Config, c: Choices): Source
    requires Possible(c, config)
  {
    SetupLines(config, c) + [LabelLine(LOOP)] + BodyLines(config.targetedBins, c.operations) + Tail(c.last)
  }

  // ----- random decisions -----

  method RandInt(low: int, high: int) returns (r: int)
    requires low <= high
    ensures low <= r <= high
  {
    r :| low <= r <= high;
  }

  method RandBool() returns (b: bool)
  {
    b :| true;
  }

  /** Any of the values, whatever the weights, which are at least one. */
  method WeightedChoice(values: seq<Mnemonic>) returns (m: Mnemonic)
    requires values != []
    ensures m in values
  {
    var k := RandInt(0, |values| - 1);
    m := values[k];
  }

  method ChooseReg() returns (r: RegIndex)
    ensures r < POOL_SIZE
  {
    var k := RandInt(0, POOL_SIZE - 1);
    r := k;
  }

  // ----- the generator -----

  class ProgramBuilder {
    var lines: Source

    constructor ()
      ensures lines == []
    {
      lines := [];
    }

    method Append(l: Line)
      modifies this
      ensures lines == old(lines) + [l]
    {
      lines := lines + [l];
    }

    method Extend(ls: Source)
      modifies this
      ensures lines == old(lines) + ls
    {
      lines := lines + ls;
    }

    method EmitTargetedSetup(targetedBins: set<string>)
      modifies this
      ensures lines == old(lines) + TargetedSetup(targetedBins)
    {
      if targetedBins == {} {
        return;
      }
      if TargetsAny(targetedBins, {"mvrd_imm_zero", "test_zero", "cmp_zero"}) {
        Append(LoadImm(0, 0x0000));
      }
      if TargetsAny(targetedBins, {"mvrd_imm_high", "add_overflow", "shl_sets_carry"}) {
        Append(LoadImm(9, 0x8001));
      }
      if TargetsMemory(targetedBins) {
        Append(LoadImm(13, 0xFF10));
      }
    }

    /** Loads every register of the pool, and fills the two memory words at R10 and R11 on the way. */
    method EmitPool(config: Config) returns (biases: seq<int>)
      modifies this
      ensures |biases| == POOL_SIZE && forall k :: 0 <= k < POOL_SIZE ==> 0 <= biases[k] <= 0xFFFF
      ensures lines == old(lines) + PoolLines(config.targetedBins, biases)
    {
      hide LoadImm, Ins, PoolLines;
      biases := [];
      assert PoolLines(config.targetedBins, []) == [] by { NoPool(config.targetedBins); }
      for idx := 0 to POOL_SIZE
        invariant |biases| == idx && forall k :: 0 <= k < idx ==> 0 <= biases[k] <= 0xFFFF
        invariant lines == old(lines) + PoolLines(config.targetedBins, biases)
      {
        var bias := RandInt(0, 0xFFFF);
        PoolNext(config.targetedBins, biases, bias);
        biases := biases + [bias];
        var imm := bias;
        if "mvrd_imm_zero" in config.targetedBins && idx == 0 {
          imm := 0x0000;
        } else if "mvrd_imm_high" in config.targetedBins && idx == POOL_SIZE - 1 {
          imm := 0xF123;
        }
        Append(LoadImm(idx, imm));
        if idx == 1 {
          Append(Ins(STRR, [Reg(10), Reg(1)]));
        }
        if idx == 2 {
          Append(Ins(STRR, [Reg(11), Reg(2)]));
        }
      }
    }

    /** One conditional branch over a change of the carry flag, with the instructions that decide it. */
    method EmitFlagBranchBlock(idx: nat, config: Config) returns (o: Operation)
      modifies this
      ensures o.FlagBranch? && Allowed(o, config.targetedBins)
      ensures lines == old(lines) + OperationLines(idx, config.targetedBins, o)
    {
      hide LoadImm, Ins, SkipLabel;
      var dst := ChooseReg();
      var src0 := ChooseReg();
      var src := src0;
      if dst == src {
        src := (src + 1) % POOL_SIZE;
      }
      var branch, random := EmitFlagSetup(config, dst, src0, src);
      var carry := RandBool();
      ghost var before := lines;
      Append(Ins(branch, [Name(SkipLabel(idx))]));
      Append(if carry then Ins(CLC, []) else Ins(STC, []));
      Append(LabelLine(SkipLabel(idx)));
      assert lines == before + SkipLines(idx, branch, carry);
      o := FlagBranch(dst, src0, random, carry);
    }

    method EmitFlagSetup(config: Config, dst: RegIndex, ghost src0: RegIndex, src: RegIndex)
      returns (branch: Mnemonic, random: Mnemonic)
      requires src == Distinct(dst, src0)
      modifies this
      ensures lines == old(lines) + FlagSetup(config.targetedBins, dst, src0)
      ensures random in BRANCH_OPS && branch == BlockBranch(config.targetedBins, random)
    {
      hide LoadImm, Ins, Distinct;
      var bins := config.targetedBins;
      random := JRZ;
      if "jrz_taken" in bins {
        Append(Ins(CMP, [Reg(dst), Reg(dst)]));
        branch := JRZ;
      } else if "jrnz_taken" in bins {
        Append(Ins(CMP, [Reg(dst), Reg(src)]));
        branch := JRNZ;
      } else if "jrc_taken" in bins || "jrnc_not_taken" in bins {
        Append(Ins(STC, []));
        branch := JRC;
      } else if "jrnc_taken" in bins || "jrc_not_taken" in bins {
        Append(Ins(CLC, []));
        branch := JRNC;
      } else if "jrs_taken" in bins {
        Append(LoadImm(0, 0x0000));
        Append(LoadImm(1, 0x0001));
        Append(Ins(SUB, [Reg(0), Reg(1)]));
        branch := JRS;
      } else if "jrns_taken" in bins {
        Append(LoadImm(0, 0x0001));
        Append(LoadImm(1, 0x0001));
        Append(Ins(CMP, [Reg(0), Reg(1)]));
        branch := JRNS;
      } else {
        Append(Ins(CMP, [Reg(dst), Reg(src)]));
        branch := WeightedChoice(BRANCH_OPS);
        random := branch;
      }
    }

    method EmitArith(idx: nat, config: Config, dst: RegIndex, src0: RegIndex) returns (o: Operation)
      requires dst < POOL_SIZE && src0 < POOL_SIZE
      modifies this
      ensures Allowed(o, config.targetedBins) && lines == old(lines) + OperationLines(idx, config.targetedBins, o)
    {
      hide LoadImm, Ins, Reg, Distinct;
      var op := WeightedChoice(ARITH_OPS);
      var src := src0;
      if (op == CMP || op == TEST) && dst == src {
        src := (src + 1) % POOL_SIZE;
      }
      assert src == (if op == CMP || op == TEST then Distinct(dst, src0) else src0) by { DistinctIs(dst, src0); }
      if "add_overflow" in config.targetedBins && idx == 0 {
        Extend([LoadImm(0, 0x7FFF), LoadImm(1, 0x0001), Ins(ADD, [Reg(0), Reg(1)])]);
      } else if "adc_carry_in_set" in config.targetedBins && idx == 1 {
        Extend([Ins(STC, []), Ins(ADC, [Reg(dst), Reg(src)])]);
      } else if "sbb_carry_in_set" in config.targetedBins && idx == 2 {
        Extend([Ins(STC, []), Ins(SBB, [Reg(dst), Reg(src)])]);
      } else {
        Append(Ins(op, [Reg(dst), Reg(src)]));
      }
      o := Arith(op, dst, src0);
    }

    method EmitUnary(idx: nat, config: Config, dst: RegIndex) returns (o: Operation)
      requires dst < POOL_SIZE
      modifies this
      ensures Allowed(o, config.targetedBins) && lines == old(lines) + OperationLines(idx, config.targetedBins, o)
    {
      hide LoadImm, Ins;
      var op := WeightedChoice(UNARY_OPS);
      if "shl_sets_carry" in config.targetedBins && idx == 0 {
        Extend([LoadImm(9, 0x8001), Ins(SHL, [Reg(9)])]);
      } else if "shr_sets_carry" in config.targetedBins && idx == 1 {
        Extend([LoadImm(8, 0x0001), Ins(SHR, [Reg(8)])]);
      } else {
        Append(Ins(op, [Reg(dst)]));
      }
      o := Unary(op, dst);
    }

    method EmitMem(idx: nat, config: Config, dst: RegIndex) returns (o: Operation)
      requires dst < POOL_SIZE
      modifies this
      ensures Allowed(o, config.targetedBins) && lines == old(lines) + OperationLines(idx, config.targetedBins, o)
    {
      var first := RandBool();
      var addrReg: RegIndex := if first then 10 else 11;
      var dataReg := ChooseReg();
      if "mem_addr_high" in config.targetedBins {
        var pick := RandBool();
        if pick {
          addrReg := 13;
        }
      }
      var store := RandBool();
      if store {
        Append(Ins(STRR, [Reg(addrReg), Reg(dataReg)]));
        o := Store(addrReg, dataReg);
      } else {
        Append(Ins(LDRR, [Reg(dst), Reg(addrReg)]));
        o := Load(dst, addrReg);
      }
    }

    /** One operation of the loop body, of any kind. */
    method EmitOperation(idx: nat, config: Config) returns (o: Operation)
      modifies this
      ensures Allowed(o, config.targetedBins) && lines == old(lines) + OperationLines(idx, config.targetedBins, o)
    {
      hide OperationLines, Allowed;
      var memory := RandBool();
      var flagBranch := RandBool();
      var arith := RandBool();
      var dst := ChooseReg();
      var src := ChooseReg();
      if memory {
        o := EmitMem(idx, config, dst);
      } else if flagBranch {
        o := EmitFlagBranchBlock(idx, config);
      } else if arith {
        o := EmitArith(idx, config, dst, src);
      } else {
        o := EmitUnary(idx, config, dst);
      }
    }

    /** Emits the program of the random choices that it returns. */
    method EmitRandomProgram(config: Config) returns (c: Choices)
      requires lines == []
      modifies this
      ensures Possible(c, config) && lines == Program(config, c)
    {
      hide LoadImm, Ins, OperationLines, Allowed, TargetedSetup, PoolLines;
      var bins := config.targetedBins;
      var loops := RandInt(2, LoopMaximum(config));
      lines := OpeningLines(loops);
      EmitTargetedSetup(bins);
      var biases := EmitPool(config);
      if "mem_addr_high" in bins {
        Extend([LoadImm(13, 0xFF10), Ins(STRR, [Reg(13), Reg(3)]), Ins(LDRR, [Reg(4), Reg(13)])]);
      }
      ghost var setup := lines;
      assert setup == OpeningLines(loops) + TargetedSetup(bins) + PoolLines(bins, biases) + HighSetup(bins);
      Append(LabelLine(LOOP));
      var operations := [];
      for idx := 0 to BodyCount(config)
        invariant |operations| == idx && forall k :: 0 <= k < idx ==> Allowed(operations[k], bins)
        invariant lines == setup + [LabelLine(LOOP)] + BodyLines(bins, operations)
      {
        var o := EmitOperation(idx, config);
        operations := operations + [o];
        assert operations[..idx] + [o] == operations;
      }
      var x := RandInt(0, 0xFFFF);
      Extend(Tail(x));
      c := Choices(loops, biases, operations, x);
    }
  }
}
