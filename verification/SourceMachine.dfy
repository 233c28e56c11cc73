/**
 * The meaning of assembly source: labels by source order, instructions by mnemonic, no encoding. Each line
 * is executed at its address.
 */
module SourceMachine {
  import opened Words
  import opened Results
  import opened Isa
  import opened Assembler

  // ----- labels in source order -----

  predicate Defines(line: Line, name: string) {
    name in line.labels
  }

  /** The first line from lo on, among the first n, that defines the label. */
  function FirstDefinition(src: Source, name: string, lo: nat, n: nat): (r: Option<nat>)
    requires n <= |src|
    ensures r.None? ==> forall j :: lo <= j < n ==> !Defines(src[j], name)
    ensures r.Some? ==>
              && lo <= r.value < n && Defines(src[r.value], name)
              && forall j :: lo <= j < r.value ==> !Defines(src[j], name)
  {
    if n <= lo then None
    else
      var r := FirstDefinition(src, name, lo, n - 1);
      if r.Some? then r else if Defines(src[n - 1], name) then Some(n - 1) else None
  }

  /** The last of the first n lines that defines the label. */
  function LastDefinition(src: Source, name: string, n: nat): (r: Option<nat>)
    requires n <= |src|
    ensures r.None? ==> forall j :: 0 <= j < n ==> !Defines(src[j], name)
    ensures r.Some? ==>
              && r.value < n && Defines(src[r.value], name)
              && forall j :: r.value < j < n ==> !Defines(src[j], name)
  {
    if n == 0 then None
    else if Defines(src[n - 1], name) then Some(n - 1) else LastDefinition(src, name, n - 1)
  }

  function AddressOfLine(src: Source, line: Option<nat>): Option<int>
    requires Sized(src) && (line.Some? ==> line.value < |src|)
  {
    match line
    case Some(j) => Some(Address(src, j))
    case None => None
  }

  /**
   * What an operand of line i denotes: nF the next later line defining n, nB the nearest line defining n up to and
   * including this one, a name its first definition anywhere, and otherwise a number.
   */
  function Denotes(src: Source, i: nat, t: Token): Option<int>
    requires i < |src| && Sized(src)
  {
    match t
    case Number(v) => v
    case Local(name, true) => AddressOfLine(src, FirstDefinition(src, name, i + 1, |src|))
    case Local(name, false) => AddressOfLine(src, LastDefinition(src, name, i + 1))
    case Symbol(text, register, literal) =>
      var j := FirstDefinition(src, text, 0, |src|);
      if j.Some? then AddressOfLine(src, j) else if register.Some? then None else literal
  }

  // ----- execution -----

  function TwoRegOpOf(m: Mnemonic): Option<TwoRegOp> {
    match m
    case ADD => Some(Add)
    case SUB => Some(Sub)
    case AND => Some(And)
    case CMP => Some(Cmp)
    case XOR => Some(Xor)
    case TEST => Some(Test)
    case OR => Some(Or)
    case MVRR => Some(Mvrr)
    case ADC => Some(Adc)
    case SBB => Some(Sbb)
    case _ => None
  }

  function OneRegOpOf(m: Mnemonic): Option<OneRegOp> {
    match m
    case DEC => Some(Dec)
    case INC => Some(Inc)
    case SHL => Some(Shl)
    case SHR => Some(Shr)
    case NOT => Some(Not)
    case ASR => Some(Asr)
    case _ => None
  }

  function ConditionOf(m: Mnemonic): Option<Condition> {
    match m
    case JR => Some(Always)
    case JRC => Some(IfC)
    case JRNC => Some(IfNotC)
    case JRZ => Some(IfZ)
    case JRNZ => Some(IfNotZ)
    case JRS => Some(IfS)
    case JRNS => Some(IfNotS)
    case _ => None
  }

  function RegAt(ops: seq<Token>, k: nat): Option<RegIndex> {
    if k < |ops| && ops[k].Symbol? then ops[k].register else None
  }

  function ValueAt(src: Source, i: nat, k: nat): Option<int>
    requires i < |src| && Sized(src)
  {
    if k < |src[i].operands| then Denotes(src, i, src[i].operands[k]) else None
  }

  function ProgramSize(src: Source): nat
    requires Sized(src)
  {
    Address(src, |src|)
  }

  /**
   * Executes line i. There is no result for a line without an instruction or with unusable operands, and none
   * for a store into the program itself.
   */
  function Perform(src: Source, i: nat, s: Arch): Option<Arch>
    requires i < |src| && Sized(src)
  {
    if src[i].mnemonic.None? then None
    else
      var m, ops := src[i].mnemonic.value, src[i].operands;
      var r0, r1 := RegAt(ops, 0), RegAt(ops, 1);
      if TwoRegOpOf(m).Some? then
        if r0.Some? && r1.Some? then Some(Exec(TwoReg(TwoRegOpOf(m).value, r0.value, r1.value), Skip(s))) else None
      else if OneRegOpOf(m).Some? then
        if r0.Some? then Some(Exec(OneReg(OneRegOpOf(m).value, r0.value), Skip(s))) else None
      else if ConditionOf(m).Some? then Branch(ConditionOf(m).value, ValueAt(src, i, 0), s)
      else
        match m
        case CLC => Some(Exec(SetCarry(0), Skip(s)))
        case STC => Some(Exec(SetCarry(1), Skip(s)))
        case RET => Some(s.(pc := s.regs[LINK]))
        case JMPA => Branch(Always, ValueAt(src, i, 0), s)
        case CALLA => Call(ValueAt(src, i, 0), s)
        case LDRR => if r0.Some? && r1.Some? then Some(Exec(Ldrr(r0.value, r1.value), Skip(s))) else None
        case STRR =>
          if r0.Some? && r1.Some? && s.regs[r0.value] >= ProgramSize(src)
          then Some(Exec(Strr(r0.value, r1.value), Skip(s))) else None
        case _ => Immediate(m, r0, ValueAt(src, i, 1), s)
  }

  function Branch(cond: Condition, target: Option<int>, s: Arch): Option<Arch> {
    if target.None? then None
    else if Holds(cond, s.flags) then Some(s.(pc := Wrap(target.value)))
    else Some(Skip(s))
  }

  /** R15 gets the address after the two words of the call. */
  function Call(target: Option<int>, s: Arch): Option<Arch> {
    if target.None? then None
    else Some(WithReg(s, LINK, Wrap(s.pc + 2)).(pc := Wrap(target.value)))
  }

  function Immediate(m: Mnemonic, r: Option<RegIndex>, value: Option<int>, s: Arch): Option<Arch> {
    if r.None? || value.None? then None
    else
      var next, x, b := s.(pc := Wrap(s.pc + 2)), Wrap(value.value), s.regs[r.value];
      match m
      case MVRD => Some(WithReg(next, r.value, x))
      case ADDI => Some(WithOutcome(next, r.value, Sum(b, x, 0)))
      case ANDI => Some(WithOutcome(next, r.value, Plain(And16(b, x), 0)))
      case _ => None
  }

  /** A run through the lines numbered by `path`, each executed at its address. */
  function Follow(src: Source, path: seq<nat>, s: Arch): Option<Arch>
    requires Sized(src)
  {
    if path == [] then Some(s)
    else
      var before := Follow(src, path[..|path| - 1], s);
      var i := path[|path| - 1];
      if before.None? || i >= |src| || before.value.pc != Address(src, i) then None
      else Perform(src, i, before.value)
  }
}
