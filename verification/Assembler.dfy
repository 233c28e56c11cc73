/** model/assembler.py: layout, label resolution and encoding of parsed source lines. */
module Assembler {
  import opened Words
  import opened Results

  datatype Mnemonic =
    | ADD | SUB | AND | CMP | XOR | TEST | OR | MVRR | ADC | SBB
    | DEC | INC | SHL | SHR | NOT | ASR
    | JR | JRC | JRNC | JRZ | JRNZ | JRS | JRNS
    | CLC | STC | RET
    | JMPA | MVRD | ADDI | ANDI | CALLA
    | LDRR | STRR
    | Unknown(text: string)

  /**
   * An operand, classified as the assembler's patterns do: a numeral (with the value that int(_, 0) gives it, if
   * any), a local label reference such as 1F or 1B, or any other text (with the register it names, if any, and
   * the value that int(_, 0) gives it, if any).
   */
  datatype Token =
    | Number(value: Option<int>)
    | Local(name: string, forward: bool)
    | Symbol(text: string, register: Option<RegIndex>, literal: Option<int>)

  datatype Line = Line(labels: seq<string>, mnemonic: Option<Mnemonic>, operands: seq<Token>)

  type Source = seq<Line>
  type Table = map<string, seq<nat>>

  // ----- opcode tables -----

  function SingleRegReg(m: Mnemonic): Option<Byte> {
    match m
    case ADD => Some(0x00)
    case SUB => Some(0x01)
    case AND => Some(0x02)
    case CMP => Some(0x03)
    case XOR => Some(0x04)
    case TEST => Some(0x05)
    case OR => Some(0x06)
    case MVRR => Some(0x07)
    case ADC => Some(0x0C)
    case SBB => Some(0x0D)
    case _ => None
  }

  function SingleReg(m: Mnemonic): Option<Byte> {
    match m
    case DEC => Some(0x08)
    case INC => Some(0x09)
    case SHL => Some(0x0A)
    case SHR => Some(0x0B)
    case NOT => Some(0x0E)
    case ASR => Some(0x0F)
    case _ => None
  }

  function SingleBranch(m: Mnemonic): Option<Byte> {
    match m
    case JR => Some(0x40)
    case JRC => Some(0x44)
    case JRNC => Some(0x45)
    case JRZ => Some(0x46)
    case JRNZ => Some(0x47)
    case JRS => Some(0x41)
    case JRNS => Some(0x43)
    case _ => None
  }

  function NoOperand(m: Mnemonic): Option<Word> {
    match m
    case CLC => Some(0x7800)
    case STC => Some(0x7A00)
    case RET => Some(0xF100)
    case _ => None
  }

  function DoubleWord(m: Mnemonic): Option<Word> {
    match m
    case JMPA => Some(0x8000)
    case MVRD => Some(0x8100)
    case ADDI => Some(0x8400)
    case ANDI => Some(0x8500)
    case CALLA => Some(0xF000)
    case _ => None
  }

  function TwoCycleSingleWord(m: Mnemonic): Option<Word> {
    match m
    case LDRR => Some(0x8200)
    case STRR => Some(0x8300)
    case _ => None
  }

  function InstructionSize(m: Option<Mnemonic>): Result<nat> {
    if m.None? then Ok(0)
    else if SingleRegReg(m.value).Some? || SingleReg(m.value).Some? || SingleBranch(m.value).Some?
            || NoOperand(m.value).Some? || TwoCycleSingleWord(m.value).Some? then Ok(1)
    else if DoubleWord(m.value).Some? then Ok(2)
    else Error("Unsupported mnemonic")
  }

  // ----- operands -----

  function ParseNumber(t: Token): Result<int> {
    match t
    case Number(Some(v)) => Ok(v)
    case Symbol(_, None, Some(v)) => Ok(v)
    case _ => Error("Expected immediate")
  }

  function ParseRegister(t: Token): Result<RegIndex> {
    match t
    case Symbol(_, Some(r), _) => Ok(r)
    case _ => Error("Unknown register")
  }

  /** The first candidate above the current address. */
  function FirstAbove(candidates: seq<nat>, current: nat): Option<nat> {
    if candidates == [] then None
    else if candidates[0] > current then Some(candidates[0])
    else FirstAbove(candidates[1..], current)
  }

  /** The last candidate at or below the current address. */
  function LastAtOrBelow(candidates: seq<nat>, current: nat): Option<nat> {
    if candidates == [] then None
    else
      var last := candidates[|candidates| - 1];
      if last <= current then Some(last) else LastAtOrBelow(candidates[..|candidates| - 1], current)
  }

  function Candidates(table: Table, name: string): seq<nat> {
    if name in table then table[name] else []
  }

  function FromOption(o: Option<nat>): Result<int> {
    match o
    case Some(a) => Ok(a)
    case None => Error("Cannot resolve local label")
  }

  function ResolveTarget(t: Token, current: nat, table: Table): Result<int> {
    match t
    case Number(_) => ParseNumber(t)
    case Local(name, true) => FromOption(FirstAbove(Candidates(table, name), current))
    case Local(name, false) => FromOption(LastAtOrBelow(Candidates(table, name), current))
    case Symbol(text, _, _) =>
      if text in table && table[text] != [] then Ok(table[text][0]) else ParseNumber(t)
  }

  // ----- encoding; the fields of an instruction word are disjoint, so joining them is adding them -----

  function Fields(base: nat, dr: RegIndex, sr: RegIndex): Word
    requires base + 0xFF < 0x1_0000
  {
    base + dr * 0x10 + sr
  }

  function EncodeRegReg(base: nat, ops: seq<Token>): Result<seq<Word>>
    requires base + 0xFF < 0x1_0000
  {
    if |ops| != 2 then Error("expects 2 operands")
    else
      match (ParseRegister(ops[0]), ParseRegister(ops[1]))
      case (Ok(dr), Ok(sr)) => Ok([Fields(base, dr, sr)])
      case _ => Error("Unknown register")
  }

  function EncodeReg(base: nat, ops: seq<Token>): Result<seq<Word>>
    requires base + 0xFF < 0x1_0000
  {
    if |ops| != 1 then Error("expects 1 operand")
    else
      match ParseRegister(ops[0])
      case Ok(dr) => Ok([Fields(base, dr, 0)])
      case _ => Error("Unknown register")
  }

  /** A word with a signed 8-bit distance from `origin`, followed by `rest`. */
  function EncodeRelative(base: nat, ops: seq<Token>, address: nat, origin: nat, rest: seq<Word>, table: Table)
    : Result<seq<Word>>
    requires base + 0xFF < 0x1_0000
  {
    if |ops| != 1 then Error("expects 1 operand")
    else
      match ResolveTarget(ops[0], address, table)
      case Error(e) => Error(e)
      case Ok(target) =>
        var offset := target - origin;
        if -128 <= offset <= 127 then Ok([base + offset % 0x100] + rest)
        else Error("offset out of range")
  }

  function EncodeRegImm(base: nat, ops: seq<Token>, address: nat, table: Table): Result<seq<Word>>
    requires base + 0xFF < 0x1_0000
  {
    if |ops| != 2 then Error("expects 2 operands")
    else
      match (ParseRegister(ops[0]), ResolveTarget(ops[1], address, table))
      case (Ok(dr), Ok(imm)) => Ok([Fields(base, dr, 0), Wrap(imm)])
      case _ => Error("bad operands")
  }

  function EncodeLine(line: Line, address: nat, table: Table): Result<seq<Word>> {
    if line.mnemonic.None? then Ok([])
    else
      var m, ops := line.mnemonic.value, line.operands;
      if SingleRegReg(m).Some? then EncodeRegReg(SingleRegReg(m).value * 0x100, ops)
      else if SingleReg(m).Some? then EncodeReg(SingleReg(m).value * 0x100, ops)
      else if SingleBranch(m).Some? then
        EncodeRelative(SingleBranch(m).value * 0x100, ops, address, address + 1, [], table)
      else if NoOperand(m).Some? then
        if ops != [] then Error("expects no operands") else Ok([NoOperand(m).value])
      else if m == MVRD || m == ADDI || m == ANDI then EncodeRegImm(DoubleWord(m).value, ops, address, table)
      else if m == JMPA then
        if |ops| != 1 then Error("JMPA expects 1 operand")
        else
          match ResolveTarget(ops[0], address, table)
          case Error(e) => Error(e)
          case Ok(target) => Ok([DoubleWord(m).value, Wrap(target)])
      else if m == CALLA then EncodeRelative(DoubleWord(m).value, ops, address, address + 2, [0x0000], table)
      else if TwoCycleSingleWord(m).Some? then EncodeRegReg(TwoCycleSingleWord(m).value, ops)
      else Error("Unsupported mnemonic")
  }

  // ----- layout -----

  predicate Sized(src: Source) {
    forall i :: 0 <= i < |src| ==> InstructionSize(src[i].mnemonic).Ok?
  }

  function SizeAt(src: Source, i: nat): nat
    requires i < |src| && Sized(src)
  {
    InstructionSize(src[i].mnemonic).value
  }

  /** The address of line i, and for i == |src| the length of the program. */
  function Address(src: Source, i: nat): nat
    requires i <= |src| && Sized(src)
  {
    if i == 0 then 0 else Address(src, i - 1) + SizeAt(src, i - 1)
  }

  /** The addresses at which the first n lines define a label, in source order. */
  function Definitions(src: Source, name: string, n: nat): seq<nat>
    requires n <= |src| && Sized(src)
  {
    if n == 0 then []
    else Definitions(src, name, n - 1) + Repeat(Address(src, n - 1), Count(src[n - 1].labels, name))
  }

  function Count(labels: seq<string>, name: string): nat {
    if labels == [] then 0
    else Count(labels[..|labels| - 1], name) + if labels[|labels| - 1] == name then 1 else 0
  }

  function Repeat(a: nat, k: nat): seq<nat> {
    seq(k, _ => a)
  }

  /** The table lists, for each label, the addresses of its definitions among the first n lines. */
  ghost predicate Tabulates(src: Source, table: Table, n: nat)
    requires n <= |src| && Sized(src)
  {
    forall name :: Candidates(table, name) == Definitions(src, name, n)
  }

  ghost predicate IsTable(src: Source, table: Table)
    requires Sized(src)
  {
    Tabulates(src, table, |src|)
  }

  // ----- the program -----

  /** A line with the address and the words that assembling gives it. */
  datatype SourceLine = SourceLine(line: Line, address: nat, words: seq<Word>)

  predicate LinesOf(src: Source, lines: seq<SourceLine>) {
    |lines| == |src| && forall i :: 0 <= i < |src| ==> lines[i].line == src[i]
  }

  predicate LaidOut(src: Source, lines: seq<SourceLine>) {
    LinesOf(src, lines) && Sized(src) && forall i :: 0 <= i < |src| ==> lines[i].address == Address(src, i)
  }

  method BuildLabelTable(src: Source, lines: seq<SourceLine>) returns (table: Table)
    requires LaidOut(src, lines)
    ensures IsTable(src, table)
  {
    hide InstructionSize, Repeat, Count, Definitions, Address;
    table := map[];
    NoDefinitions(src);
    for i := 0 to |lines|
      invariant Tabulates(src, table, i)
    {
      hide Tabulates;
      var before := table;
      table := AddLabels(table, lines[i].line.labels, lines[i].address);
      MoreDefinitions(src, before, table, i);
    }
  }

  lemma NoDefinitions(src: Source)
    requires Sized(src)
    ensures Tabulates(src, map[], 0)
  {}

  lemma MoreDefinitions(src: Source, t: Table, u: Table, i: nat)
    requires i < |src| && Sized(src) && Tabulates(src, t, i)
    requires forall name ::
               Candidates(u, name) == Candidates(t, name) + Repeat(Address(src, i), Count(src[i].labels, name))
    ensures Tabulates(src, u, i + 1)
  {
    hide Candidates, InstructionSize, Address, Repeat, Count;
  }

  lemma OneMore(a: nat, k: nat)
    ensures Repeat(a, k + 1) == Repeat(a, k) + [a]
  {}

  lemma NoneAdded(table: Table, labels: seq<string>, address: nat)
    ensures forall name ::
              Candidates(table, name) == Candidates(table, name) + Repeat(address, Count(labels[..0], name))
  {
    forall name
      ensures Candidates(table, name) == Candidates(table, name) + Repeat(address, Count(labels[..0], name))
    {
      hide Candidates;
      assert Repeat(address, Count(labels[..0], name)) == [];
    }
  }

  function WithLabel(table: Table, name: string, address: nat): Table {
    table[name := Candidates(table, name) + [address]]
  }

  lemma AddedOneFor(table: Table, before: Table, labels: seq<string>, j: nat, address: nat, name: string)
    requires j < |labels|
    requires Candidates(before, name) == Candidates(table, name) + Repeat(address, Count(labels[..j], name))
    ensures Candidates(WithLabel(before, labels[j], address), name)
         == Candidates(table, name) + Repeat(address, Count(labels[..j + 1], name))
  {
    hide Repeat;
    assert labels[..j + 1][..j] == labels[..j];
    OneMore(address, Count(labels[..j], name));
  }

  lemma AddedOne(table: Table, before: Table, labels: seq<string>, j: nat, address: nat)
    requires j < |labels|
    requires forall name ::
               Candidates(before, name) == Candidates(table, name) + Repeat(address, Count(labels[..j], name))
    ensures forall name ::
              Candidates(WithLabel(before, labels[j], address), name)
              == Candidates(table, name) + Repeat(address, Count(labels[..j + 1], name))
  {
    hide Repeat, Candidates, Count, WithLabel;
    forall name
      ensures Candidates(WithLabel(before, labels[j], address), name)
           == Candidates(table, name) + Repeat(address, Count(labels[..j + 1], name))
    {
      AddedOneFor(table, before, labels, j, address, name);
    }
  }

  /** Appends an address to the entry of each label in the list, once for every time it is there. */
  method AddLabels(table: Table, labels: seq<string>, address: nat) returns (extended: Table)
    ensures forall name ::
              Candidates(extended, name) == Candidates(table, name) + Repeat(address, Count(labels, name))
  {
    hide Candidates, Repeat, Count, WithLabel;
    NoneAdded(table, labels, address);
    extended := table;
    for j := 0 to |labels|
      invariant forall name ::
        Candidates(extended, name) == Candidates(table, name) + Repeat(address, Count(labels[..j], name))
    {
      var before := extended;
      extended := WithLabel(extended, labels[j], address);
      AddedOne(table, before, labels, j, address);
    }
    assert labels[..|labels|] == labels;
  }

  /** What assembling a source gives: the words of each line, or nothing for a rejected source. */
  ghost predicate Accepted(src: Source, table: Table) {
    Sized(src) && IsTable(src, table)
    && forall i :: 0 <= i < |src| ==> EncodeLine(src[i], Address(src, i), table).Ok?
  }

  ghost function WordsAt(src: Source, table: Table, i: nat): seq<Word>
    requires i < |src| && Accepted(src, table)
  {
    EncodeLine(src[i], Address(src, i), table).value
  }

  /** The words of the first n lines. */
  ghost function Code(src: Source, table: Table, n: nat): seq<Word>
    requires n <= |src| && Accepted(src, table)
  {
    if n == 0 then [] else Code(src, table, n - 1) + WordsAt(src, table, n - 1)
  }

  /**
   * Lays out the lines, then encodes them with the labels of the whole program. It fails exactly when some
   * mnemonic has no size or some line has no encoding.
   */
  method Assemble(src: Source) returns (result: Result<(seq<SourceLine>, seq<Word>)>, table: Table)
    ensures match result
            case Ok((lines, words)) =>
              && Accepted(src, table) && LaidOut(src, lines) && words == Code(src, table, |src|)
              && forall i :: 0 <= i < |src| ==> lines[i].words == WordsAt(src, table, i)
            case Error(_) => forall t :: !Accepted(src, t)
  {
    hide LaidOut, IsTable, Accepted, Code, WordsAt;
    table := map[];
    var laidOut := Layout(src);
    if laidOut.Error? {
      UnsizedIsRejected(src);
      return Error(laidOut.reason), table;
    }
    table := BuildLabelTable(src, laidOut.value);
    result := EncodeAll(src, laidOut.value, table);
  }

  lemma UnsizedIsRejected(src: Source)
    requires !Sized(src)
    ensures forall t :: !Accepted(src, t)
  {}

  /** First pass: gives every line its address. */
  method Layout(src: Source) returns (result: Result<seq<SourceLine>>)
    ensures if result.Ok? then LaidOut(src, result.value) else !Sized(src)
  {
    hide InstructionSize;
    var lines := seq(|src|, i requires 0 <= i < |src| => SourceLine(src[i], 0, []));
    var address := 0;
    for i := 0 to |lines|
      invariant LinesOf(src, lines) && Sized(src[..i]) && address == Address(src[..i], i)
      invariant forall j :: 0 <= j < i ==> lines[j].address == Address(src[..i], j)
    {
      lines := lines[i := lines[i].(address := address)];
      match InstructionSize(src[i].mnemonic)
      case Error(e) =>
        return Error(e);
      case Ok(n) =>
        address := address + n;
        PrefixAddresses(src, i);
    }
    assert src[..|lines|] == src;
    result := Ok(lines);
  }

  /** Second pass: encodes every line with the labels of the whole program. */
  method EncodeAll(src: Source, laidOut: seq<SourceLine>, table: Table)
    returns (result: Result<(seq<SourceLine>, seq<Word>)>)
    requires LaidOut(src, laidOut) && IsTable(src, table)
    ensures match result
            case Ok((lines, words)) =>
              && Accepted(src, table) && LaidOut(src, lines) && words == Code(src, table, |src|)
              && forall i :: 0 <= i < |src| ==> lines[i].words == WordsAt(src, table, i)
            case Error(_) => forall t :: !Accepted(src, t)
  {
    hide EncodeLine, InstructionSize;
    var lines := laidOut;
    var words := [];
    for i := 0 to |lines|
      invariant LaidOut(src, lines)
      invariant forall j :: 0 <= j < i ==> EncodeLine(src[j], Address(src, j), table) == Ok(lines[j].words)
      invariant words == Joined(src, table, i)
    {
      hide IsTable, Address;
      match EncodeLine(lines[i].line, lines[i].address, table)
      case Error(e) =>
        OtherTables(src, table, i);
        return Error(e);
      case Ok(ws) =>
        lines := lines[i := lines[i].(words := ws)];
        words := words + ws;
    }
    JoinedIsCode(src, table, |src|);
    result := Ok((lines, words));
  }

  lemma PrefixAddresses(src: Source, i: nat)
    requires i < |src| && Sized(src[..i]) && InstructionSize(src[i].mnemonic).Ok?
    ensures Sized(src[..i + 1])
    ensures forall j: nat :: j <= i ==> Address(src[..i + 1], j) == Address(src[..i], j)
    ensures Address(src[..i + 1], i + 1) == Address(src[..i], i) + InstructionSize(src[i].mnemonic).value
  {
    assert forall j :: 0 <= j < i ==> src[..i + 1][j] == src[..i][j];
    SamePrefix(src[..i + 1], src[..i], i);
  }

  lemma {:induction false} SamePrefix(a: Source, b: Source, n: nat)
    requires Sized(a) && Sized(b) && n <= |a| && n <= |b|
    requires forall j :: 0 <= j < n ==> a[j] == b[j]
    ensures forall j: nat :: j <= n ==> Address(a, j) == Address(b, j)
  {
    if n == 0 {
    } else {
      SamePrefix(a, b, n - 1);
    }
  }

  /** The words of the first n lines, those without an encoding left out. */
  function Joined(src: Source, table: Table, n: nat): seq<Word>
    requires n <= |src| && Sized(src)
  {
    if n == 0 then []
    else
      Joined(src, table, n - 1) +
      match EncodeLine(src[n - 1], Address(src, n - 1), table)
      case Ok(ws) => ws
      case Error(_) => []
  }

  lemma {:induction false} JoinedIsCode(src: Source, table: Table, n: nat)
    requires n <= |src| && Accepted(src, table)
    ensures Joined(src, table, n) == Code(src, table, n)
  {
    if n == 0 {
    } else {
      JoinedIsCode(src, table, n - 1);
    }
  }

  /** Two tables of the same source resolve and encode alike. */
  lemma OtherTables(src: Source, table: Table, i: nat)
    requires i < |src| && Sized(src) && IsTable(src, table) && EncodeLine(src[i], Address(src, i), table).Error?
    ensures forall t :: !Accepted(src, t)
  {
    forall t | Sized(src) && IsTable(src, t)
      ensures EncodeLine(src[i], Address(src, i), t) == EncodeLine(src[i], Address(src, i), table)
    {
      TablesAgree(src[i], Address(src, i), table, t);
    }
  }

  lemma TablesAgree(line: Line, address: nat, t: Table, u: Table)
    requires forall name :: Candidates(t, name) == Candidates(u, name)
    ensures EncodeLine(line, address, t) == EncodeLine(line, address, u)
  {
    forall token
      ensures ResolveTarget(token, address, t) == ResolveTarget(token, address, u)
    {
      if token.Symbol? {
        assert Candidates(t, token.text) == Candidates(u, token.text);
      }
    }
  }
}
