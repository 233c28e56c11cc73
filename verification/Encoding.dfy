/**
 * The machine words of every source line, in plain arithmetic: one table of formats and opcodes, fields by their
 * weights, and operands by their meaning in the source. The assembler produces exactly these words, and rejects
 * exactly the lines that have none.
 */
module Encoding {
  import opened Words
  import opened Results
  import opened Assembler
  import opened SourceMachine
  import opened AssemblerCorrect

  datatype Format =
    | TwoRegisters(opcode: Byte)
    | OneRegister(opcode: Byte)
    | Branch(opcode: Byte)
    | NoOperands(opcode: Byte)
    | RegisterAndWord(opcode: Byte)
    | TargetWord(opcode: Byte)
    | BranchAndZero(opcode: Byte)

  function FormatOf(m: Mnemonic): Option<Format> {
    match m
    case ADD => Some(TwoRegisters(0x00))
    case SUB => Some(TwoRegisters(0x01))
    case AND => Some(TwoRegisters(0x02))
    case CMP => Some(TwoRegisters(0x03))
    case XOR => Some(TwoRegisters(0x04))
    case TEST => Some(TwoRegisters(0x05))
    case OR => Some(TwoRegisters(0x06))
    case MVRR => Some(TwoRegisters(0x07))
    case DEC => Some(OneRegister(0x08))
    case INC => Some(OneRegister(0x09))
    case SHL => Some(OneRegister(0x0A))
    case SHR => Some(OneRegister(0x0B))
    case ADC => Some(TwoRegisters(0x0C))
    case SBB => Some(TwoRegisters(0x0D))
    case NOT => Some(OneRegister(0x0E))
    case ASR => Some(OneRegister(0x0F))
    case JR => Some(Branch(0x40))
    case JRS => Some(Branch(0x41))
    case JRNS => Some(Branch(0x43))
    case JRC => Some(Branch(0x44))
    case JRNC => Some(Branch(0x45))
    case JRZ => Some(Branch(0x46))
    case JRNZ => Some(Branch(0x47))
    case CLC => Some(NoOperands(0x78))
    case STC => Some(NoOperands(0x7A))
    case JMPA => Some(TargetWord(0x80))
    case MVRD => Some(RegisterAndWord(0x81))
    case LDRR => Some(TwoRegisters(0x82))
    case STRR => Some(TwoRegisters(0x83))
    case ADDI => Some(RegisterAndWord(0x84))
    case ANDI => Some(RegisterAndWord(0x85))
    case CALLA => Some(BranchAndZero(0xF0))
    case RET => Some(NoOperands(0xF1))
    case Unknown(_) => None
  }

  /** ws are the words of line i. */
  ghost predicate HasWords(src: Source, i: nat, ws: seq<int>)
    requires i < |src| && Sized(src)
  {
    var ops, a := src[i].operands, Address(src, i);
    var r0, r1 := RegAt(ops, 0), RegAt(ops, 1);
    if src[i].mnemonic.None? then ws == []
    else
      match FormatOf(src[i].mnemonic.value)
      case None => false
      case Some(TwoRegisters(op)) =>
        |ops| == 2 && r0.Some? && r1.Some? && ws == [op * 0x100 + r0.value * 0x10 + r1.value]
      case Some(OneRegister(op)) =>
        |ops| == 1 && r0.Some? && ws == [op * 0x100 + r0.value * 0x10]
      case Some(NoOperands(op)) => ops == [] && ws == [op * 0x100]
      case Some(Branch(op)) =>
        |ops| == 1 && ValueAt(src, i, 0).Some?
        && var offset := ValueAt(src, i, 0).value - (a + 1);
           -128 <= offset <= 127 && ws == [op * 0x100 + offset % 0x100]
      case Some(BranchAndZero(op)) =>
        |ops| == 1 && ValueAt(src, i, 0).Some?
        && var offset := ValueAt(src, i, 0).value - (a + 2);
           -128 <= offset <= 127 && ws == [op * 0x100 + offset % 0x100, 0]
      case Some(RegisterAndWord(op)) =>
        |ops| == 2 && r0.Some? && ValueAt(src, i, 1).Some?
        && ws == [op * 0x100 + r0.value * 0x10, ValueAt(src, i, 1).value % 0x1_0000]
      case Some(TargetWord(op)) =>
        |ops| == 1 && ValueAt(src, i, 0).Some? && ws == [op * 0x100, ValueAt(src, i, 0).value % 0x1_0000]
  }

  /** Operands resolve to what they mean in the source. */
  lemma OperandsResolve(src: Source, table: Table, i: nat)
    requires Sized(src) && IsTable(src, table) && i < |src| && src[i].mnemonic.Some?
    ensures forall k: nat {:trigger ValueAt(src, i, k)} | k < |src[i].operands| ::
              match ResolveTarget(src[i].operands[k], Address(src, i), table)
              case Ok(v) => ValueAt(src, i, k) == Some(v)
              case Error(_) => ValueAt(src, i, k) == None
  {
    hide Denotes, ResolveTarget, IsTable, Address;
    InstructionsHaveSize(src[i]);
    forall k: nat | k < |src[i].operands|
      ensures match ResolveTarget(src[i].operands[k], Address(src, i), table)
              case Ok(v) => ValueAt(src, i, k) == Some(v)
              case Error(_) => ValueAt(src, i, k) == None
    {
      ResolutionFollowsSource(src, table, i, src[i].operands[k]);
    }
  }

  /** Each mnemonic is encoded as its format says, with its opcode. */
  lemma FormatDecides(line: Line, a: nat, table: Table)
    requires line.mnemonic.Some?
    ensures var r, ops := EncodeLine(line, a, table), line.operands;
            match FormatOf(line.mnemonic.value)
            case None => r.Error?
            case Some(TwoRegisters(op)) => r == EncodeRegReg(op * 0x100, ops)
            case Some(OneRegister(op)) => r == EncodeReg(op * 0x100, ops)
            case Some(Branch(op)) => r == EncodeRelative(op * 0x100, ops, a, a + 1, [], table)
            case Some(BranchAndZero(op)) => r == EncodeRelative(op * 0x100, ops, a, a + 2, [0x0000], table)
            case Some(RegisterAndWord(op)) => r == EncodeRegImm(op * 0x100, ops, a, table)
            case Some(NoOperands(op)) => if ops == [] then r == Ok([op * 0x100]) else r.Error?
            case Some(TargetWord(op)) =>
              if |ops| != 1 || ResolveTarget(ops[0], a, table).Error? then r.Error?
              else r == Ok([op * 0x100, Wrap(ResolveTarget(ops[0], a, table).value)])
  {
    hide EncodeRegReg, EncodeReg, EncodeRelative, EncodeRegImm, ResolveTarget;
  }

  lemma RegistersExactly(base: nat, ops: seq<Token>, ws: seq<int>)
    requires base + 0xFF < 0x1_0000
    ensures var r0, r1 := RegAt(ops, 0), RegAt(ops, 1);
            && (EncodeRegReg(base, ops) == Ok(ws) <==>
                  |ops| == 2 && r0.Some? && r1.Some? && ws == [base + r0.value * 0x10 + r1.value])
            && (EncodeReg(base, ops) == Ok(ws) <==> |ops| == 1 && r0.Some? && ws == [base + r0.value * 0x10])
  {}

  lemma {:induction false} RelativeExactly(base: nat, ops: seq<Token>, a: nat, origin: nat, rest: seq<Word>,
                                           table: Table, ws: seq<int>)
    requires base + 0xFF < 0x1_0000 && (rest == [] || rest == [0x0000])
    ensures EncodeRelative(base, ops, a, origin, rest, table) == Ok(ws) <==>
            && |ops| == 1 && ResolveTarget(ops[0], a, table).Ok?
            && var offset := ResolveTarget(ops[0], a, table).value - origin;
               -128 <= offset <= 127
               && ws == if rest == [] then [base + offset % 0x100] else [base + offset % 0x100, 0]
  {
    hide ResolveTarget;
    if |ops| == 1 && ResolveTarget(ops[0], a, table).Ok? {
      var offset := ResolveTarget(ops[0], a, table).value - origin;
      if -128 <= offset <= 127 {
        FirstOf(base + offset % 0x100, rest);
      }
    }
  }

  lemma FirstOf(w: Word, rest: seq<Word>)
    requires rest == [] || rest == [0x0000]
    ensures [w] + rest == if rest == [] then [w] else [w, 0]
  {}

  lemma ImmediateExactly(base: nat, ops: seq<Token>, a: nat, table: Table, ws: seq<int>)
    requires base + 0xFF < 0x1_0000
    ensures EncodeRegImm(base, ops, a, table) == Ok(ws) <==>
            && |ops| == 2 && RegAt(ops, 0).Some? && ResolveTarget(ops[1], a, table).Ok?
            && ws == [base + RegAt(ops, 0).value * 0x10, ResolveTarget(ops[1], a, table).value % 0x1_0000]
  {
    hide ResolveTarget;
  }

  lemma RegisterFormatExactly(src: Source, table: Table, i: nat, ws: seq<int>)
    requires Sized(src) && i < |src| && src[i].mnemonic.Some?
    requires var f := FormatOf(src[i].mnemonic.value);
             f == None || f.value.TwoRegisters? || f.value.OneRegister? || f.value.NoOperands?
    ensures EncodeLine(src[i], Address(src, i), table) == Ok(ws) <==> HasWords(src, i, ws)
  {
    hide EncodeLine, Address, Sized, EncodeRegReg, EncodeReg, RegAt, FormatOf;
    FormatDecides(src[i], Address(src, i), table);
    match FormatOf(src[i].mnemonic.value)
    case Some(TwoRegisters(op)) => RegistersExactly(op * 0x100, src[i].operands, ws);
    case Some(OneRegister(op)) => RegistersExactly(op * 0x100, src[i].operands, ws);
    case _ =>
  }

  lemma BranchFormatExactly(src: Source, table: Table, i: nat, ws: seq<int>)
    requires Sized(src) && IsTable(src, table) && i < |src| && src[i].mnemonic.Some?
    requires var f := FormatOf(src[i].mnemonic.value); f.Some? && (f.value.Branch? || f.value.BranchAndZero?)
    ensures EncodeLine(src[i], Address(src, i), table) == Ok(ws) <==> HasWords(src, i, ws)
  {
    hide EncodeLine, ResolveTarget, IsTable, Address, Sized, EncodeRelative, RegAt, FormatOf, ValueAt;
    var ops, a := src[i].operands, Address(src, i);
    OperandsResolve(src, table, i);
    FormatDecides(src[i], a, table);
    match FormatOf(src[i].mnemonic.value)
    case Some(Branch(op)) => RelativeExactly(op * 0x100, ops, a, a + 1, [], table, ws);
    case Some(BranchAndZero(op)) => RelativeExactly(op * 0x100, ops, a, a + 2, [0x0000], table, ws);
  }

  lemma WordFormatExactly(src: Source, table: Table, i: nat, ws: seq<int>)
    requires Sized(src) && IsTable(src, table) && i < |src| && src[i].mnemonic.Some?
    requires var f := FormatOf(src[i].mnemonic.value); f.Some? && (f.value.RegisterAndWord? || f.value.TargetWord?)
    ensures EncodeLine(src[i], Address(src, i), table) == Ok(ws) <==> HasWords(src, i, ws)
  {
    hide EncodeLine, ResolveTarget, IsTable, Address, Sized, EncodeRegImm, RegAt, FormatOf, ValueAt;
    var ops, a := src[i].operands, Address(src, i);
    OperandsResolve(src, table, i);
    FormatDecides(src[i], a, table);
    match FormatOf(src[i].mnemonic.value)
    case Some(RegisterAndWord(op)) => ImmediateExactly(op * 0x100, ops, a, table, ws);
    case Some(TargetWord(op)) =>
  }

  /** The assembler gives a line exactly its words, and an error exactly when it has none. */
  lemma EncodesExactly(src: Source, table: Table, i: nat, ws: seq<int>)
    requires Sized(src) && IsTable(src, table) && i < |src|
    ensures EncodeLine(src[i], Address(src, i), table) == Ok(ws) <==> HasWords(src, i, ws)
  {
    hide IsTable, Address, Sized, FormatOf;
    if src[i].mnemonic.None? {
    } else {
      hide EncodeLine, HasWords;
      match FormatOf(src[i].mnemonic.value)
      case Some(Branch(_)) => BranchFormatExactly(src, table, i, ws);
      case Some(BranchAndZero(_)) => BranchFormatExactly(src, table, i, ws);
      case Some(RegisterAndWord(_)) => WordFormatExactly(src, table, i, ws);
      case Some(TargetWord(_)) => WordFormatExactly(src, table, i, ws);
      case _ => RegisterFormatExactly(src, table, i, ws);
    }
  }

  // ----- every sized source has a label table -----

  function AllLabels(src: Source): set<string> {
    set i, k | 0 <= i < |src| && 0 <= k < |src[i].labels| :: src[i].labels[k]
  }

  lemma TableExists(src: Source) returns (table: Table)
    requires Sized(src)
    ensures IsTable(src, table)
  {
    hide Definitions, InstructionSize;
    table := map name | name in AllLabels(src) :: Definitions(src, name, |src|);
    forall name
      ensures Candidates(table, name) == Definitions(src, name, |src|)
    {
      NamedLabel(src, name, |src|);
    }
  }

  // ----- the whole program -----

  ghost predicate Encodable(src: Source, i: nat)
    requires i < |src| && Sized(src)
  {
    exists ws :: HasWords(src, i, ws)
  }

  ghost predicate HasEncoding(src: Source) {
    exists table :: Accepted(src, table)
  }

  lemma AcceptedHasTable(src: Source, table: Table)
    requires Accepted(src, table)
    ensures Sized(src) && IsTable(src, table)
  {}

  lemma AcceptedExactly(src: Source, table: Table)
    requires Sized(src) && IsTable(src, table)
    ensures Accepted(src, table) <==> forall i :: 0 <= i < |src| ==> Encodable(src, i)
  {
    hide IsTable, Address, EncodeLine, HasWords, Sized, Encodable;
    forall i | 0 <= i < |src|
      ensures EncodeLine(src[i], Address(src, i), table).Ok? <==> Encodable(src, i)
    {
      EncodableExactly(src, table, i);
    }
  }

  lemma EncodableExactly(src: Source, table: Table, i: nat)
    requires Sized(src) && IsTable(src, table) && i < |src|
    ensures EncodeLine(src[i], Address(src, i), table).Ok? <==> Encodable(src, i)
  {
    hide IsTable, Address, EncodeLine, HasWords, Sized;
    if EncodeLine(src[i], Address(src, i), table).Ok? {
      EncodesExactly(src, table, i, EncodeLine(src[i], Address(src, i), table).value);
    }
    if ws :| HasWords(src, i, ws) {
      EncodesExactly(src, table, i, ws);
    }
  }

  /** A source can be assembled iff every mnemonic is known and every line has words. */
  lemma AssemblesExactly(src: Source)
    ensures HasEncoding(src) <==> Sized(src) && forall i :: 0 <= i < |src| ==> Encodable(src, i)
  {
    hide Accepted, Encodable, IsTable, Sized;
    if table :| Accepted(src, table) {
      AcceptedHasTable(src, table);
      AcceptedExactly(src, table);
    }
    if Sized(src) {
      var table := TableExists(src);
      AcceptedExactly(src, table);
    }
  }

  /** The words of every line stand in the assembled code from its address to the next, and there is no other code. */
  lemma CodeHasWords(src: Source, table: Table, i: nat)
    requires Accepted(src, table) && i < |src|
    ensures Sized(src) && |Code(src, table, |src|)| == ProgramSize(src)
    ensures Address(src, i) <= Address(src, i + 1) <= |Code(src, table, |src|)|
    ensures HasWords(src, i, Code(src, table, |src|)[Address(src, i)..Address(src, i + 1)])
  {
    hide IsTable, EncodeLine, HasWords, InstructionSize, Address;
    var code, ws := Code(src, table, |src|), WordsAt(src, table, i);
    CodeLength(src, table, |src|);
    CodeAt(src, table, |src|, i);
    AddressStep(src, i);
    assert code[Address(src, i)..Address(src, i + 1)] == ws;
    EncodesExactly(src, table, i, ws);
  }
}
