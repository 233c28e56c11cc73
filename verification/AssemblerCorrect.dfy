/** The assembler is correct: layout, labels, decoding, and the meaning of the assembled program. */
module AssemblerCorrect {
  import opened Words
  import opened Results
  import opened Isa
  import opened Assembler
  import opened SourceMachine

  // ----- layout -----

  lemma AddressStep(src: Source, i: nat)
    requires Sized(src) && i < |src|
    ensures Address(src, i + 1) == Address(src, i) + SizeAt(src, i)
  {}

  /** Every accepted line encodes to as many words as the layout reserved. */
  lemma EncodingHasSize(line: Line, address: nat, table: Table)
    requires InstructionSize(line.mnemonic).Ok? && EncodeLine(line, address, table).Ok?
    ensures |EncodeLine(line, address, table).value| == InstructionSize(line.mnemonic).value
  {
    hide ResolveTarget, ParseRegister;
  }

  lemma {:induction false} AddressesRise(src: Source, i: nat, j: nat)
    requires i < j <= |src| && Sized(src)
    ensures Address(src, i) + SizeAt(src, i) <= Address(src, j)
  {
    hide InstructionSize;
    if i + 1 == j {
    } else {
      AddressesRise(src, i, j - 1);
    }
  }

  lemma {:induction false} CodeLength(src: Source, table: Table, n: nat)
    requires n <= |src| && Accepted(src, table)
    ensures |Code(src, table, n)| == Address(src, n)
  {
    hide EncodeLine, InstructionSize, IsTable;
    if n == 0 {
    } else {
      CodeLength(src, table, n - 1);
      EncodingHasSize(src[n - 1], Address(src, n - 1), table);
    }
  }

  /** The words of line i stand at its address. */
  lemma {:induction false} CodeAt(src: Source, table: Table, n: nat, i: nat)
    requires i < n <= |src| && Accepted(src, table)
    ensures var a := Address(src, i);
            && a + SizeAt(src, i) <= |Code(src, table, n)| && |WordsAt(src, table, i)| == SizeAt(src, i)
            && forall k :: 0 <= k < SizeAt(src, i) ==> Code(src, table, n)[a + k] == WordsAt(src, table, i)[k]
  {
    hide EncodeLine, InstructionSize, IsTable, Address, SizeAt, WordsAt;
    CodeLength(src, table, n - 1);
    if i < n - 1 {
      CodeAt(src, table, n - 1, i);
    } else {
      WordsFit(src, table, i);
    }
  }

  lemma WordsFit(src: Source, table: Table, i: nat)
    requires i < |src| && Accepted(src, table)
    ensures |WordsAt(src, table, i)| == SizeAt(src, i)
  {
    hide EncodeLine, InstructionSize, IsTable;
    EncodingHasSize(src[i], Address(src, i), table);
  }

  // ----- labels -----

  lemma {:induction false} FirstAboveAppend(a: seq<nat>, b: seq<nat>, current: nat)
    ensures FirstAbove(a + b, current) ==
            if FirstAbove(a, current).Some? then FirstAbove(a, current) else FirstAbove(b, current)
  {
    if a == [] {
      assert a + b == b;
    } else {
      FirstAboveAppend(a[1..], b, current);
      assert (a + b)[1..] == a[1..] + b;
    }
  }

  lemma {:induction false} FirstAboveRepeat(x: nat, k: nat, current: nat)
    ensures FirstAbove(Repeat(x, k), current) == if k > 0 && x > current then Some(x) else None
  {
    if k == 0 {
    } else {
      FirstAboveRepeat(x, k - 1, current);
      assert Repeat(x, k)[1..] == Repeat(x, k - 1);
    }
  }

  lemma {:induction false} LastAppendRepeat(a: seq<nat>, x: nat, k: nat, current: nat)
    ensures LastAtOrBelow(a + Repeat(x, k), current) ==
            if k > 0 && x <= current then Some(x) else LastAtOrBelow(a, current)
  {
    if k == 0 {
      assert a + Repeat(x, k) == a;
    } else {
      var all := a + Repeat(x, k);
      LastAppendRepeat(a, x, k - 1, current);
      assert all[..|all| - 1] == a + Repeat(x, k - 1);
    }
  }

  lemma {:induction false} CountMeansIn(labels: seq<string>, name: string)
    ensures Count(labels, name) > 0 <==> name in labels
  {
    if labels == [] {
    } else {
      CountMeansIn(labels[..|labels| - 1], name);
      assert labels == labels[..|labels| - 1] + [labels[|labels| - 1]];
    }
  }

  /** Looking above the address of an instruction finds the first definition on a later line. */
  lemma {:induction false} ForwardLabel(src: Source, name: string, i: nat, n: nat)
    requires i < |src| && n <= |src| && Sized(src) && SizeAt(src, i) > 0
    ensures FirstAbove(Definitions(src, name, n), Address(src, i))
         == AddressOfLine(src, FirstDefinition(src, name, i + 1, n))
  {
    hide InstructionSize, FirstAbove, Count, Repeat;
    if n > 0 {
      var a := Address(src, n - 1);
      var k := Count(src[n - 1].labels, name);
      ForwardLabel(src, name, i, n - 1);
      FirstAboveAppend(Definitions(src, name, n - 1), Repeat(a, k), Address(src, i));
      FirstAboveRepeat(a, k, Address(src, i));
      CountMeansIn(src[n - 1].labels, name);
      if i < n - 1 {
        AddressesRise(src, i, n - 1);
      } else if n - 1 < i {
        AddressesRise(src, n - 1, i);
      }
    } else {
      assert FirstAbove([], Address(src, i)).None? by { FirstAboveNothing(Address(src, i)); }
    }
  }

  lemma FirstAboveNothing(current: nat)
    ensures FirstAbove([], current).None?
  {}

  /** Looking at or below the address of an instruction finds the last definition up to its line. */
  lemma {:induction false} BackwardLabel(src: Source, name: string, i: nat, n: nat)
    requires i < |src| && n <= |src| && Sized(src) && SizeAt(src, i) > 0
    ensures LastAtOrBelow(Definitions(src, name, n), Address(src, i))
         == AddressOfLine(src, LastDefinition(src, name, if n < i + 1 then n else i + 1))
  {
    hide InstructionSize, Count, Repeat;
    if n == 0 {
    } else {
      hide LastAtOrBelow;
      var a := Address(src, n - 1);
      var k := Count(src[n - 1].labels, name);
      BackwardLabel(src, name, i, n - 1);
      LastAppendRepeat(Definitions(src, name, n - 1), a, k, Address(src, i));
      CountMeansIn(src[n - 1].labels, name);
      if i < n - 1 {
        AddressesRise(src, i, n - 1);
      } else if n - 1 < i {
        AddressesRise(src, n - 1, i);
      }
    }
  }

  /** A plain name is its first definition. */
  lemma {:induction false} NamedLabel(src: Source, name: string, n: nat)
    requires n <= |src| && Sized(src)
    ensures var ds, j := Definitions(src, name, n), FirstDefinition(src, name, 0, n);
            if j.Some? then ds != [] && ds[0] == Address(src, j.value) else ds == []
  {
    hide InstructionSize;
    if n == 0 {
    } else {
      NamedLabel(src, name, n - 1);
      CountMeansIn(src[n - 1].labels, name);
    }
  }

  /** Resolution by address gives every operand the meaning it has by source order, and fails when it has none. */
  lemma ResolutionFollowsSource(src: Source, table: Table, i: nat, t: Token)
    requires i < |src| && Sized(src) && IsTable(src, table) && SizeAt(src, i) > 0
    ensures match Denotes(src, i, t)
            case Some(v) => ResolveTarget(t, Address(src, i), table) == Ok(v)
            case None => ResolveTarget(t, Address(src, i), table).Error?
  {
    hide InstructionSize, Definitions, FirstAbove, LastAtOrBelow;
    match t
    case Number(_) =>
    case Local(name, true) => ForwardLabel(src, name, i, |src|);
    case Local(name, false) => BackwardLabel(src, name, i, |src|);
    case Symbol(text, _, _) =>
      NamedLabel(src, text, |src|);
      assert Candidates(table, text) == Definitions(src, text, |src|);
  }

  // ----- decoding -----

  lemma FieldsSplit(base: nat, dr: RegIndex, sr: RegIndex)
    requires base + 0xFF < 0x1_0000 && base % 0x100 == 0
    ensures var w := Fields(base, dr, sr);
            Opcode(w) == base / 0x100 && DestField(w) == dr && SourceField(w) == sr
  {
    var q, w := base / 0x100, Fields(base, dr, sr);
    assert w == 0x100 * q + (0x10 * dr + sr) && 0x10 * dr + sr < 0x100;
    assert w / 0x10 == 0x10 * q + dr;
  }

  lemma TwoRegDecodes(m: Mnemonic, dr: RegIndex, sr: RegIndex)
    requires SingleRegReg(m).Some?
    ensures TwoRegOpOf(m).Some?
    ensures Decode(Fields(SingleRegReg(m).value * 0x100, dr, sr)) == Some(TwoReg(TwoRegOpOf(m).value, dr, sr))
  {
    hide Fields, Opcode, DestField, SourceField;
    FieldsSplit(SingleRegReg(m).value * 0x100, dr, sr);
  }

  lemma OneRegDecodes(m: Mnemonic, dr: RegIndex)
    requires SingleReg(m).Some?
    ensures OneRegOpOf(m).Some?
    ensures Decode(Fields(SingleReg(m).value * 0x100, dr, 0)) == Some(OneReg(OneRegOpOf(m).value, dr))
  {
    hide Fields, Opcode, DestField, SourceField;
    FieldsSplit(SingleReg(m).value * 0x100, dr, 0);
  }

  lemma MemoryDecodes(m: Mnemonic, dr: RegIndex, sr: RegIndex)
    requires TwoCycleSingleWord(m).Some?
    ensures Decode(Fields(TwoCycleSingleWord(m).value, dr, sr))
         == Some(if m == LDRR then Ldrr(dr, sr) else Strr(dr, sr))
  {
    hide Fields, Opcode, DestField, SourceField;
    FieldsSplit(TwoCycleSingleWord(m).value, dr, sr);
  }

  lemma ImmediateDecodes(m: Mnemonic, dr: RegIndex)
    requires m == MVRD || m == ADDI || m == ANDI
    ensures Decode(Fields(DoubleWord(m).value, dr, 0))
         == Some(if m == MVRD then Mvrd(dr) else if m == ADDI then Addi(dr) else Andi(dr))
  {
    hide Fields, Opcode, DestField, SourceField;
    FieldsSplit(DoubleWord(m).value, dr, 0);
  }

  /** The low byte of a signed 8-bit distance reads back as the distance. */
  lemma OffsetSplit(base: nat, offset: int)
    requires base + 0xFF < 0x1_0000 && base % 0x100 == 0 && -128 <= offset <= 127
    ensures var w := base + offset % 0x100;
            Opcode(w) == base / 0x100 && Signed8(Imm8(w)) == offset
  {}

  lemma BranchDecodes(m: Mnemonic, offset: int)
    requires SingleBranch(m).Some? && -128 <= offset <= 127
    ensures ConditionOf(m).Some?
    ensures Decode(SingleBranch(m).value * 0x100 + offset % 0x100) == Some(Jump(ConditionOf(m).value, offset))
  {
    hide Opcode, Imm8, Signed8, DestField, SourceField;
    OffsetSplit(SingleBranch(m).value * 0x100, offset);
  }

  lemma CallDecodes(offset: int)
    requires -128 <= offset <= 127
    ensures Decode(0xF000 + offset % 0x100) == Some(Calla(offset))
  {
    hide Opcode, Imm8, Signed8, DestField, SourceField;
    OffsetSplit(0xF000, offset);
  }

  /** The opcode of a mnemonic. */
  function OpcodeOf(m: Mnemonic): Option<Byte> {
    if SingleRegReg(m).Some? then SingleRegReg(m)
    else if SingleReg(m).Some? then SingleReg(m)
    else if SingleBranch(m).Some? then SingleBranch(m)
    else
      match (NoOperand(m), DoubleWord(m), TwoCycleSingleWord(m))
      case (Some(w), _, _) => Some(Opcode(w))
      case (_, Some(w), _) => Some(Opcode(w))
      case (_, _, Some(w)) => Some(Opcode(w))
      case _ => None
  }

  lemma RegisterOpcode(base: nat, ops: seq<Token>, address: nat, table: Table)
    requires base + 0xFF < 0x1_0000 && base % 0x100 == 0
    ensures EncodeRegReg(base, ops).Ok? ==>
              EncodeRegReg(base, ops).value != [] && Opcode(EncodeRegReg(base, ops).value[0]) == base / 0x100
    ensures EncodeReg(base, ops).Ok? ==>
              EncodeReg(base, ops).value != [] && Opcode(EncodeReg(base, ops).value[0]) == base / 0x100
    ensures var r := EncodeRegImm(base, ops, address, table);
            r.Ok? ==> r.value != [] && Opcode(r.value[0]) == base / 0x100
  {
    hide Fields, Opcode, ResolveTarget, ParseRegister;
    forall dr, sr: RegIndex
      ensures Opcode(Fields(base, dr, sr)) == base / 0x100
    {
      FieldsSplit(base, dr, sr);
    }
  }

  lemma RelativeOpcode(base: nat, ops: seq<Token>, address: nat, origin: nat, rest: seq<Word>, table: Table)
    requires base + 0xFF < 0x1_0000 && base % 0x100 == 0
    requires EncodeRelative(base, ops, address, origin, rest, table).Ok?
    ensures var ws := EncodeRelative(base, ops, address, origin, rest, table).value;
            ws != [] && Opcode(ws[0]) == base / 0x100
  {
    hide ResolveTarget;
  }

  /** The first word of every encoded line carries the opcode of its mnemonic. */
  lemma EncodedOpcode(line: Line, address: nat, table: Table)
    requires line.mnemonic.Some? && EncodeLine(line, address, table).Ok?
    ensures var ws := EncodeLine(line, address, table).value;
            ws != [] && OpcodeOf(line.mnemonic.value) == Some(Opcode(ws[0]))
  {
    hide EncodeRegReg, EncodeReg, EncodeRegImm, EncodeRelative, ResolveTarget;
    var m, ops := line.mnemonic.value, line.operands;
    if SingleRegReg(m).Some? {
      RegisterOpcode(SingleRegReg(m).value * 0x100, ops, address, table);
    } else if SingleReg(m).Some? {
      RegisterOpcode(SingleReg(m).value * 0x100, ops, address, table);
    } else if SingleBranch(m).Some? {
      RelativeOpcode(SingleBranch(m).value * 0x100, ops, address, address + 1, [], table);
    } else if m == CALLA {
      RelativeOpcode(0xF000, ops, address, address + 2, [0x0000], table);
    } else if DoubleWord(m).Some? {
      RegisterOpcode(DoubleWord(m).value, ops, address, table);
    } else if TwoCycleSingleWord(m).Some? {
      RegisterOpcode(TwoCycleSingleWord(m).value, ops, address, table);
    }
  }

  // ----- meaning -----

  /** Memory holds the program at address 0. */
  ghost predicate Loaded(src: Source, table: Table, mem: Mem)
    requires Accepted(src, table)
  {
    && ProgramSize(src) <= 0x1_0000 && |Code(src, table, |src|)| == ProgramSize(src)
    && forall k :: 0 <= k < ProgramSize(src) ==> mem[k] == Code(src, table, |src|)[k]
  }

  /** The machine is about to execute the instruction of line i. */
  ghost predicate At(src: Source, table: Table, i: nat, s: Arch) {
    && Accepted(src, table) && Loaded(src, table, s.mem)
    && i < |src| && s.pc == Address(src, i) && src[i].mnemonic.Some?
  }

  /** Memory shows the words of the line, and every operand resolves to what it denotes. */
  lemma WordsInMemory(src: Source, table: Table, i: nat, s: Arch)
    requires At(src, table, i, s)
    ensures i < |src| && Sized(src) && src[i].mnemonic.Some?
    ensures EncodeLine(src[i], s.pc, table).Ok?
    ensures var ws := EncodeLine(src[i], s.pc, table).value;
            && |ws| >= 1 && s.pc + |ws| <= 0x1_0000 && Fetch(s) == ws[0]
            && (|ws| >= 2 ==> s.mem[Wrap(s.pc + 1)] == ws[1])
    ensures forall k: nat {:trigger ValueAt(src, i, k)} | k < |src[i].operands| ::
              match ResolveTarget(src[i].operands[k], s.pc, table)
              case Ok(v) => ValueAt(src, i, k) == Some(v)
              case Error(_) => ValueAt(src, i, k) == None
  {
    hide EncodeLine, InstructionSize, IsTable, Code, Address, Denotes, ResolveTarget;
    CodeAt(src, table, |src|, i);
    var ws, a := WordsAt(src, table, i), Address(src, i);
    InstructionsHaveSize(src[i]);
    assert s.mem[a + 0] == ws[0];
    assert |ws| >= 2 ==> s.mem[a + 1] == ws[1];
    forall k: nat | k < |src[i].operands|
      ensures match ResolveTarget(src[i].operands[k], s.pc, table)
              case Ok(v) => ValueAt(src, i, k) == Some(v)
              case Error(_) => ValueAt(src, i, k) == None
    {
      ResolutionFollowsSource(src, table, i, src[i].operands[k]);
    }
  }

  lemma InstructionsHaveSize(line: Line)
    requires line.mnemonic.Some? && InstructionSize(line.mnemonic).Ok?
    ensures InstructionSize(line.mnemonic).value > 0
  {}

  ghost predicate Simulates(src: Source, i: nat, s: Arch)
    requires i < |src| && Sized(src)
  {
    Perform(src, i, s).Some? ==>
      Supported(s) && Step(s) == Perform(src, i, s).value && (Current(s).Ret? ==> src[i].mnemonic == Some(RET))
  }

  lemma RegisterLine(src: Source, table: Table, i: nat, s: Arch)
    requires At(src, table, i, s)
    requires var m := src[i].mnemonic.value; SingleRegReg(m).Some? || SingleReg(m).Some?
    ensures Simulates(src, i, s)
  {
    hide Exec, Decode, Fields, Address, Denotes, ResolveTarget, Sized, IsTable, Accepted, Loaded;
    WordsInMemory(src, table, i, s);
    var m := src[i].mnemonic.value;
    var r0, r1 := RegAt(src[i].operands, 0), RegAt(src[i].operands, 1);
    if SingleRegReg(m).Some? && r0.Some? && r1.Some? {
      TwoRegDecodes(m, r0.value, r1.value);
    } else if SingleReg(m).Some? && r0.Some? {
      OneRegDecodes(m, r0.value);
    }
  }

  lemma RelativeWord(base: nat, ops: seq<Token>, address: nat, origin: nat, rest: seq<Word>, table: Table)
    requires base + 0xFF < 0x1_0000 && EncodeRelative(base, ops, address, origin, rest, table).Ok?
    ensures |ops| == 1 && ResolveTarget(ops[0], address, table).Ok?
    ensures var offset := ResolveTarget(ops[0], address, table).value - origin;
            && -128 <= offset <= 127
            && EncodeRelative(base, ops, address, origin, rest, table).value == [base + offset % 0x100] + rest
  {
    hide ResolveTarget;
  }

  lemma BranchStep(s: Arch, m: Mnemonic, target: int)
    requires SingleBranch(m).Some? && ConditionOf(m).Some?
    requires var offset := target - s.pc - 1;
             -128 <= offset <= 127 && Fetch(s) == SingleBranch(m).value * 0x100 + offset % 0x100
    ensures Supported(s) && Current(s).Jump? && Some(Step(s)) == Branch(ConditionOf(m).value, Some(target), s)
  {
    hide Decode, Fetch, ConditionOf, SingleBranch;
    BranchDecodes(m, target - s.pc - 1);
  }

  lemma CallStep(s: Arch, target: int)
    requires var offset := target - s.pc - 2; -128 <= offset <= 127 && Fetch(s) == 0xF000 + offset % 0x100
    ensures Supported(s) && Current(s).Calla? && Some(Step(s)) == Call(Some(target), s)
  {
    hide Decode, Fetch, Exec, Call;
    CallDecodes(target - s.pc - 2);
    CallExec(s, target);
  }

  lemma CallExec(s: Arch, target: int)
    ensures Some(Exec(Calla(target - s.pc - 2), Skip(s))) == Call(Some(target), s)
  {
    assert Wrap(Wrap(s.pc + 2) + (target - s.pc - 2)) == Wrap(target);
  }

  lemma RelativeLine(src: Source, i: nat, table: Table, s: Arch)
    requires i < |src| && Sized(src) && src[i].mnemonic.Some?
    ensures var m, ops := src[i].mnemonic.value, src[i].operands;
            && (SingleBranch(m).Some? ==>
                  && ConditionOf(m).Some?
                  && EncodeLine(src[i], s.pc, table)
                     == EncodeRelative(SingleBranch(m).value * 0x100, ops, s.pc, s.pc + 1, [], table)
                  && Perform(src, i, s) == Branch(ConditionOf(m).value, ValueAt(src, i, 0), s))
            && (m == CALLA ==>
                  && EncodeLine(src[i], s.pc, table) == EncodeRelative(0xF000, ops, s.pc, s.pc + 2, [0x0000], table)
                  && Perform(src, i, s) == Call(ValueAt(src, i, 0), s))
  {
    hide Sized, Denotes, EncodeRelative, ValueAt, Branch, Call;
  }

  /** A taken branch lands on the resolved target. */
  lemma BranchLine(src: Source, table: Table, i: nat, s: Arch)
    requires At(src, table, i, s) && SingleBranch(src[i].mnemonic.value).Some?
    ensures Simulates(src, i, s)
  {
    hide At, Step, Sized, EncodeLine, EncodeRelative, Perform, ResolveTarget, ValueAt, ConditionOf, SingleBranch,
         Branch;
    WordsInMemory(src, table, i, s);
    RelativeLine(src, i, table, s);
    var m := src[i].mnemonic.value;
    RelativeWord(SingleBranch(m).value * 0x100, src[i].operands, s.pc, s.pc + 1, [], table);
    BranchStep(s, m, ValueAt(src, i, 0).value);
  }

  /** A call lands on the resolved target and leaves the address after its two words in R15. */
  lemma CallLine(src: Source, table: Table, i: nat, s: Arch)
    requires At(src, table, i, s) && src[i].mnemonic.value == CALLA
    ensures Simulates(src, i, s)
  {
    hide At, Step, Sized, EncodeLine, EncodeRelative, Perform, ResolveTarget, ValueAt, Call;
    WordsInMemory(src, table, i, s);
    RelativeLine(src, i, table, s);
    RelativeWord(0xF000, src[i].operands, s.pc, s.pc + 2, [0x0000], table);
    CallStep(s, ValueAt(src, i, 0).value);
  }

  lemma PlainDecodes()
    ensures Decode(0x7800) == Some(SetCarry(0)) && Decode(0x7A00) == Some(SetCarry(1))
    ensures Decode(0xF100) == Some(Ret) && Decode(0x8000) == Some(Jmpa)
  {}

  lemma NoOperandLine(src: Source, table: Table, i: nat, s: Arch)
    requires At(src, table, i, s) && NoOperand(src[i].mnemonic.value).Some?
    ensures Simulates(src, i, s)
  {
    hide Decode, Address, Denotes, ResolveTarget, Sized, IsTable, Accepted, Loaded;
    WordsInMemory(src, table, i, s);
    PlainDecodes();
  }

  lemma JumpLine(src: Source, table: Table, i: nat, s: Arch)
    requires At(src, table, i, s) && src[i].mnemonic.value == JMPA
    ensures Simulates(src, i, s)
  {
    hide Decode, Address, Denotes, ResolveTarget, Sized, IsTable, Accepted, Loaded;
    WordsInMemory(src, table, i, s);
    PlainDecodes();
  }

  lemma ImmediateIsTwoWords(src: Source, i: nat, table: Table, s: Arch)
    requires i < |src| && Sized(src) && src[i].mnemonic.Some?
    requires var m := src[i].mnemonic.value; m == MVRD || m == ADDI || m == ANDI
    ensures var m, ops := src[i].mnemonic.value, src[i].operands;
            && EncodeLine(src[i], s.pc, table) == EncodeRegImm(DoubleWord(m).value, ops, s.pc, table)
            && Perform(src, i, s) == Immediate(m, RegAt(ops, 0), ValueAt(src, i, 1), s)
  {
    hide Sized, Denotes, EncodeRegImm, ValueAt, Immediate;
  }

  lemma ImmediateStep(s: Arch, m: Mnemonic, r: RegIndex, value: int)
    requires m == MVRD || m == ADDI || m == ANDI
    requires Fetch(s) == Fields(DoubleWord(m).value, r, 0) && s.mem[Wrap(s.pc + 1)] == Wrap(value)
    ensures Supported(s) && !Current(s).Ret? && Some(Step(s)) == Immediate(m, Some(r), Some(value), s)
  {
    hide Decode, Fetch, Fields, Exec, Immediate;
    ImmediateDecodes(m, r);
    ImmediateExec(s, m, r, value);
  }

  lemma ImmediateExec(s: Arch, m: Mnemonic, r: RegIndex, value: int)
    requires m == MVRD || m == ADDI || m == ANDI
    requires s.mem[Wrap(s.pc + 1)] == Wrap(value)
    ensures var i := if m == MVRD then Mvrd(r) else if m == ADDI then Addi(r) else Andi(r);
            Some(Exec(i, Skip(s))) == Immediate(m, Some(r), Some(value), s)
  {
    hide Sum, Plain, And16;
    assert Wrap(Wrap(s.pc + 1) + 1) == Wrap(s.pc + 2);
  }

  lemma ImmediateLine(src: Source, table: Table, i: nat, s: Arch)
    requires At(src, table, i, s)
    requires var m := src[i].mnemonic.value; m == MVRD || m == ADDI || m == ANDI
    ensures Simulates(src, i, s)
  {
    WordsInMemory(src, table, i, s);
    ImmediateIsTwoWords(src, i, table, s);
    hide At, Step, Fields, Sized, EncodeLine, Perform, ResolveTarget, ValueAt, Immediate;
    ImmediateStep(s, src[i].mnemonic.value, RegAt(src[i].operands, 0).value, ValueAt(src, i, 1).value);
  }

  lemma MemoryLine(src: Source, table: Table, i: nat, s: Arch)
    requires At(src, table, i, s) && TwoCycleSingleWord(src[i].mnemonic.value).Some?
    ensures Simulates(src, i, s)
  {
    hide Exec, Decode, Fields, Address, Denotes, ResolveTarget, Sized, IsTable, Accepted, Loaded;
    WordsInMemory(src, table, i, s);
    var r0, r1 := RegAt(src[i].operands, 0), RegAt(src[i].operands, 1);
    if r0.Some? && r1.Some? {
      MemoryDecodes(src[i].mnemonic.value, r0.value, r1.value);
    }
  }

  /** Whatever a line of the source does, the assembled words do; and only RET assembles to a return. */
  lemma LineMeans(src: Source, table: Table, i: nat, s: Arch)
    requires At(src, table, i, s)
    ensures Simulates(src, i, s)
  {
    hide At, Simulates;
    var m := MnemonicAt(src, table, i, s);
    match m
    case ADD | SUB | AND | CMP | XOR | TEST | OR | MVRR | ADC | SBB => RegisterLine(src, table, i, s);
    case DEC | INC | SHL | SHR | NOT | ASR => RegisterLine(src, table, i, s);
    case JR | JRC | JRNC | JRZ | JRNZ | JRS | JRNS => BranchLine(src, table, i, s);
    case CLC | STC | RET => NoOperandLine(src, table, i, s);
    case JMPA => JumpLine(src, table, i, s);
    case MVRD | ADDI | ANDI => ImmediateLine(src, table, i, s);
    case CALLA => CallLine(src, table, i, s);
    case LDRR | STRR => MemoryLine(src, table, i, s);
    case Unknown(_) =>
  }

  lemma MnemonicAt(src: Source, table: Table, i: nat, s: Arch) returns (m: Mnemonic)
    requires At(src, table, i, s)
    ensures i < |src| && src[i].mnemonic == Some(m) && Sized(src) && !m.Unknown?
  {
    hide EncodeLine, Address, Loaded, IsTable;
    m := src[i].mnemonic.value;
  }

  /** No line of the source changes the program. */
  lemma ProgramKept(src: Source, table: Table, i: nat, s: Arch)
    requires i < |src| && Accepted(src, table) && Loaded(src, table, s.mem) && Perform(src, i, s).Some?
    ensures Loaded(src, table, Perform(src, i, s).value.mem)
  {
    hide Accepted, Code, Denotes, TwoRegOutcome, OneRegOutcome, Sum, Plain;
    assert Sized(src) by { AcceptedIsSized(src, table); }
    var t := Perform(src, i, s).value;
    assert forall k :: 0 <= k < ProgramSize(src) ==> t.mem[k] == s.mem[k];
  }

  lemma AcceptedIsSized(src: Source, table: Table)
    requires Accepted(src, table)
    ensures Sized(src)
  {}

  /**
   * Assembly preserves meaning. Every run of the source that never stores into the program and only reaches
   * lines of the program is, step for step, the run of the assembled words; it meets no unsupported opcode and
   * leaves the program intact.
   */
  lemma {:induction false} ProgramMeans(src: Source, table: Table, path: seq<nat>, s: Arch)
    requires Accepted(src, table) && Loaded(src, table, s.mem) && Follow(src, path, s).Some?
    ensures Follow(src, path, s).value == Run(s, |path|)
    ensures Loaded(src, table, Run(s, |path|).mem)
    ensures forall k: nat :: k < |path| ==>
              && Supported(Run(s, k)) && path[k] < |src|
              && (Current(Run(s, k)).Ret? ==> src[path[k]].mnemonic == Some(RET))
  {
    hide Accepted, Loaded, Step, Supported, Perform, Current;
    assert Sized(src) by { AcceptedIsSized(src, table); }
    if path == [] {
    } else {
      var front, i := path[..|path| - 1], path[|path| - 1];
      ProgramMeans(src, table, front, s);
      var t := Run(s, |front|);
      AtLine(src, table, i, t);
      LineMeans(src, table, i, t);
      ProgramKept(src, table, i, t);
    }
  }

  lemma AtLine(src: Source, table: Table, i: nat, s: Arch)
    requires Accepted(src, table) && Loaded(src, table, s.mem) && i < |src| && s.pc == Address(src, i)
    requires Perform(src, i, s).Some?
    ensures At(src, table, i, s)
  {}
}
