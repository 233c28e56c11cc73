/** The event log of the reference model is a consistent history of the run. */
module History {
  import opened Words
  import opened Results
  import opened Isa
  import opened Reference

  /** The effect of one memory access on a memory image. */
  function Apply(m: Mem, a: Access): Mem {
    if a.Write? then m[a.address := a.data] else m
  }

  /** Replays the WRITE events of a log, oldest first. */
  function Replay(m: Mem, log: seq<Event>): Mem {
    if log == [] then m else Apply(Replay(m, log[..|log| - 1]), log[|log| - 1].access)
  }

  /** The data of the latest WRITE to an address in a log, or else the initial word. */
  function LatestWrite(m: Mem, log: seq<Event>, address: Word): Word {
    if log == [] then m[address]
    else
      var last := log[|log| - 1].access;
      if last.Write? && last.address == address then last.data
      else LatestWrite(m, log[..|log| - 1], address)
  }

  lemma StepWrites(s: Arch)
    requires Supported(s)
    ensures Step(s).mem == Apply(s.mem, AccessOf(Current(s), s))
    ensures AccessOf(Current(s), s) == EventOf(0, s).access
  {
    hide TwoRegOutcome, OneRegOutcome, Sum, Plain;
  }

  lemma {:induction false} LogAt(s: Arch, start: nat, n: nat, i: nat)
    requires AllSupported(s, n) && i < n
    ensures Log(s, start, n)[i] == EventOf(start + i, Run(s, i))
    ensures Log(s, start, n)[..i] == Log(s, start, i)
  {
    hide Step, Supported, EventOf;
    if i < n - 1 {
      LogAt(s, start, n - 1, i);
      assert Log(s, start, n)[..i] == Log(s, start, n - 1)[..i];
    } else {
      assert Log(s, start, n)[..i] == Log(s, start, n - 1);
    }
  }

  /** Consecutive events agree on PC and flags; the first starts at the initial state, the last ends at the final. */
  lemma LogChains(s: Arch, start: nat, n: nat, i: nat)
    requires AllSupported(s, n) && i < n
    ensures var e := Log(s, start, n)[i];
            && e.step == start + i
            && e.pcBefore == Run(s, i).pc && e.flagsBefore == Run(s, i).flags
            && e.pcAfter == Run(s, i + 1).pc && e.flagsAfter == Run(s, i + 1).flags
    ensures i + 1 < n ==>
              var e, f := Log(s, start, n)[i], Log(s, start, n)[i + 1];
              e.pcAfter == f.pcBefore && e.flagsAfter == f.flagsBefore
  {
    hide Step, Supported;
    LogAt(s, start, n, i);
    if i + 1 < n {
      LogAt(s, start, n, i + 1);
    }
  }

  /** Replaying the WRITE events on the initial image gives the final memory. */
  lemma {:induction false} ReplayGivesMemory(s: Arch, start: nat, n: nat)
    requires AllSupported(s, n)
    ensures Replay(s.mem, Log(s, start, n)) == Run(s, n).mem
  {
    hide Step, Supported, EventOf, AccessOf;
    if n == 0 {
    } else {
      var log := Log(s, start, n);
      ReplayGivesMemory(s, start, n - 1);
      assert log[..|log| - 1] == Log(s, start, n - 1);
      AccessRecorded(start + n - 1, Run(s, n - 1));
      StepWrites(Run(s, n - 1));
    }
  }

  lemma AccessRecorded(n: nat, s: Arch)
    requires Supported(s)
    ensures EventOf(n, s).access == AccessOf(Current(s), s)
  {
    hide Step;
  }

  lemma {:induction false} ReplayIsLatestWrite(m: Mem, log: seq<Event>, address: Word)
    ensures Replay(m, log)[address] == LatestWrite(m, log, address)
  {
    if log == [] {
    } else {
      ReplayIsLatestWrite(m, log[..|log| - 1], address);
    }
  }

  /** Each READ event carries the data of the latest earlier WRITE to its address, or else the initial word. */
  lemma ReadsLatestWrite(s: Arch, start: nat, n: nat, i: nat)
    requires AllSupported(s, n) && i < n && Log(s, start, n)[i].access.Read?
    ensures var log := Log(s, start, n);
            log[i].access.data == LatestWrite(s.mem, log[..i], log[i].access.address)
  {
    hide Step, Supported, EventOf;
    LogAt(s, start, n, i);
    assert AllSupported(s, i);
    ReplayGivesMemory(s, start, i);
    var t := Run(s, i);
    assert Supported(t);
    AccessRecorded(start + i, t);
    ReplayIsLatestWrite(s.mem, Log(s, start, i), AccessOf(Current(t), t).address);
  }

  /** The registers that an instruction names, in the fields of its word. */
  predicate Names(i: Instr, dr: RegIndex, sr: RegIndex) {
    match i
    case TwoReg(_, d, s) => dr == d && sr == s
    case OneReg(_, d) => dr == d
    case Mvrd(d) => dr == d
    case Ldrr(d, s) => dr == d && sr == s
    case Strr(d, s) => dr == d && sr == s
    case Addi(d) => dr == d
    case Andi(d) => dr == d
    case _ => true
  }

  /** The word of every event: where it was fetched, its fields, and the registers that they name. */
  lemma EventWord(n: nat, s: Arch)
    requires Supported(s)
    ensures var e := EventOf(n, s);
            && e.step == n && e.instrAddr == e.pcBefore == s.pc && e.ir == s.mem[s.pc]
            && e.ir == e.opcode * 0x100 + e.dr * 0x10 + e.sr && Names(Current(s), e.dr, e.sr)
  {
    hide Step, AccessOf;
    ReadingsOf(Fetch(s), 0, 0);
  }

  /** The transfer of control in every event: taken and with its target, or neither. */
  lemma EventControl(n: nat, s: Arch)
    requires Supported(s)
    ensures var e := EventOf(n, s);
            match Current(s)
            case Jump(cond, d) =>
              e.branchTarget == Some(Step(s).pc) && e.offset == Some(d) && (cond == Always ==> e.branchTaken)
            case Calla(d) => e.branchTaken && e.branchTarget == Some(Step(s).pc) && e.offset == Some(d)
            case Jmpa => e.branchTaken && e.branchTarget == Some(Step(s).pc) && e.offset == None
            case Ret => e.branchTaken && e.branchTarget == Some(Step(s).pc) && e.offset == None
            case _ => !e.branchTaken && e.branchTarget == None && e.offset == None
  {
    hide Step, AccessOf;
  }

  /** The data of every event: the word after the instruction where it has one, and the memory access. */
  lemma EventData(n: nat, s: Arch)
    requires Supported(s)
    ensures var e, next := EventOf(n, s), s.mem[(s.pc + 1) % 0x1_0000];
            match Current(s)
            case Jmpa => e.immediate == Some(next) && e.extraWord == Some(next) && e.access == NoAccess
            case Mvrd(_) => e.immediate == Some(next) && e.extraWord == Some(next) && e.access == NoAccess
            case Addi(_) => e.immediate == Some(next) && e.extraWord == Some(next) && e.access == NoAccess
            case Andi(_) => e.immediate == Some(next) && e.extraWord == Some(next) && e.access == NoAccess
            case Calla(_) => e.immediate == None && e.extraWord == Some(next) && e.access == NoAccess
            case Ldrr(_, sr) =>
              && e.immediate == None && e.extraWord == None
              && e.access == Read(s.regs[sr], s.mem[s.regs[sr]])
            case Strr(dr, sr) =>
              && e.immediate == None && e.extraWord == None
              && e.access == Write(s.regs[dr], s.regs[sr]) && Step(s).mem == s.mem[s.regs[dr] := s.regs[sr]]
            case _ => e.immediate == None && e.extraWord == None && e.access == NoAccess
  {
    hide Decode, TwoRegOutcome, OneRegOutcome;
  }

  /** Every event of a log is that of its instruction, so all of the above holds of it. */
  lemma LogRecords(s: Arch, start: nat, n: nat, i: nat)
    requires AllSupported(s, n) && i < n
    ensures var e, t := Log(s, start, n)[i], Run(s, i);
            && Supported(t) && e.step == start + i && e.instrAddr == e.pcBefore == t.pc && e.ir == t.mem[t.pc]
            && e.ir == e.opcode * 0x100 + e.dr * 0x10 + e.sr && Names(Current(t), e.dr, e.sr)
            && (e.branchTarget.Some? <==> Current(t).Jump? || Current(t).Jmpa? || Current(t).Calla? || Current(t).Ret?)
            && (e.branchTarget.Some? ==> e.branchTarget == Some(e.pcAfter) && e.pcAfter == Run(s, i + 1).pc)
            && (e.branchTarget.Some? && !(Current(t).Jump? && Current(t).cond != Always) ==> e.branchTaken)
            && (e.branchTaken ==> e.branchTarget.Some?)
            && e.offset == (match Current(t)
                            case Jump(_, d) => Some(d)
                            case Calla(d) => Some(d)
                            case _ => None)
            && e.extraWord == (match Current(t)
                               case Jmpa | Mvrd(_) | Addi(_) | Andi(_) | Calla(_) => Some(t.mem[(t.pc + 1) % 0x1_0000])
                               case _ => None)
            && e.immediate == (if Current(t).Calla? then None else e.extraWord)
            && e.access == (match Current(t)
                            case Ldrr(_, sr) => Read(t.regs[sr], t.mem[t.regs[sr]])
                            case Strr(dr, sr) => Write(t.regs[dr], t.regs[sr])
                            case _ => NoAccess)
  {
    hide Step, Supported, Current, EventOf, Names;
    LogAt(s, start, n, i);
    LogChains(s, start, n, i);
    EventWord(start + i, Run(s, i));
    EventControl(start + i, Run(s, i));
    EventData(start + i, Run(s, i));
  }

  /**
   * The log calls a conditional branch taken when PC did not fall through. That is the condition of the
   * branch except when the offset is zero: such a branch is never called taken.
   */
  lemma BranchTakenMeans(n: nat, s: Arch)
    requires Supported(s) && IsConditional(Current(s))
    ensures EventOf(n, s).branchTaken <==> Holds(Current(s).cond, s.flags) && Current(s).offset != 0
  {
    var i := Current(s);
    assert -128 <= i.offset <= 127;
    assert Wrap(Wrap(s.pc + 1) + i.offset) == Wrap(s.pc + 1) <==> i.offset == 0;
  }

  /** A taken branch that the log calls not taken: JRNC with offset 0 and C clear. */
  lemma TakenBranchNotRecorded(s: Arch)
    requires s.pc == 0 && s.flags.c == 0 && s.mem[0] == 0x4500
    ensures Supported(s) && Current(s) == Jump(IfNotC, 0) && Holds(IfNotC, s.flags)
    ensures !EventOf(0, s).branchTaken
  {
    BranchTakenMeans(0, s);
  }
}
