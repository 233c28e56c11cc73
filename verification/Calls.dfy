/** Call and return, and frame facts about registers and flags. */
module Calls {
  import opened Words
  import opened Isa
  import opened Rtl
  import opened Refinement
  import opened Retirement

  predicate WritesReg(i: Instr, r: RegIndex) {
    match i
    case TwoReg(op, dr, _) => op != Cmp && op != Test && dr == r
    case OneReg(_, dr) => dr == r
    case Mvrd(dr) => dr == r
    case Ldrr(dr, _) => dr == r
    case Addi(dr) => dr == r
    case Andi(dr) => dr == r
    case Calla(_) => r == LINK
    case _ => false
  }

  /** An instruction changes no register but the one it names. */
  lemma ExecKeepsReg(i: Instr, s: Arch, r: RegIndex)
    requires !WritesReg(i, r)
    ensures Exec(i, s).regs[r] == s.regs[r]
  {
    hide TwoRegOutcome, OneRegOutcome, Sum, Plain;
  }

  /** The instructions numbered from..to of the run leave r alone. */
  predicate RunKeepsReg(s: Arch, from: nat, to: nat, r: RegIndex) {
    forall k: nat :: from <= k < to ==> !Supported(Run(s, k)) || !WritesReg(Current(Run(s, k)), r)
  }

  lemma StepKeepsReg(s: Arch, r: RegIndex)
    requires !Supported(s) || !WritesReg(Current(s), r)
    ensures Step(s).regs[r] == s.regs[r]
  {
    hide Exec;
    if Supported(s) {
      ExecKeepsReg(Current(s), Skip(s), r);
    }
  }

  lemma {:induction false} RegKept(s: Arch, from: nat, to: nat, r: RegIndex)
    requires from <= to && RunKeepsReg(s, from, to, r)
    ensures Run(s, to).regs[r] == Run(s, from).regs[r]
  {
    hide Step, Supported, WritesReg;
    if from == to {
    } else {
      RegKept(s, from, to - 1, r);
      StepKeepsReg(Run(s, to - 1), r);
    }
  }

  predicate CallsAt(s: Arch) {
    Supported(s) && Current(s).Calla?
  }

  predicate ReturnsAt(s: Arch) {
    Supported(s) && Current(s).Ret?
  }

  /**
   * From a CALLA at address A, any run that leaves R15 alone until a RET continues at A + 2, and neither the
   * call nor the return touches the flags.
   */
  lemma CallReturns(s: Arch, n: nat)
    requires n >= 1 && CallsAt(s) && RunKeepsReg(s, 1, n, LINK) && ReturnsAt(Run(s, n))
    ensures Run(s, n + 1).pc == Wrap(s.pc + 2)
    ensures Run(s, 1).flags == s.flags && Run(s, n + 1).flags == Run(s, n).flags
    ensures Run(s, 1).pc == Wrap(s.pc + 2 + Current(s).offset)
  {
    hide Step, CallsAt, ReturnsAt, RunKeepsReg;
    assert Run(s, 0) == s;
    CallStep(s);
    RegKept(s, 1, n, LINK);
    ReturnStep(Run(s, n));
  }

  /** Between a CALLA and a RET anything may happen: the RET returns iff R15 is again what the CALLA left there. */
  lemma ReturnsExactly(s: Arch, n: nat)
    requires n >= 1 && CallsAt(s) && ReturnsAt(Run(s, n))
    ensures Run(s, 1).regs[15] == (s.pc + 2) % 0x1_0000
    ensures Run(s, n + 1).pc == (s.pc + 2) % 0x1_0000 <==> Run(s, n).regs[15] == Run(s, 1).regs[15]
  {
    hide Step, CallsAt, ReturnsAt;
    assert Run(s, 0) == s;
    CallStep(s);
    ReturnStep(Run(s, n));
  }

  lemma CallStep(s: Arch)
    requires CallsAt(s)
    ensures var t := Step(s);
            && t.regs[LINK] == Wrap(s.pc + 2) && t.flags == s.flags
            && t.pc == Wrap(s.pc + 2 + Current(s).offset)
  {
    hide Decode;
  }

  lemma ReturnStep(s: Arch)
    requires ReturnsAt(s)
    ensures Step(s).pc == s.regs[LINK] && Step(s).flags == s.flags
  {
    hide Decode;
  }

  /**
   * The same in the RTL, at the cycles in which the CALLA and the RET have retired: the call lands on its target
   * with the flags it found, and the return lands on A + 2 with the flags before it.
   */
  lemma RtlCallReturns(s: System, n: nat)
    requires AtFetch(s)
    requires var a := ArchOf(s);
             n >= 1 && CallsAt(a) && RunKeepsReg(a, 1, n, LINK) && ReturnsAt(Run(a, n))
    ensures var t := Ticks(s, TotalCycles(ArchOf(s), n + 1));
            && AtFetch(t) && t.core.pc == Wrap(s.core.pc + 2)
            && t.core.flags == Ticks(s, TotalCycles(ArchOf(s), n)).core.flags
    ensures var t := Ticks(s, TotalCycles(ArchOf(s), 1));
            && AtFetch(t) && t.core.flags == s.core.flags
            && t.core.pc == Wrap(s.core.pc + 2 + Current(ArchOf(s)).offset)
  {
    hide Tick, Step, CallsAt, ReturnsAt, RunKeepsReg, CyclesOf;
    CallReturns(ArchOf(s), n);
    RunRefines(s, 1);
    RunRefines(s, n);
    RunRefines(s, n + 1);
  }
}
