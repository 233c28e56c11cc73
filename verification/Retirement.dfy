/** Whole runs of the RTL: which cycles retire an instruction, and what the state then is. */
module Retirement {
  import opened Words
  import opened Isa
  import opened Alu
  import opened Controller
  import opened Rtl
  import opened Refinement

  // ----- the two ways of detecting retirement -----

  /** verilator_tb/diff_main.cpp: the last execution stage of the instruction in IR, by its code. */
  predicate IsRetireStage(stage: nat, ir: Word) {
    var op := Opcode(ir);
    if op == 0xF0 then stage == 6
    else if op == 0x80 || op == 0x81 || op == 0x82 || op == 0x83 || op == 0x84 || op == 0x85 then stage == 7
    else stage == 3
  }

  predicate InRetireStage(s: System) {
    IsRetireStage(StageCode(s.core.state), s.core.ir)
  }

  /** tb/tb_top.sv: the stage alone. */
  predicate InRetiringState(s: System) {
    StageCode(s.core.state) in {3, 7, 6}
  }

  /** In coherent states the two tests agree. */
  lemma RetireTestsAgree(s: System)
    requires Coherent(s)
    ensures InRetireStage(s) <==> InRetiringState(s)
  {}

  // ----- one instruction -----

  /** Where the machine is j cycles after the fetch stage of a c-cycle instruction. */
  predicate Within(s: System, j: nat, c: nat) {
    && Coherent(s)
    && (AtFetch(s) <==> j == 0)
    && (InRetiringState(s) <==> j == c - 1)
  }

  lemma FetchTicks(s: System)
    requires AtFetch(s)
    ensures var w := Fetch(ArchOf(s));
            var t := Tick(Tick(s));
            && Within(s, 0, CyclesOf(w)) && Within(Tick(s), 1, CyclesOf(w))
            && t == s.(core := s.core.(state := if NeedsSecondWord(w) then State4 else State3, ir := w,
                                       pc := Wrap(s.core.pc + 1), address := s.core.pc))
  {
    hide Tick;
    FetchAddressTick(s);
    FetchDecodeTick(Tick(s));
  }

  /** Three, four or five cycles are one instruction, and only the last of them is a retire stage. */
  lemma InstructionTicks(s: System)
    requires AtFetch(s)
    ensures var c := CyclesOf(Fetch(ArchOf(s)));
            && AtFetch(Ticks(s, c)) && ArchOf(Ticks(s, c)) == Step(ArchOf(s))
            && forall j :: 0 <= j < c ==> Within(Ticks(s, j), j, c)
  {
    hide Tick, Exec;
    var w := Fetch(ArchOf(s));
    FetchTicks(s);
    var t := Tick(Tick(s));
    assert Ticks(s, 1) == Tick(s);
    assert Ticks(s, 2) == t;
    assert Ticks(s, 3) == Tick(t);
    assert ArchOf(t) == Skip(ArchOf(s));
    if Opcode(w) == 0xF0 {
      CallTicks(t);
      CoherentClock(t, true);
      CoherentClock(Tick(t), true);
      assert Ticks(s, 4) == Tick(Tick(t)) && Ticks(s, 5) == Tick(Tick(Tick(t)));
    } else if NeedsSecondWord(w) {
      DoubleTicks(t);
      CoherentClock(t, true);
      assert Ticks(s, 4) == Tick(Tick(t));
    } else {
      SingleTick(t);
    }
  }

  // ----- every run -----

  /** The exact number of cycles that the first n instructions take. */
  function TotalCycles(a: Arch, n: nat): nat {
    if n == 0 then 0 else TotalCycles(a, n - 1) + CyclesOf(Fetch(Run(a, n - 1)))
  }

  lemma {:induction false} CycleBounds(a: Arch, n: nat)
    ensures 3 * n <= TotalCycles(a, n) <= 5 * n
  {
    hide Step, Fetch;
    if n == 0 {
    } else {
      CycleBounds(a, n - 1);
    }
  }

  lemma {:induction false} TicksAdd(s: System, m: nat, n: nat)
    ensures Ticks(s, m + n) == Ticks(Ticks(s, m), n)
  {
    hide Tick;
    if n == 0 {
    } else {
      TicksAdd(s, m, n - 1);
      assert m + n - 1 == m + (n - 1);
    }
  }

  /** Forward simulation over a whole run: n instructions take TotalCycles cycles and give Run(_, n). */
  lemma {:induction false} RunRefines(s: System, n: nat)
    requires AtFetch(s)
    ensures var t := Ticks(s, TotalCycles(ArchOf(s), n));
            AtFetch(t) && ArchOf(t) == Run(ArchOf(s), n)
  {
    hide Tick, Step, CyclesOf;
    if n == 0 {
    } else {
      RunRefines(s, n - 1);
      var t := Ticks(s, TotalCycles(ArchOf(s), n - 1));
      InstructionTicks(t);
      TicksAdd(s, TotalCycles(ArchOf(s), n - 1), CyclesOf(Fetch(ArchOf(t))));
    }
  }

  /** Cycle t is cycle j of the n-th instruction. */
  predicate LiesIn(a: Arch, t: nat, n: nat, j: nat) {
    t == TotalCycles(a, n) + j && j < CyclesOf(Fetch(Run(a, n)))
  }

  lemma {:induction false} LiesInOne(a: Arch, t: nat, n: nat, j: nat, m: nat, i: nat)
    requires LiesIn(a, t, n, j) && LiesIn(a, t, m, i)
    ensures m == n && i == j
  {
    hide Step, Fetch;
    if m < n {
      TotalCyclesGrow(a, m, n);
    } else if n < m {
      TotalCyclesGrow(a, n, m);
    }
  }

  /** Every cycle lies within exactly one instruction, at a known position. */
  lemma {:induction false} Locate(s: System, t: nat) returns (n: nat, j: nat)
    requires AtFetch(s)
    ensures LiesIn(ArchOf(s), t, n, j)
    ensures forall m: nat, i: nat :: LiesIn(ArchOf(s), t, m, i) ==> m == n && i == j
    ensures Within(Ticks(s, t), j, CyclesOf(Fetch(Run(ArchOf(s), n))))
  {
    hide Tick, Step, CyclesOf, Within;
    n, j := LocateCycle(ArchOf(s), t);
    forall m: nat, i: nat | LiesIn(ArchOf(s), t, m, i)
      ensures m == n && i == j
    {
      LiesInOne(ArchOf(s), t, n, j, m, i);
    }
    RunRefines(s, n);
    var u := Ticks(s, TotalCycles(ArchOf(s), n));
    InstructionTicks(u);
    TicksAdd(s, TotalCycles(ArchOf(s), n), j);
    assert Within(Ticks(u, j), j, CyclesOf(Fetch(ArchOf(u))));
  }

  lemma {:induction false} LocateCycle(a: Arch, t: nat) returns (n: nat, j: nat)
    ensures LiesIn(a, t, n, j)
  {
    hide Step, Fetch;
    if t == 0 {
      n, j := 0, 0;
      assert TotalCycles(a, 0) == 0;
    } else {
      n, j := LocateCycle(a, t - 1);
      if j + 1 == CyclesOf(Fetch(Run(a, n))) {
        n, j := n + 1, 0;
      } else {
        j := j + 1;
      }
    }
  }

  /** Whenever the machine is in the fetch stage, it holds the state after some number of instructions. */
  lemma FetchMeansRetired(s: System, t: nat) returns (n: nat)
    requires AtFetch(s)
    ensures AtFetch(Ticks(s, t)) <==> t == TotalCycles(ArchOf(s), n)
    ensures AtFetch(Ticks(s, t)) ==> ArchOf(Ticks(s, t)) == Run(ArchOf(s), n)
  {
    hide Tick, Step, CyclesOf;
    var j;
    n, j := Locate(s, t);
    RunRefines(s, n);
  }

  /** The leaving edge that the lock-step checker looks for. */
  predicate LeavesRetireStage(s: System, t: nat) {
    t > 0 && InRetireStage(Ticks(s, t - 1)) && !InRetireStage(Ticks(s, t))
  }

  /** The previous-stage test of the debugger. */
  predicate WasRetiring(s: System, t: nat) {
    t > 0 && InRetiringState(Ticks(s, t - 1))
  }

  /** Both tests fire at the same cycles: exactly once per instruction, as the next fetch begins. */
  lemma RetirementDetectedOnce(s: System, t: nat)
    requires AtFetch(s) && t > 0
    ensures LeavesRetireStage(s, t) <==> AtFetch(Ticks(s, t))
    ensures WasRetiring(s, t) <==> AtFetch(Ticks(s, t))
  {
    hide Tick, Step, CyclesOf, LiesIn;
    var n, j := Locate(s, t - 1);
    var m, i := Locate(s, t);
    RetireTestsAgree(Ticks(s, t - 1));
    RetireTestsAgree(Ticks(s, t));
    SuccessorCycle(ArchOf(s), t - 1, n, j, m, i);
  }

  lemma {:induction false} TotalCyclesGrow(a: Arch, m: nat, n: nat)
    requires m < n
    ensures TotalCycles(a, m) + CyclesOf(Fetch(Run(a, m))) <= TotalCycles(a, n)
  {
    hide Step, Fetch;
    if m + 1 == n {
    } else {
      TotalCyclesGrow(a, m, n - 1);
    }
  }

  lemma {:induction false} SuccessorCycle(a: Arch, t: nat, n: nat, j: nat, m: nat, i: nat)
    requires LiesIn(a, t, n, j) && LiesIn(a, t + 1, m, i)
    ensures if j + 1 == CyclesOf(Fetch(Run(a, n))) then m == n + 1 && i == 0 else m == n && i == j + 1
  {
    hide Step, Fetch;
    if j + 1 == CyclesOf(Fetch(Run(a, n))) {
      assert LiesIn(a, t + 1, n + 1, 0);
      LiesInOne(a, t + 1, n + 1, 0, m, i);
    } else {
      LiesInOne(a, t + 1, n, j + 1, m, i);
    }
  }

  // ----- reset -----

  /** One cycle after reset is released the machine fetches from address 0 with everything cleared. */
  lemma ResetReachesFetch(s: System)
    ensures var t := Tick(Clock(s, false)); AtFetch(t) && ArchOf(t) == InitArch(s.mem)
  {
    hide Evaluate;
    assert SignalsOf(RESET_CORE) == DEFAULTS;
  }

  /**
   * From any power-up contents and any earlier reset pattern: after a reset, every return to the fetch stage
   * shows the state of the instruction set after some number of instructions from the initial state.
   */
  lemma RefinesAfterAnyReset(s: System, resets: seq<bool>, t: nat) returns (n: nat)
    ensures var mem := Clocks(s, resets).mem;
            var u := Ticks(Tick(Clocks(s, resets + [false])), t);
            AtFetch(u) ==> ArchOf(u) == Run(InitArch(mem), n) && t == TotalCycles(InitArch(mem), n)
  {
    hide Tick, Step, CyclesOf;
    var before := Clocks(s, resets);
    assert (resets + [false])[..|resets|] == resets;
    assert Clocks(s, resets + [false]) == Clock(before, false);
    ResetReachesFetch(before);
    n := FetchMeansRetired(Tick(Clock(before, false)), t);
  }
}
