/** verilator_tb/diff_main.cpp: the RTL and the golden model side by side, compared at every retirement. */
module Lockstep {
  import opened Words
  import opened Results
  import opened Isa
  import opened Alu
  import opened Controller
  import opened Rtl
  import opened Refinement
  import opened Retirement
  import opened Golden
  import opened Halting
  import Reference

  const RESET_CYCLES := 4
  const MAX_CYCLES := 200000
  const MAX_RETIRES := 4000
  const MAX_MISMATCHES := 5
  const HALT_REPEATS := 3

  datatype Snapshot = Snapshot(regs: Regs, pc: Word, flags: Flags)

  class Tb {
    var dut: Core
    var reset: bool
    var mem: Mem
    var cycleCount: nat

    function State(): System
      reads this
    {
      System(dut, mem)
    }

    /** The simulated registers start at zero, in the reset state. */
    constructor ()
      ensures State() == System(RESET_CORE, ZeroMem()) && !reset && cycleCount == 0
    {
      dut, reset, mem, cycleCount := RESET_CORE, false, ZeroMem(), 0;
    }

    method Load(image: seq<Word>)
      modifies this
      ensures mem == ImageMem(image) && dut == old(dut) && reset == old(reset) && cycleCount == old(cycleCount)
    {
      mem := ZeroMem();
      var i := 0;
      while i < |image| && i < |mem|
        invariant i <= |image| && i <= 0x1_0000
        invariant forall a: Word :: mem[a] == if a < i then image[a] else 0
        invariant dut == old(dut) && reset == old(reset) && cycleCount == old(cycleCount)
      {
        mem := mem[i := image[i]];
        i := i + 1;
      }
      assert forall a: Word :: mem[a] == ImageMem(image)[a];
    }

    /** Samples the bus before the rising edge and performs the memory write after it. */
    method Tick()
      modifies this
      ensures State() == Clock(old(State()), reset) && reset == old(reset) && cycleCount == old(cycleCount) + 1
    {
      hide Evaluate, Signals;
      var k := if reset then dut else RESET_CORE;
      ResetReads();
      var memToCpu := mem[k.address];
      var busAddr := k.address;
      var busData := if SignalsOf(k).wr == 1 then memToCpu else AluOf(k, 0).out;
      var busWrite := SignalsOf(k).wr == 0;
      dut := if reset then NextCore(k, busData) else RESET_CORE;
      if busWrite {
        mem := mem[busAddr := busData];
      }
      cycleCount := cycleCount + 1;
    }

    method ApplyReset()
      modifies this
      ensures AtFetch(State()) && ArchOf(State()) == InitArch(old(mem)) && reset
    {
      reset := false;
      for i := 0 to RESET_CYCLES
        invariant !reset && mem == old(mem)
        invariant i > 0 ==> dut == RESET_CORE
      {
        Tick();
      }
      reset := true;
      ResetReachesFetch(State());
      Tick();
    }

    method Snap() returns (s: Snapshot)
      ensures s == Snapshot(dut.regs, dut.pc, dut.flags)
    {
      s := Snapshot(dut.regs, dut.pc, dut.flags);
    }
  }

  lemma ResetReads()
    ensures SignalsOf(RESET_CORE).wr == 1
  {}

  method SnapGolden(g: GoldenIsa) returns (s: Snapshot)
    requires g.Valid()
    ensures s == Snapshot(g.regs[..], g.pc, g.flags)
  {
    s := Snapshot(g.regs[..], g.pc, g.flags);
  }

  /** Compares all that the snapshots hold: every register, the PC and each flag. */
  method SnapshotsEqual(tb: Tb, g: GoldenIsa) returns (equal: bool)
    requires g.Valid()
    ensures equal <==>
            && (forall r: RegIndex :: tb.dut.regs[r] == g.regs[r]) && tb.dut.pc == g.pc
            && tb.dut.flags.c == g.flags.c && tb.dut.flags.z == g.flags.z
            && tb.dut.flags.v == g.flags.v && tb.dut.flags.s == g.flags.s
  {
    var rtl := tb.Snap();
    var gold := SnapGolden(g);
    assert rtl.regs == gold.regs <==> forall r: RegIndex :: tb.dut.regs[r] == g.regs[r];
    equal := rtl == gold;
  }

  /** How the program ends: after `retires` compared instructions. */
  datatype Verdict =
    | Pass(retires: nat)
    | HaltedWithMismatches
    | TooManyMismatches
    | RetireCap
    | CycleCap
    | GoldenThrew(retires: nat)

  /** The exit status; an uncaught exception has none. */
  function ExitStatus(v: Verdict, mismatches: int): Option<int> {
    match v
    case Pass(_) => Some(0)
    case HaltedWithMismatches => Some(1)
    case TooManyMismatches => Some(1)
    case RetireCap => Some(if mismatches == 0 then 0 else 1)
    case CycleCap => Some(if mismatches == 0 then 0 else 1)
    case GoldenThrew(_) => None
  }

  predicate NoHaltYet(s: Arch, n: nat) {
    forall m: nat :: m <= n ==> Reference.Streak(s, m) < HALT_REPEATS
  }

  /** What the checker is for: the verdict is a property of the golden run alone. */
  predicate VerdictFor(s: Arch, v: Verdict) {
    match v
    case Pass(n) =>
      n > 0 && n <= MAX_RETIRES && AllKnown(s, n) && NoHaltYet(s, n - 1) && Reference.Streak(s, n) == HALT_REPEATS
    case RetireCap => AllKnown(s, MAX_RETIRES) && NoHaltYet(s, MAX_RETIRES)
    case GoldenThrew(n) => n < MAX_RETIRES && AllKnown(s, n) && NoHaltYet(s, n) && !Known(Run(s, n))
    case _ => false
  }

  /** The counters of the checker after n compared instructions. */
  predicate Progress(s: Arch, n: nat, haltStreak: int) {
    AllKnown(s, n) && NoHaltYet(s, n) && haltStreak == Reference.Streak(s, n)
  }

  lemma Advance(s: Arch, n: nat, haltStreak: int)
    requires Progress(s, n, haltStreak) && n < MAX_RETIRES && Known(Run(s, n))
    ensures var next := if Fetch(Run(s, n)) == HALT_WORD then haltStreak + 1 else 0;
            if next < HALT_REPEATS then Progress(s, n + 1, next) else VerdictFor(s, Pass(n + 1))
  {
    hide Step, Known, Fetch;
    assert Run(s, n + 1 - 1) == Run(s, n);
  }

  lemma Threw(s: Arch, n: nat, haltStreak: int)
    requires Progress(s, n, haltStreak) && n < MAX_RETIRES && !Known(Run(s, n))
    ensures VerdictFor(s, GoldenThrew(n))
  {
    hide Step, Known;
  }

  lemma Capped(s: Arch, haltStreak: int)
    requires Progress(s, MAX_RETIRES, haltStreak)
    ensures VerdictFor(s, RetireCap)
  {
    hide Step, Known;
  }

  lemma NoProgress(s: Arch)
    ensures Progress(s, 0, 0)
  {}

  /** The cycles at which the checker is about to see its (retires + 1)-th retirement. */
  predicate Awaiting(a: Arch, retires: nat, cyc: nat) {
    (retires == 0 || TotalCycles(a, retires) < cyc) && cyc <= TotalCycles(a, retires + 1)
  }

  lemma DetectsNext(s: System, retires: nat, cyc: nat)
    requires AtFetch(s) && cyc > 0 && Awaiting(ArchOf(s), retires, cyc)
    ensures LeavesRetireStage(s, cyc) <==> cyc == TotalCycles(ArchOf(s), retires + 1)
    ensures LeavesRetireStage(s, cyc) ==> ArchOf(Ticks(s, cyc)) == Run(ArchOf(s), retires + 1)
  {
    hide Tick, Step, CyclesOf;
    RetirementDetectedOnce(s, cyc);
    RunRefines(s, retires + 1);
    var n := FetchMeansRetired(s, cyc);
    if cyc == TotalCycles(ArchOf(s), n) {
      OnlyNext(ArchOf(s), retires, n);
    }
  }

  lemma OnlyNext(a: Arch, retires: nat, n: nat)
    requires TotalCycles(a, n) > 0 && Awaiting(a, retires, TotalCycles(a, n))
    ensures n == retires + 1
  {
    hide Step, Fetch;
    if n < retires {
      TotalCyclesGrow(a, n, retires);
    } else if n > retires + 1 {
      TotalCyclesGrow(a, retires + 1, n);
    }
  }

  lemma StillAwaiting(a: Arch, retires: nat, cyc: nat)
    requires Awaiting(a, retires, cyc) && cyc == TotalCycles(a, retires + 1)
    ensures Awaiting(a, retires + 1, cyc + 1)
  {
    hide Step, Fetch;
    TotalCyclesGrow(a, retires + 1, retires + 2);
  }

  lemma AwaitingBound(a: Arch, retires: nat, cyc: nat)
    requires Awaiting(a, retires, cyc)
    ensures cyc <= 5 * (retires + 1)
  {
    hide Step;
    CycleBounds(a, retires + 1);
  }

  /**
   * The program. No image makes it report a mismatch, the cycle cap never ends the loop (at most 20001
   * iterations run), and the verdict is the one that the golden run calls for.
   */
  method RunDiff(image: seq<Word>) returns (verdict: Verdict, mismatches: int, iterations: nat)
    ensures VerdictFor(InitArch(ImageMem(image)), verdict)
    ensures mismatches == 0
    ensures iterations <= 20001
  {
    hide Tick, Ticks, Step, Run, Known, InRetireStage, Fetch, Awaiting, Progress, VerdictFor, AtFetch,
         LeavesRetireStage, IsRetireStage;
    var tb := new Tb();
    tb.Load(image);
    var golden := new GoldenIsa();
    golden.LoadWords(image);
    assert golden.mem[..] == ImageMem(image);
    ghost var a := InitArch(ImageMem(image));
    assert golden.Value() == a;
    tb.ApplyReset();
    ghost var s := tb.State();
    assert ArchOf(s) == a;
    FirstCycles(s, a);

    var retires := 0;
    mismatches := 0;
    var wasRetire := false;
    var haltStreak := 0;
    verdict := CycleCap;
    iterations := 0;
    var cyc := 0;
    while cyc < MAX_CYCLES
      invariant golden.Valid() && fresh(golden.Footprint()) && fresh(tb) && tb !in golden.Footprint() && tb.reset
      invariant tb.State() == Ticks(s, cyc)
      invariant wasRetire == (cyc > 0 && InRetireStage(Ticks(s, cyc - 1)))
      invariant Awaiting(a, retires, cyc) && retires < MAX_RETIRES && cyc <= 5 * MAX_RETIRES
      invariant golden.Value() == Run(a, retires) && Progress(a, retires, haltStreak)
      invariant mismatches == 0 && iterations == cyc && verdict == CycleCap
      decreases MAX_CYCLES - cyc
    {
      iterations := iterations + 1;
      var curStage := StageCode(tb.dut.state);
      var curRetire := IsRetireStage(curStage, tb.dut.ir);
      RetireStageOf(tb.State());
      EdgeOf(s, a, retires, cyc);
      if wasRetire && !curRetire {
        if Known(Run(a, retires)) { Advance(a, retires, haltStreak); } else { Threw(a, retires, haltStreak); }
        var irG := golden.Step();
        if irG.None? {
          verdict := GoldenThrew(retires);
          break;
        }
        var equal := SnapshotsEqual(tb, golden);
        if !equal {
          mismatches := mismatches + 1;
          if mismatches >= MAX_MISMATCHES {
            verdict := TooManyMismatches;
            break;
          }
        }
        if irG.value == HALT_WORD {
          haltStreak := haltStreak + 1;
          if haltStreak >= HALT_REPEATS {
            verdict := if mismatches == 0 then Pass(retires + 1) else HaltedWithMismatches;
            break;
          }
        } else {
          haltStreak := 0;
        }
        retires := retires + 1;
        if retires >= MAX_RETIRES {
          Capped(a, haltStreak);
          verdict := RetireCap;
          break;
        }
      }
      wasRetire := curRetire;
      tb.Tick();
      cyc := cyc + 1;
      AwaitingBound(a, retires, cyc);
    }
  }

  /** What one pass of the loop may rely on about the RTL. */
  lemma EdgeOf(s: System, a: Arch, retires: nat, cyc: nat)
    requires AtFetch(s) && a == ArchOf(s) && Awaiting(a, retires, cyc)
    ensures var detected := cyc > 0 && InRetireStage(Ticks(s, cyc - 1)) && !InRetireStage(Ticks(s, cyc));
            if detected then
              && ArchOf(Ticks(s, cyc)) == Step(Run(a, retires)) == Run(a, retires + 1)
              && Awaiting(a, retires + 1, cyc + 1)
            else Awaiting(a, retires, cyc + 1)
    ensures Ticks(s, cyc + 1) == Tick(Ticks(s, cyc))
  {
    hide Tick, Step, CyclesOf, InRetireStage, Fetch;
    CycleBounds(a, 1);
    if cyc > 0 {
      DetectsNext(s, retires, cyc);
      if LeavesRetireStage(s, cyc) {
        StillAwaiting(a, retires, cyc);
      }
    }
  }

  lemma RetireStageOf(s: System)
    ensures InRetireStage(s) == IsRetireStage(StageCode(s.core.state), s.core.ir)
  {}

  lemma FirstCycles(s: System, a: Arch)
    ensures Awaiting(a, 0, 0) && Progress(a, 0, 0) && Run(a, 0) == a && Ticks(s, 0) == s
  {
    NoProgress(a);
  }

  // ----- the verdict in terms of the program under test -----

  lemma KnownUpTo(s: Arch, k: nat, n: nat)
    requires AllKnown(s, k) && AtHalt(Run(s, k))
    ensures AllKnown(s, n)
  {
    hide Step, AtHalt, Known;
    forall j: nat | j < n
      ensures Known(Run(s, j))
    {
      if j >= k {
        HaltStays(s, k, j);
        HaltIsKnown(Run(s, j));
      }
    }
  }

  lemma HaltIsKnown(s: Arch)
    requires AtHalt(s)
    ensures Known(s)
  {}

  /**
   * PASS is reported exactly when the first 0x40FF is the k-th instruction (from 0), the golden model knows
   * every instruction before it, and k + 3 retirements fit under the cap of 4000. The golden model throws exactly
   * when it does not know one of the first 4000 instructions, and the verdict names the first such.
   */
  lemma PassIsExact(s: Arch, v: Verdict)
    requires VerdictFor(s, v)
    ensures v.Pass? <==> exists k: nat :: FirstHalt(s, k) && AllKnown(s, k) && k + 3 <= 4000
    ensures v.Pass? ==> v.retires >= 3 && FirstHalt(s, v.retires - 3)
    ensures v.GoldenThrew? <==> exists n: nat :: n < 4000 && AllKnown(s, n) && !Known(Run(s, n))
    ensures v.GoldenThrew? ==> v.retires < 4000 && AllKnown(s, v.retires) && !Known(Run(s, v.retires))
    ensures v.Pass? || v.GoldenThrew? || (v.RetireCap? && AllKnown(s, 4000))
    ensures ExitStatus(v, 0) == if v.GoldenThrew? then None else Some(0)
  {
    hide Step, Known, AtHalt, FirstHalt;
    if v.Pass? {
      var k := StreakHasStart(s, v.retires);
      StreakValue(s, k, v.retires);
    }
    if k: nat :| FirstHalt(s, k) && AllKnown(s, k) && k + 3 <= 4000 {
      PassesIfItFits(s, v, k);
    }
    if n: nat :| n < 4000 && AllKnown(s, n) && !Known(Run(s, n)) {
      if v.Pass? {
        HaltAtFirst(s, v.retires - 3);
        KnownUpTo(s, v.retires - 3, n + 1);
      }
    }
  }

  lemma PassesIfItFits(s: Arch, v: Verdict, k: nat)
    requires VerdictFor(s, v)
    requires FirstHalt(s, k) && AllKnown(s, k) && k + HALT_REPEATS <= MAX_RETIRES
    ensures v.Pass?
  {
    hide Step, Known, AtHalt, FirstHalt;
    HaltAtFirst(s, k);
    StreakValue(s, k, k + HALT_REPEATS);
    KnownUpTo(s, k, if v.GoldenThrew? then v.retires + 1 else 0);
  }
}
