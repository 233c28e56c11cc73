/** Halt detection: a jump to itself is a fixed point, and the models stop at it after a fixed number of repeats. */
module Halting {
  import opened Words
  import opened Isa
  import opened Reference

  const HALT_WORD: Word := 0x40FF

  predicate AtHalt(s: Arch) {
    Fetch(s) == HALT_WORD
  }

  /** The k-th instruction (from 0) is the first 0x40FF. */
  predicate FirstHalt(s: Arch, k: nat) {
    AtHalt(Run(s, k)) && forall j: nat :: j < k ==> !AtHalt(Run(s, j))
  }

  /** JR with offset -1 jumps to itself and changes nothing. */
  lemma HaltIsFixedPoint(s: Arch)
    requires AtHalt(s)
    ensures Step(s) == s && Supported(s)
  {}

  lemma {:induction false} HaltStays(s: Arch, k: nat, n: nat)
    requires AtHalt(Run(s, k)) && k <= n
    ensures Run(s, n) == Run(s, k)
  {
    hide Step;
    if k == n {
    } else {
      HaltStays(s, k, n - 1);
      HaltIsFixedPoint(Run(s, n - 1));
    }
  }

  /** The streak counter before and after the first 0x40FF. */
  lemma {:induction false} StreakValue(s: Arch, k: nat, n: nat)
    requires FirstHalt(s, k)
    ensures Streak(s, n) == if n <= k then 0 else n - k
  {
    hide Step;
    if n == 0 {
    } else {
      StreakValue(s, k, n - 1);
      if n > k {
        HaltStays(s, k, n - 1);
      }
    }
  }

  /** A positive streak has a first 0x40FF behind it. */
  lemma {:induction false} StreakHasStart(s: Arch, n: nat) returns (k: nat)
    requires Streak(s, n) > 0
    ensures k < n && FirstHalt(s, k)
  {
    hide Step, AtHalt;
    if j: nat :| j < n - 1 && AtHalt(Run(s, j)) {
      k := FirstHaltBefore(s, j);
    } else {
      k := n - 1;
      assert AtHalt(Run(s, n - 1)) by { ZeroUnlessHalt(s, n); }
    }
  }

  lemma ZeroUnlessHalt(s: Arch, n: nat)
    requires n > 0
    ensures Streak(s, n) > 0 ==> AtHalt(Run(s, n - 1))
  {
    hide Step;
  }

  lemma {:induction false} FirstHaltBefore(s: Arch, n: nat) returns (k: nat)
    requires AtHalt(Run(s, n))
    ensures k <= n && FirstHalt(s, k)
  {
    hide Step, AtHalt;
    if j: nat :| j < n && AtHalt(Run(s, j)) {
      k := FirstHaltBefore(s, j);
    } else {
      k := n;
    }
  }

  lemma AllSupportedUpTo(s: Arch, k: nat, n: nat)
    requires AllSupported(s, k) && AtHalt(Run(s, k))
    ensures AllSupported(s, n)
  {
    hide Step, Supported, AtHalt;
    forall j: nat | j < n
      ensures Supported(Run(s, j))
    {
      if j >= k {
        HaltStays(s, k, j);
        HaltIsFixedPoint(Run(s, j));
      }
    }
  }

  /** The outcome of a run and the number of its instructions are determined. */
  lemma RunEndsOnce(s: Arch, budget: int, threshold: int, o1: RunOutcome, n1: nat, o2: RunOutcome, n2: nat)
    requires RunEnds(s, budget, threshold, o1, n1) && RunEnds(s, budget, threshold, o2, n2)
    ensures o1 == o2 && n1 == n2
  {
    hide Step, Supported, Fetch;
    assert n1 < n2 ==> Supported(Run(s, n1));
    assert n2 < n1 ==> Supported(Run(s, n2));
  }

  /**
   * Halt detection is exact for every threshold of at least one: a run halts if and only if the first
   * 0x40FF is the k-th instruction (from 0), everything before it is supported, and k + threshold
   * instructions fit in the budget. The final state is that of the first 0x40FF, whatever the threshold.
   */
  lemma HaltDetectionIsExact(s: Arch, budget: int, threshold: int, outcome: RunOutcome, n: nat)
    requires threshold >= 1 && RunEnds(s, budget, threshold, outcome, n)
    ensures outcome.Halted? <==> exists k: nat :: FirstHalt(s, k) && AllSupported(s, k) && k + threshold <= budget
    ensures outcome.Halted? ==>
              exists k: nat :: FirstHalt(s, k) && n == k + threshold && Run(s, n) == Run(s, k)
  {
    hide Step, Supported, FirstHalt, AllSupported;
    if outcome.Halted? {
      var k := HaltedAt(s, budget, threshold, n);
    }
    if k: nat :| FirstHalt(s, k) && AllSupported(s, k) && k + threshold <= budget {
      HaltsIfItFits(s, budget, threshold, outcome, n, k);
    }
  }

  lemma HaltedAt(s: Arch, budget: int, threshold: int, n: nat) returns (k: nat)
    requires threshold >= 1 && RunEnds(s, budget, threshold, Halted, n)
    ensures FirstHalt(s, k) && AllSupported(s, k) && n == k + threshold <= budget && Run(s, n) == Run(s, k)
  {
    hide Step, Supported, AtHalt;
    k := StreakHasStart(s, n);
    StreakValue(s, k, n);
    StreakValue(s, k, k + threshold);
    HaltStays(s, k, n);
  }

  lemma HaltsIfItFits(s: Arch, budget: int, threshold: int, outcome: RunOutcome, n: nat, k: nat)
    requires threshold >= 1 && RunEnds(s, budget, threshold, outcome, n)
    requires FirstHalt(s, k) && AllSupported(s, k) && k + threshold <= budget
    ensures outcome.Halted?
  {
    hide Step, Supported, FirstHalt, AllSupported;
    var h := k + threshold;
    assert AtHalt(Run(s, k)) by { HaltAtFirst(s, k); }
    AllSupportedUpTo(s, k, h);
    StreakValue(s, k, h);
    forall m: nat | m < h
      ensures Streak(s, m) < threshold
    {
      StreakValue(s, k, m);
    }
    RunEndsOnce(s, budget, threshold, outcome, n, Halted, h);
  }

  lemma HaltAtFirst(s: Arch, k: nat)
    requires FirstHalt(s, k)
    ensures AtHalt(Run(s, k))
  {}
}
