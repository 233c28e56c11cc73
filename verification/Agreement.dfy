/** The two software models, side by side from equal states: one instruction, and whole runs. */
module Agreement {
  import opened Words
  import opened Results
  import opened Isa
  import opened Reference
  import opened Golden

  /**
   * They retire the same word and reach the same state on every instruction but RET. On RET only the golden
   * model fails, on an unsupported opcode both fail, and a failing model has only moved past the opcode.
   */
  method StepBoth(m: CpuModel, g: GoldenIsa) returns (r: Retirement, ir: Option<Word>)
    requires g.Valid() && m.Value() == g.Value()
    modifies m, g.Footprint()
    ensures ir.Some? <==> Known(old(m.Value()))
    ensures r.Retired? <==> Supported(old(m.Value()))
    ensures ir.Some? ==> r == Retired(ir.value) && ir.value == Fetch(old(m.Value())) && m.Value() == g.Value()
    ensures r.Retired? ==> r.ir == Fetch(old(m.Value())) && m.Value() == Isa.Step(old(m.Value()))
    ensures r.Unsupported? ==> m.Value() == g.Value()
    ensures ir.None? ==> g.Value() == Skip(old(m.Value()))
    ensures r.Retired? && ir.None? ==> m.pc == old(m.regs[15]) && g.pc == Wrap(old(g.pc) as int + 1)
  {
    hide Decode;
    r := m.Step();
    ir := g.Step();
  }

  // ----- whole runs -----

  /** The words that the first n instructions retire. */
  function Trace(s: Arch, n: nat): seq<Word> {
    seq(n, k requires k >= 0 => Fetch(Run(s, k)))
  }

  /** A golden run of at most n instructions from s: it stops exactly at the first instruction it does not know. */
  predicate GoldenRan(s: Arch, n: nat, trace: seq<Word>, after: Arch) {
    var k := |trace|;
    && k <= n && AllKnown(s, k) && trace == Trace(s, k)
    && (k < n ==> !Known(Run(s, k)))
    && after == if k < n then Skip(Run(s, k)) else Run(s, n)
  }

  /**
   * The reference model beside it, from the same state: it has the same trace and the same state while golden
   * goes on, and where golden stops it retires a RET or fails as well.
   */
  predicate ReferenceRan(s: Arch, n: nat, golden: seq<Word>, trace: seq<Word>, after: Arch) {
    var k := |golden|;
    if k < n && Supported(Run(s, k)) then
      Current(Run(s, k)) == Ret && trace == golden + [Fetch(Run(s, k))] && after == Run(s, k + 1)
    else trace == golden && after == if k < n then Skip(Run(s, k)) else Run(s, n)
  }

  lemma TraceNext(s: Arch, n: nat)
    ensures Trace(s, n + 1) == Trace(s, n) + [Fetch(Run(s, n))]
  {
    hide Run, Fetch;
  }

  /** Steps both models n times, or until the golden model throws. */
  method RunBoth(m: CpuModel, g: GoldenIsa, n: nat) returns (reference: seq<Word>, golden: seq<Word>)
    requires g.Valid() && m.Value() == g.Value()
    modifies m, g.Footprint()
    ensures GoldenRan(old(m.Value()), n, golden, g.Value())
    ensures ReferenceRan(old(m.Value()), n, golden, reference, m.Value())
    ensures AllKnown(old(m.Value()), n) ==> reference == golden && |golden| == n && m.Value() == g.Value()
  {
    hide Isa.Step, Known, Supported, Fetch, Current;
    ghost var s := m.Value();
    reference, golden := [], [];
    for k := 0 to n
      invariant m.Value() == g.Value() == Run(s, k)
      invariant AllKnown(s, k) && reference == golden == Trace(s, k)
    {
      var r, ir := StepBoth(m, g);
      KnownMeansNotRet(Run(s, k));
      if r.Retired? {
        reference := reference + [r.ir];
      }
      if ir.None? {
        return;
      }
      golden := golden + [ir.value];
      TraceNext(s, k);
    }
  }

  lemma KnownMeansNotRet(s: Arch)
    ensures Known(s) <==> Supported(s) && Current(s) != Ret
  {}

  /** Both models loaded with the same image and run side by side. */
  method RunBothOnImage(image: seq<Word>, n: nat)
    returns (m: CpuModel, g: GoldenIsa, reference: seq<Word>, golden: seq<Word>)
    requires |image| <= 0x1_0000
    ensures fresh(m) && fresh(g.Footprint()) && g.Valid()
    ensures GoldenRan(InitArch(ImageMem(image)), n, golden, g.Value())
    ensures ReferenceRan(InitArch(ImageMem(image)), n, golden, reference, m.Value())
  {
    hide GoldenRan, ReferenceRan;
    m := LoadReference(image);
    g := LoadGolden(image);
    reference, golden := RunBoth(m, g, n);
  }

  /** The state in which the reference model starts on an image of words. */
  method LoadReference(image: seq<Word>) returns (m: CpuModel)
    requires |image| <= 0x1_0000
    ensures fresh(m) && m.Value() == InitArch(ImageMem(image))
  {
    m := new CpuModel(image);
    assert forall a: Word :: m.mem[a] == ImageMem(image)[a];
  }

  /** The golden model starts in the same state. */
  method LoadGolden(image: seq<Word>) returns (g: GoldenIsa)
    ensures g.Valid() && fresh(g.Footprint()) && g.Value() == InitArch(ImageMem(image))
  {
    g := new GoldenIsa();
    g.LoadWords(image);
    assert g.mem[..] == ImageMem(image);
  }
}
