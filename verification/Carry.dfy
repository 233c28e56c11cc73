/** Multi-precision arithmetic: ADC and SBB chains compute sums and differences of any length. */
module Carry {
  import opened Words
  import opened Isa

  /** Instructions that leave the flags alone, and with them a carry chain. */
  predicate KeepsFlags(i: Instr) {
    match i
    case TwoReg(op, _, _) => op == Mvrr
    case Jump(_, _) => true
    case Jmpa => true
    case Mvrd(_) => true
    case Ldrr(_, _) => true
    case Strr(_, _) => true
    case Calla(_) => true
    case Ret => true
    case _ => false
  }

  predicate IsOp(i: Instr, op: TwoRegOp) {
    i.TwoReg? && i.op2 == op
  }

  /** The first n instructions are `op` or keep the flags. */
  predicate Chain(s: Arch, n: nat, op: TwoRegOp) {
    forall k: nat :: k < n ==>
      Supported(Run(s, k)) && (IsOp(Current(Run(s, k)), op) || KeepsFlags(Current(Run(s, k))))
  }

  /** A chain may go on with its own operation, with any move, load or store, and with any transfer of control. */
  lemma ChainGoesOn(s: Arch, n: nat, op: TwoRegOp)
    requires Chain(s, n, op) && Supported(Run(s, n))
    ensures Chain(s, n + 1, op) <==>
            match Current(Run(s, n))
            case TwoReg(o, _, _) => o == op || o == Mvrr
            case OneReg(_, _) => false
            case SetCarry(_) => false
            case Addi(_) => false
            case Andi(_) => false
            case _ => true
  {
    hide Step, Supported, Current;
  }

  /** One limb: the operands of an ADC or SBB and the word it left in its destination. */
  datatype Limb = Limb(b: Word, a: Word, r: Word)

  function LimbOf(s: Arch): Limb
    requires Supported(s) && Current(s).TwoReg?
  {
    Limb(s.regs[Current(s).dr], s.regs[Current(s).sr], Step(s).regs[Current(s).dr])
  }

  function Limbs(s: Arch, n: nat, op: TwoRegOp): seq<Limb>
    requires Chain(s, n, op)
  {
    if n == 0 then []
    else
      var t := Run(s, n - 1);
      Limbs(s, n - 1, op) + (if IsOp(Current(t), op) then [LimbOf(t)] else [])
  }

  function Weight(k: nat): nat {
    if k == 0 then 1 else 0x1_0000 * Weight(k - 1)
  }

  /** Little-endian value of a sequence of words. */
  function Number(ws: seq<Word>): nat {
    if ws == [] then 0 else Number(ws[..|ws| - 1]) + ws[|ws| - 1] * Weight(|ws| - 1)
  }

  function Bs(ls: seq<Limb>): seq<Word> { seq(|ls|, i requires 0 <= i < |ls| => ls[i].b) }
  function As(ls: seq<Limb>): seq<Word> { seq(|ls|, i requires 0 <= i < |ls| => ls[i].a) }
  function Rs(ls: seq<Limb>): seq<Word> { seq(|ls|, i requires 0 <= i < |ls| => ls[i].r) }

  lemma NumberSnoc(ws: seq<Word>, w: Word)
    ensures Number(ws + [w]) == Number(ws) + w * Weight(|ws|)
  {
    assert (ws + [w])[..|ws|] == ws;
  }

  lemma NumberAppend(ls: seq<Limb>, l: Limb)
    ensures Number(Bs(ls + [l])) == Number(Bs(ls)) + l.b * Weight(|ls|)
    ensures Number(As(ls + [l])) == Number(As(ls)) + l.a * Weight(|ls|)
    ensures Number(Rs(ls + [l])) == Number(Rs(ls)) + l.r * Weight(|ls|)
  {
    hide Number, Weight;
    NumberSnoc(Bs(ls), l.b);
    NumberSnoc(As(ls), l.a);
    NumberSnoc(Rs(ls), l.r);
    assert Bs(ls + [l]) == Bs(ls) + [l.b];
    assert As(ls + [l]) == As(ls) + [l.a];
    assert Rs(ls + [l]) == Rs(ls) + [l.r];
  }

  lemma KeepsFlagsStep(s: Arch)
    requires Supported(s) && KeepsFlags(Current(s))
    ensures Step(s).flags == s.flags
  {
    hide TwoRegOutcome, OneRegOutcome, Sum, Plain;
  }

  lemma AdcStep(s: Arch)
    requires Supported(s) && IsOp(Current(s), Adc)
    ensures var l := LimbOf(s); l.b + l.a + s.flags.c == l.r + 0x1_0000 * Step(s).flags.c
  {}

  lemma SbbStep(s: Arch)
    requires Supported(s) && IsOp(Current(s), Sbb)
    ensures var l := LimbOf(s); l.b - l.a - s.flags.c == l.r - 0x1_0000 * Step(s).flags.c
  {}

  lemma Scale(w: int, b: int, a: int, c: int, r: int, c': int)
    requires b + a + c == r + 0x1_0000 * c'
    ensures b * w + a * w + c * w == r * w + c' * (0x1_0000 * w)
  {
    assert (b + a + c) * w == (r + 0x1_0000 * c') * w;
  }

  lemma WeightNext(k: nat)
    ensures Weight(k + 1) == 0x1_0000 * Weight(k)
  {}

  lemma LimbsSnoc(s: Arch, n: nat, op: TwoRegOp)
    requires n > 0 && Chain(s, n, op) && IsOp(Current(Run(s, n - 1)), op)
    ensures Limbs(s, n, op) == Limbs(s, n - 1, op) + [LimbOf(Run(s, n - 1))]
  {
    hide Step, Supported;
  }

  lemma ScaleDifference(w: int, b: int, a: int, c: int, r: int, c': int)
    requires b - a - c == r - 0x1_0000 * c'
    ensures b * w - a * w - c * w == r * w - c' * (0x1_0000 * w)
  {
    assert (b - a - c) * w == (r - 0x1_0000 * c') * w;
  }

  /**
   * Any number of ADCs, with flag-preserving instructions in between, adds the two numbers whose limbs they
   * met: value(b) + value(a) + carry-in = value(result) + carry-out * 2^(16 * limbs).
   */
  lemma {:induction false} AdcChainAdds(s: Arch, n: nat)
    requires Chain(s, n, Adc)
    ensures var ls := Limbs(s, n, Adc);
            Number(Bs(ls)) + Number(As(ls)) + s.flags.c == Number(Rs(ls)) + Run(s, n).flags.c * Weight(|ls|)
  {
    hide Step, Supported, IsOp, KeepsFlags, LimbOf;
    if n == 0 {
    } else {
      AdcChainAdds(s, n - 1);
      var t, ls := Run(s, n - 1), Limbs(s, n - 1, Adc);
      if IsOp(Current(t), Adc) {
        LimbsSnoc(s, n, Adc);
        var l := AdcLimb(t);
        NumberAppend(ls, l);
        hide Number, Weight, Bs, As, Rs, Limbs;
        WeightNext(|ls|);
        Scale(Weight(|ls|), l.b, l.a, t.flags.c, l.r, Step(t).flags.c);
      } else {
        KeepsFlagsStep(t);
        assert Limbs(s, n, Adc) == ls;
      }
    }
  }

  lemma AdcLimb(t: Arch) returns (l: Limb)
    requires Supported(t) && IsOp(Current(t), Adc)
    ensures Current(t).TwoReg? && l == LimbOf(t)
    ensures l.b + l.a + t.flags.c == l.r + 0x1_0000 * Step(t).flags.c
  {
    l := LimbOf(t);
    AdcStep(t);
  }

  /** SBB chains subtract: value(b) - value(a) - borrow-in = value(result) - borrow-out * 2^(16 * limbs). */
  lemma {:induction false} SbbChainSubtracts(s: Arch, n: nat)
    requires Chain(s, n, Sbb)
    ensures var ls := Limbs(s, n, Sbb);
            Number(Bs(ls)) - Number(As(ls)) - s.flags.c == Number(Rs(ls)) - Run(s, n).flags.c * Weight(|ls|)
  {
    hide Step, Supported, IsOp, KeepsFlags, LimbOf;
    if n == 0 {
    } else {
      SbbChainSubtracts(s, n - 1);
      var t, ls := Run(s, n - 1), Limbs(s, n - 1, Sbb);
      if IsOp(Current(t), Sbb) {
        LimbsSnoc(s, n, Sbb);
        var l := SbbLimb(t);
        NumberAppend(ls, l);
        hide Number, Weight, Bs, As, Rs, Limbs;
        WeightNext(|ls|);
        ScaleDifference(Weight(|ls|), l.b, l.a, t.flags.c, l.r, Step(t).flags.c);
      } else {
        KeepsFlagsStep(t);
        assert Limbs(s, n, Sbb) == ls;
      }
    }
  }

  lemma SbbLimb(t: Arch) returns (l: Limb)
    requires Supported(t) && IsOp(Current(t), Sbb)
    ensures Current(t).TwoReg? && l == LimbOf(t)
    ensures l.b - l.a - t.flags.c == l.r - 0x1_0000 * Step(t).flags.c
  {
    l := LimbOf(t);
    SbbStep(t);
  }
}
