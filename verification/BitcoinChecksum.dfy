/**
 The witness-address checksum: a 30-bit linear shift register over 5-bit symbols (BIP 173, section "Bech32";
 BIP 350, section "Bech32m").
 */
module BitcoinChecksum {
  const GENERATORS: seq<bv32> := [0x3b6a57b2, 0x26508e6d, 0x1ea119fa, 0x3d4233dd, 0x2a1462b3]

  /** The register keeps 30 bits. */
  predicate Register(chk: bv32) { chk & 0xc000_0000 == 0 }

  predicate IsSymbol(v: bv32) { v & 0xffff_ffe0 == 0 }

  predicate Symbols(s: seq<bv32>) { forall i | 0 <= i < |s| :: IsSymbol(s[i]) }

  /** Addition of bit vectors; a name of its own keeps sums from being flattened. */
  function Xor(a: bv32, b: bv32): bv32 { a ^ b }

  function Shifted(chk: bv32): bv32 { (chk & 0x1ff_ffff) << 5 }

  /** Bit `i` of the five bits shifted out. */
  predicate Bit(top: bv32, i: nat)
    requires i < 5
  {
    if i == 0 then top & 1 != 0
    else if i == 1 then top & 2 != 0
    else if i == 2 then top & 4 != 0
    else if i == 3 then top & 8 != 0
    else top & 16 != 0
  }

  function Tap(top: bv32, i: nat): bv32
    requires i < 5
  {
    if Bit(top, i) then GENERATORS[i] else 0
  }

  /** The first `k` generators that `top` selects, added up. */
  function Feedback(top: bv32, k: nat): bv32
    requires k <= 5
  {
    if k == 0 then 0 else Xor(Feedback(top, k - 1), Tap(top, k - 1))
  }

  /** One symbol through the register. */
  function Step(chk: bv32, v: bv32): bv32 { Xor(Xor(Shifted(chk), v), Feedback(chk >> 25, 5)) }

  function Run(chk: bv32, values: seq<bv32>): bv32 {
    if values == [] then chk else Step(Run(chk, values[..|values| - 1]), values[|values| - 1])
  }

  // ----- addition

  lemma XorZero(g: bv32)
    ensures Xor(g, 0) == g && Xor(0, g) == g && Xor(g, g) == 0
  {
  }

  lemma XorAssociates(x: bv32, y: bv32, z: bv32)
    ensures Xor(Xor(x, y), z) == Xor(x, Xor(y, z))
  {
  }

  lemma XorCommutes(x: bv32, y: bv32)
    ensures Xor(x, y) == Xor(y, x)
  {
  }

  lemma XorSwap(p: bv32, q: bv32, r: bv32, s: bv32)
    ensures Xor(Xor(p, q), Xor(r, s)) == Xor(Xor(p, r), Xor(q, s))
  {
    XorAssociates(Xor(p, q), r, s);
    XorAssociates(p, q, r);
    XorCommutes(q, r);
    XorAssociates(p, r, q);
    XorAssociates(Xor(p, r), q, s);
  }

  // ----- the code's loops

  lemma BitAt(top: bv32, i: nat)
    requires i < 5
    ensures Bit(top, i) <==> (top >> i) & 1 != 0
  {
    if i == 0 { assert (top >> 0) & 1 == top & 1; }
    if i == 1 { assert (top >> 1) & 1 != 0 <==> top & 2 != 0; }
    if i == 2 { assert (top >> 2) & 1 != 0 <==> top & 4 != 0; }
    if i == 3 { assert (top >> 3) & 1 != 0 <==> top & 8 != 0; }
    if i == 4 { assert (top >> 4) & 1 != 0 <==> top & 16 != 0; }
  }

  /** The generator loop of one turn. */
  method AddGenerators(base: bv32, top: bv32) returns (chk: bv32)
    ensures chk == Xor(base, Feedback(top, 5))
  {
    chk := base;
    XorZero(base);
    var i := 0;
    while i < 5
      invariant 0 <= i <= 5 && chk == Xor(base, Feedback(top, i))
    {
      var selected := (top >> i) & 1 != 0;
      BitAt(top, i);
      XorAssociates(base, Feedback(top, i), Tap(top, i));
      XorZero(chk);
      if selected {
        chk := Xor(chk, GENERATORS[i]);
      }
      i := i + 1;
    }
  }

  /** One turn of `bitcoinPolymod`. */
  method Absorb(before: bv32, v: bv32) returns (chk: bv32)
    ensures chk == Step(before, v)
  {
    var top := before >> 25;
    var shifted := (before & 0x1ff_ffff) << 5;
    assert shifted == Shifted(before);
    chk := AddGenerators(Xor(shifted, v), top);
  }

  /** `bitcoinPolymod`. */
  method Polymod(values: seq<bv32>) returns (chk: bv32)
    ensures chk == Run(1, values)
  {
    chk := 1;
    var n := 0;
    while n < |values|
      invariant 0 <= n <= |values| && chk == Run(1, values[..n])
    {
      assert values[..n + 1][..n] == values[..n];
      chk := Absorb(chk, values[n]);
      n := n + 1;
    }
    assert values[..|values|] == values;
  }

  // ----- one step is linear

  lemma BitLinear(a: bv32, b: bv32, i: nat)
    requires i < 5
    ensures Bit(Xor(a, b), i) == (Bit(a, i) != Bit(b, i))
  {
    if i == 0 { assert (a ^ b) & 1 == (a & 1) ^ (b & 1); }
    if i == 1 { assert (a ^ b) & 2 == (a & 2) ^ (b & 2); }
    if i == 2 { assert (a ^ b) & 4 == (a & 4) ^ (b & 4); }
    if i == 3 { assert (a ^ b) & 8 == (a & 8) ^ (b & 8); }
    if i == 4 { assert (a ^ b) & 16 == (a & 16) ^ (b & 16); }
  }

  lemma TapLinear(a: bv32, b: bv32, i: nat)
    requires i < 5
    ensures Tap(Xor(a, b), i) == Xor(Tap(a, i), Tap(b, i))
  {
    BitLinear(a, b, i);
    XorZero(GENERATORS[i]);
    XorZero(0);
  }

  lemma {:induction false} FeedbackLinear(a: bv32, b: bv32, k: nat)
    requires k <= 5
    ensures Feedback(Xor(a, b), k) == Xor(Feedback(a, k), Feedback(b, k))
  {
    if k == 0 {
      XorZero(0);
    } else {
      FeedbackLinear(a, b, k - 1);
      TapLinear(a, b, k - 1);
      XorSwap(Feedback(a, k - 1), Feedback(b, k - 1), Tap(a, k - 1), Tap(b, k - 1));
    }
  }

  lemma ShiftLinear(a: bv32, b: bv32)
    ensures Shifted(Xor(a, b)) == Xor(Shifted(a), Shifted(b)) && Xor(a, b) >> 25 == Xor(a >> 25, b >> 25)
  {
  }

  /** The step of a sum is the sum of the steps. */
  lemma StepLinear(a: bv32, b: bv32, v: bv32, w: bv32)
    ensures Step(Xor(a, b), Xor(v, w)) == Xor(Step(a, v), Step(b, w))
  {
    ShiftLinear(a, b);
    FeedbackLinear(a >> 25, b >> 25, 5);
    XorSwap(Shifted(a), Shifted(b), v, w);
    XorSwap(Xor(Shifted(a), v), Xor(Shifted(b), w), Feedback(a >> 25, 5), Feedback(b >> 25, 5));
  }

  // ----- one step loses nothing

  lemma {:induction false} FeedbackRegister(t: bv32, k: nat)
    requires k <= 5
    ensures Register(Feedback(t, k))
  {
    if k > 0 {
      FeedbackRegister(t, k - 1);
      RegisterXor(Feedback(t, k - 1), Tap(t, k - 1));
    }
  }

  lemma RegisterXor(a: bv32, b: bv32)
    requires Register(a) && Register(b)
    ensures Register(Xor(a, b))
  {
  }

  lemma SymbolXor(a: bv32, b: bv32)
    requires IsSymbol(a) && IsSymbol(b)
    ensures IsSymbol(Xor(a, b)) && Register(a) && (Xor(a, b) == 0 <==> a == b)
  {
  }

  lemma ShiftedRegister(chk: bv32)
    ensures Register(Shifted(chk))
  {
  }

  lemma StepRegister(chk: bv32, v: bv32)
    requires IsSymbol(v)
    ensures Register(Step(chk, v))
  {
    ShiftedRegister(chk);
    SymbolXor(v, v);
    RegisterXor(Shifted(chk), v);
    FeedbackRegister(chk >> 25, 5);
    RegisterXor(Xor(Shifted(chk), v), Feedback(chk >> 25, 5));
  }

  lemma TopSmall(a: bv32)
    requires Register(a)
    ensures IsSymbol(a >> 25)
  {
  }

  /** A nonzero feedback shows in its low five bits. */
  lemma FeedbackShows(t: bv32)
    requires IsSymbol(t) && t != 0
    ensures Feedback(t, 5) & 31 != 0
  {
    assert Feedback(t, 1) == Xor(0, Tap(t, 0));
    assert Feedback(t, 2) == Xor(Feedback(t, 1), Tap(t, 1));
    assert Feedback(t, 3) == Xor(Feedback(t, 2), Tap(t, 2));
    assert Feedback(t, 4) == Xor(Feedback(t, 3), Tap(t, 3));
  }

  lemma ShiftedLow(chk: bv32, f: bv32)
    requires f & 31 != 0
    ensures Xor(Shifted(chk), f) != 0
  {
  }

  lemma ShiftedLoses(chk: bv32)
    requires Register(chk) && Shifted(chk) == 0 && chk >> 25 == 0
    ensures chk == 0
  {
  }

  /** A difference between two registers survives equal symbols. */
  lemma DifferenceStays(d: bv32)
    requires Register(d) && d != 0
    ensures Step(d, 0) != 0
  {
    XorZero(Shifted(d));
    TopSmall(d);
    if d >> 25 != 0 {
      FeedbackShows(d >> 25);
      ShiftedLow(d, Feedback(d >> 25, 5));
    } else {
      NoFeedback(5);
      if Shifted(d) == 0 { ShiftedLoses(d); }
    }
  }

  lemma {:induction false} NoFeedback(k: nat)
    requires k <= 5
    ensures Feedback(0, k) == 0
  {
    if k > 0 {
      NoFeedback(k - 1);
      XorZero(0);
    }
  }

  /** For every symbol a step is injective on 30-bit registers. */
  lemma StepInjective(a: bv32, b: bv32, v: bv32)
    requires Register(a) && Register(b) && Step(a, v) == Step(b, v)
    ensures a == b
  {
    StepLinear(a, b, v, v);
    XorZero(v);
    XorZero(Step(a, v));
    RegisterXor(a, b);
    if Xor(a, b) != 0 { DifferenceStays(Xor(a, b)); }
    XorCancelZero(a, b);
  }

  lemma XorCancelZero(a: bv32, b: bv32)
    requires Xor(a, b) == 0
    ensures a == b
  {
  }

  // ----- errors in a burst

  /** The symbolwise difference of two words. */
  function Sum(x: seq<bv32>, y: seq<bv32>): (e: seq<bv32>)
    requires |x| == |y|
    ensures |e| == |x| && forall i | 0 <= i < |e| :: e[i] == Xor(x[i], y[i])
  {
    seq(|x|, i requires 0 <= i < |x| => Xor(x[i], y[i]))
  }

  /** Over a whole word the register of a sum is the sum of the registers. */
  lemma {:induction false} RunLinear(a: bv32, b: bv32, x: seq<bv32>, y: seq<bv32>)
    requires |x| == |y|
    ensures Run(Xor(a, b), Sum(x, y)) == Xor(Run(a, x), Run(b, y))
    decreases |x|
  {
    if x == [] {
      assert Sum(x, y) == [];
    } else {
      var n := |x| - 1;
      RunLinear(a, b, x[..n], y[..n]);
      assert Sum(x, y)[..n] == Sum(x[..n], y[..n]);
      StepLinear(Run(a, x[..n]), Run(b, y[..n]), x[n], y[n]);
    }
  }

  /** The register bits above the lowest `m` symbols. */
  function Above(m: nat): bv32 {
    if m == 0 then 0xffff_ffff
    else if m == 1 then 0xffff_ffe0
    else if m == 2 then 0xffff_fc00
    else if m == 3 then 0xffff_8000
    else if m == 4 then 0xfff0_0000
    else if m == 5 then 0xfe00_0000
    else 0xc000_0000
  }

  lemma ShiftIn(d: bv32, v: bv32, m: nat)
    requires m < 6 && d & Above(m) == 0 && IsSymbol(v)
    ensures d >> 25 == 0
    ensures Xor(Shifted(d), v) & Above(m + 1) == 0
    ensures d != 0 || v != 0 ==> Xor(Shifted(d), v) != 0
  {
    if m == 0 { } else if m == 1 { } else if m == 2 { } else if m == 3 { } else if m == 4 { }
  }

  /** While fewer than six symbols have been shifted in, nothing is fed back and no difference is lost. */
  lemma StepIn(d: bv32, v: bv32, m: nat)
    requires m < 6 && d & Above(m) == 0 && IsSymbol(v)
    ensures Step(d, v) & Above(m + 1) == 0
    ensures d != 0 || v != 0 ==> Step(d, v) != 0
  {
    ShiftIn(d, v, m);
    NoFeedback(5);
    XorZero(Xor(Shifted(d), v));
  }

  lemma {:induction false} QuietRun(e: seq<bv32>)
    requires forall i | 0 <= i < |e| :: e[i] == 0
    ensures Run(0, e) == 0
    decreases |e|
  {
    if e != [] {
      QuietRun(e[..|e| - 1]);
      StepIn(0, 0, 0);
      NoFeedback(5);
      XorZero(0);
      ShiftedZero();
    }
  }

  lemma ShiftedZero()
    ensures Shifted(0) == 0 && (0 as bv32) >> 25 == 0
  {
  }

  /** A difference confined to six symbols from `q` on leaves a nonzero register ever after. */
  lemma {:induction false} BurstStays(e: seq<bv32>, q: nat, i: nat)
    requires Symbols(e) && q < i <= |e| && e[q] != 0
    requires forall j | 0 <= j < |e| && !(q <= j < q + 6) :: e[j] == 0
    ensures Run(0, e[..i]) != 0 && Register(Run(0, e[..i]))
    ensures i - q <= 6 ==> Run(0, e[..i]) & Above(i - q) == 0
    decreases i
  {
    var n := i - 1;
    assert e[..i][..n] == e[..n] && e[..i][n] == e[n];
    StepRegister(Run(0, e[..n]), e[n]);
    if n == q {
      QuietRun(e[..q]);
      StepIn(0, e[q], 0);
    } else {
      BurstStays(e, q, n);
      if n - q < 6 { StepIn(Run(0, e[..n]), e[n], n - q); } else { DifferenceStays(Run(0, e[..n])); }
    }
  }

  lemma FirstNonzero(e: seq<bv32>) returns (q: nat)
    requires exists i | 0 <= i < |e| :: e[i] != 0
    ensures q < |e| && e[q] != 0 && forall j | 0 <= j < q :: e[j] == 0
  {
    q := 0;
    while e[q] == 0
      invariant q < |e| && forall j | 0 <= j < q :: e[j] == 0
      decreases |e| - q
    {
      q := q + 1;
    }
  }

  /**
   Two different words of one length, of any length, whose differences lie within six neighbouring symbols
   never have the same checksum: every changed symbol, swapped pair or burst of up to six is detected.
   */
  lemma BurstDetected(x: seq<bv32>, y: seq<bv32>, p: nat)
    requires |x| == |y| && Symbols(x) && Symbols(y) && x != y
    requires forall i | 0 <= i < |x| && x[i] != y[i] :: p <= i < p + 6
    ensures Run(1, x) != Run(1, y)
  {
    var e := Sum(x, y);
    forall i | 0 <= i < |e| ensures IsSymbol(e[i]) && (e[i] == 0 <==> x[i] == y[i]) {
      SymbolXor(x[i], y[i]);
    }
    var q := FirstNonzero(e);
    BurstStays(e, q, |e|);
    assert e[..|e|] == e;
    RunLinear(1, 1, x, y);
    XorZero(1);
    XorZero(Run(1, x));
  }
}
