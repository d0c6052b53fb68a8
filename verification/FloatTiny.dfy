/** What UNDERFLOW means: the two tests for tininess against the values they are about. */
module FloatTiny {
  import opened PowersOfTwo
  import opened Rounding
  import opened SoftFloat
  import opened FloatValue
  import opened FloatCorrect
  import opened FloatTheorems

  /** The format with its exponent range moved so that the value keeps all its fraction bits. */
  function Unbounded(f: Format, frac: nat, exp: int): Format { f.(bias := 1 - LeadExp(f, frac, exp)) }

  /** The value rounded to the precision of the format as if the exponent range were unbounded. */
  ghost function UnboundedValue(f: Format, rm: RoundMode, sign: bool, frac: nat, exp: int): real
    requires f.Valid() && frac != 0
  {
    RoundedValue(Unbounded(f, frac, exp), rm, sign, frac, exp)
  }

  /** It is the correct rounding on the grid whose steps are those of the value's own binade. */
  lemma UnboundedCorrect(f: Format, rm: RoundMode, sign: bool, frac: nat, exp: int)
    requires f.Valid() && frac != 0
    ensures var g := Unbounded(f, frac, exp);
      RoundsTo(g, rm, sign, InputValue(f, frac, exp), UnboundedValue(f, rm, sign, frac, exp), RoundedSig(g, rm, sign, frac, exp) % 2 == 0)
  {
    hide RoundsTo, RoundedSig, RoundedValue;
    RoundedValueCorrect(Unbounded(f, frac, exp), rm, sign, frac, exp);
  }

  /** Values below the smallest normal number that reach it at their own precision: half the step of the subnormals. */
  ghost predicate RoundsUpUnbounded(f: Format, rm: RoundMode, sign: bool, x: real) {
    RoundsUpTo(rm, sign, x, RPow2(f.Emin()), RPow2(f.Emin() - f.fracBits - 1))
  }

  lemma OwnBinade(f: Format, rm: RoundMode, sign: bool, frac: nat, exp: int)
    requires f.Valid() && frac != 0
    ensures var k, e := RoundedSig(Unbounded(f, frac, exp), rm, sign, frac, exp), LeadExp(f, frac, exp);
      && Pow2(f.fracBits) <= k <= Pow2(f.fracBits + 1)
      && UnboundedValue(f, rm, sign, frac, exp) == Times(k, RPow2(e - f.fracBits))
      && (k == Pow2(f.fracBits + 1) <==> RoundsUpTo(rm, sign, InputValue(f, frac, exp), RPow2(e + 1), RPow2(e - f.fracBits)))
  {
    hide Times, Scaled, InputValue, RPow2, RoundedSig, RoundsUpTo, UnitShift;
    var g, e := Unbounded(f, frac, exp), LeadExp(f, frac, exp);
    QuotientBounds(g, frac, exp);
    AtLeast(g, rm, sign, frac, exp, Pow2(f.fracBits));
    assert Pow2(f.fracBits + 1) == 2 * Pow2(f.fracBits);
    TopReached(g, rm, sign, frac, exp, Pow2(f.fracBits + 1));
    RPow2Add(e - f.fracBits, f.fracBits + 1);
    SameInput(f, g, frac, exp);
  }

  lemma AtLeast(f: Format, rm: RoundMode, sign: bool, frac: nat, exp: int, n: nat)
    requires f.Valid() && frac != 0 && n <= Scaled(f, frac) / Pow2(UnitShift(f, frac, exp))
    ensures n <= RoundedSig(f, rm, sign, frac, exp)
  {
  }

  lemma SameInput(f: Format, g: Format, frac: nat, exp: int)
    requires g.intBit == f.intBit
    ensures InputValue(g, frac, exp) == InputValue(f, frac, exp)
  {
  }

  /** The value rounded at unbounded exponent is below the normals exactly outside that window. */
  lemma TinyUnbounded(f: Format, rm: RoundMode, sign: bool, frac: nat, exp: int)
    requires f.Valid() && frac != 0 && BelowNormal(f, frac, exp)
    ensures UnboundedValue(f, rm, sign, frac, exp) < RPow2(f.Emin()) <==> !RoundsUpUnbounded(f, rm, sign, InputValue(f, frac, exp))
  {
    hide Times, InputValue, RPow2, RoundedSig, UnboundedValue;
    var g, e := Unbounded(f, frac, exp), LeadExp(f, frac, exp);
    var k, w := RoundedSig(g, rm, sign, frac, exp), RPow2(e - f.fracBits);
    OwnBinade(f, rm, sign, frac, exp);
    RPow2Add(e - f.fracBits, f.fracBits + 1);
    TimesOrder(k, Pow2(f.fracBits + 1), w);
    if e + 1 < f.Emin() {
      RPow2Mono(e + 1, f.Emin() - 1);
      Halves(f.Emin());
      FarBelow(f, frac, exp);
    }
  }

  lemma Halves(e: int)
    ensures RPow2(e) == 2.0 * RPow2(e - 1)
  {
    RPow2Add(e - 1, 1);
  }

  /** A value more than one binade below the normals is in no window. */
  lemma FarBelow(f: Format, frac: nat, exp: int)
    requires f.Valid() && frac != 0 && LeadExp(f, frac, exp) + 1 < f.Emin()
    ensures InputValue(f, frac, exp) < RPow2(f.Emin() - 1)
    ensures RPow2(f.Emin() - f.fracBits - 1) <= RPow2(f.Emin() - 1) / 2.0
  {
    hide InputValue, RPow2;
    BelowNormalValue(f.(bias := f.bias + 1), frac, exp);
    SameInput(f, f.(bias := f.bias + 1), frac, exp);
    RPow2Mono(f.Emin() - f.fracBits - 1, f.Emin() - 2);
    Halves(f.Emin() - 1);
  }

  /** UNDERFLOW is raised exactly when the result is inexact and the value is below the normals, and, when tininess is
      detected after rounding, is not in the window that reaches them at subnormal precision. */
  lemma UnderflowIff(f: Format, rm: RoundMode, t: Tininess, sign: bool, frac: nat, exp: int)
    requires f.Valid() && frac != 0
    ensures Underflow in FiniteFlags(f, rm, t, sign, frac, exp) <==>
      && RoundedValue(f, rm, sign, frac, exp) != InputValue(f, frac, exp)
      && InputValue(f, frac, exp) < RPow2(f.Emin())
      && (t == AfterRounding ==> !RoundsUpToNormal(f, rm, sign, InputValue(f, frac, exp)))
  {
    hide InputValue, RoundedValue, RPow2, RoundedSig, Exact;
    BelowNormalValue(f, frac, exp);
    ExactIff(f, rm, sign, frac, exp);
    if BelowNormal(f, frac, exp) {
      ReachesNormal(f, rm, sign, frac, exp);
      SmallExponent(f);
    }
  }

  lemma SmallExponent(f: Format)
    requires f.Valid()
    ensures f.MaxExp() >= 2 && Pow2(f.fracBits) < Pow2(f.fracBits + 1)
  {
    assert Pow2(2) == 4 by { assert Pow2(1) == 2; }
    Pow2Mono(2, f.expBits);
  }

  /**
    * Detected after rounding, an inexact result raises UNDERFLOW as section 7.5 of IEEE 754-2019 asks, which
    * tests the value rounded at unbounded exponent, exactly when the value does not round up
    * to the normals at subnormal precision only.
    */
  lemma TininessExact(f: Format, rm: RoundMode, sign: bool, frac: nat, exp: int)
    requires f.Valid() && frac != 0 && RoundedValue(f, rm, sign, frac, exp) != InputValue(f, frac, exp)
    ensures var x := InputValue(f, frac, exp);
      (Underflow in FiniteFlags(f, rm, AfterRounding, sign, frac, exp) <==> UnboundedValue(f, rm, sign, frac, exp) < RPow2(f.Emin()))
      <==> (RoundsUpToNormal(f, rm, sign, x) ==> RoundsUpUnbounded(f, rm, sign, x))
  {
    hide InputValue, RoundedValue, RPow2, RoundedSig, FiniteFlags, UnboundedValue;
    UnderflowIff(f, rm, AfterRounding, sign, frac, exp);
    BelowNormalValue(f, frac, exp);
    if BelowNormal(f, frac, exp) {
      TinyUnbounded(f, rm, sign, frac, exp);
      Halves(f.Emin() - f.fracBits);
    } else {
      NotTiny(f, rm, sign, frac, exp);
    }
  }

  lemma NotTiny(f: Format, rm: RoundMode, sign: bool, frac: nat, exp: int)
    requires f.Valid() && frac != 0 && !BelowNormal(f, frac, exp)
    ensures UnboundedValue(f, rm, sign, frac, exp) >= RPow2(f.Emin())
  {
    hide Times, InputValue, RPow2, RoundedSig, UnboundedValue;
    var e := LeadExp(f, frac, exp);
    OwnBinade(f, rm, sign, frac, exp);
    LastPlaces(f, e);
    TimesOrder(Pow2(f.fracBits), RoundedSig(Unbounded(f, frac, exp), rm, sign, frac, exp), RPow2(e - f.fracBits));
    RPow2Mono(f.Emin(), e);
  }

  lemma MissedSignificands()
    ensures BitLen(8189) == 13 && LeadExp(FLOAT16, 8189, 99) == -15
    ensures RoundedSig(FLOAT16, NearEven, false, 8189, 99) == 1024 && !Exact(FLOAT16, 8189, 99)
  {
    assert BitLen(8189) == 13;
    assert Pow2(10) == 1024 && Pow2(13) == 8192;
    assert RoundedSig(FLOAT16, NearEven, false, 8189, 99) == RoundUnits(NearEven, false, 8189 * 1024, 8192);
  }

  lemma MissedUnbounded()
    requires LeadExp(FLOAT16, 8189, 99) == -15 && BitLen(8189) == 13
    ensures RoundedSig(Unbounded(FLOAT16, 8189, 99), NearEven, false, 8189, 99) == 2047
  {
    assert Pow2(10) == 1024 && Pow2(12) == 4096;
    assert RoundedSig(Unbounded(FLOAT16, 8189, 99), NearEven, false, 8189, 99) == RoundUnits(NearEven, false, 8189 * 1024, 4096);
  }

  /** A half-precision value that is tiny at unbounded exponent but raises no UNDERFLOW. */
  lemma UnderflowMissedExample()
    ensures RoundedValue(FLOAT16, NearEven, false, 8189, 99) != InputValue(FLOAT16, 8189, 99)
    ensures Underflow !in FiniteFlags(FLOAT16, NearEven, AfterRounding, false, 8189, 99)
    ensures UnboundedValue(FLOAT16, NearEven, false, 8189, 99) < RPow2(FLOAT16.Emin())
  {
    hide Times, RPow2, InputValue, RoundedValue, UnboundedValue, RoundedSig, Exact, BitLen;
    MissedSignificands();
    MissedUnbounded();
    assert Pow2(10) == 1024 && Pow2(11) == 2048;
    ExactIff(FLOAT16, NearEven, false, 8189, 99);
    OwnBinade(FLOAT16, NearEven, false, 8189, 99);
    TinyUnbounded(FLOAT16, NearEven, false, 8189, 99);
  }
}
