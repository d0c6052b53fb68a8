/** The main results about round_pack: when it is correct, what INEXACT means, and the round
    trip through unpack. */
module FloatTheorems {
  import opened PowersOfTwo
  import opened Rounding
  import opened SoftFloat
  import opened FloatValue
  import opened FloatCorrect
  import FloatPack

  /** bits is a finite encoding of the correct rounding of the magnitude x. */
  ghost predicate Correct(f: Format, rm: RoundMode, sign: bool, x: real, bits: nat) {
    && IsFinite(f, bits) && SignField(f, bits) == sign
    && RoundsTo(f, rm, sign, x, Magnitude(f, bits), bits % 2 == 0)
  }

  /** Values below least that round up to it on a grid of step last. */
  ghost predicate RoundsUpTo(rm: RoundMode, sign: bool, x: real, least: real, last: real) {
    x < least &&
    match rm
    case NearEven | NearMaxMag => x >= least - last / 2.0
    case ToZero | Odd => false
    case Down => sign && x > least - last
    case Up => !sign && x > least - last
  }

  /** Inputs below the smallest normal number that round up to it. pack tests its exponent
      before rounding, takes them for subnormal, and drops the integer bit. */
  ghost predicate RoundsUpToNormal(f: Format, rm: RoundMode, sign: bool, x: real) {
    RoundsUpTo(rm, sign, x, RPow2(f.Emin()), RPow2(f.Emin() - f.fracBits))
  }

  lemma LastPlaces(f: Format, e: int)
    requires f.Valid()
    ensures RPow2(e) == Times(Pow2(f.fracBits), RPow2(e - f.fracBits))
  {
    RPow2Add(e - f.fracBits, f.fracBits);
  }

  lemma RPow2Mono(a: int, b: int)
    requires a <= b
    ensures RPow2(a) <= RPow2(b)
  {
    hide Times;
    RPow2Add(a, b - a);
    TimesOrder(1, Pow2(b - a), RPow2(a));
    OneTime(RPow2(a));
  }

  /** The exponent test of pack is the comparison with the smallest normal number. */
  lemma BelowNormalValue(f: Format, frac: nat, exp: int)
    requires f.Valid() && frac != 0
    ensures BelowNormal(f, frac, exp) <==> InputValue(f, frac, exp) < RPow2(f.Emin())
  {
    hide Times, Scaled, InputValue;
    var q, r, u, t := InLastPlaces(f, frac, exp);
    var w := LastPlace(f, frac, exp);
    LastPlaces(f, ResultExp(f, frac, exp));
    TimesOrder(r, u, t);
    TimesOrder(0, r, t);
    TimesAdd(0, 0, t);
    if BelowNormal(f, frac, exp) {
      TimesOrder(q + 1, Pow2(f.fracBits), w);
      TimesAdd(q, 1, w);
      OneTime(w);
    } else {
      TimesOrder(Pow2(f.fracBits), q, w);
      RPow2Mono(f.Emin(), LeadExp(f, frac, exp));
    }
  }

  /** The decision at T - 1 whole steps, with the fraction r / u of a step that R is of W. */
  lemma TopDecision(rm: RoundMode, sign: bool, q: nat, r: nat, u: nat, T: nat, A: real, R: real, W: real, least: real)
    requires u >= 1 && q < T && T % 2 == 0 && 0.0 <= R < W
    requires if q == T - 1 then A == least - W else A <= least - 2.0 * W
    requires (r == 0 <==> R == 0.0) && (2 * r > u <==> 2.0 * R > W) && (2 * r == u <==> 2.0 * R == W)
    ensures RoundQR(rm, sign, q, r, u) <= T
    ensures RoundQR(rm, sign, q, r, u) == T <==> RoundsUpTo(rm, sign, A + R, least, W)
  {
    if q == T - 1 { assert q % 2 == 1; }
  }

  /** A significand below the even bound T reaches T exactly in the window under T last places. */
  lemma TopReached(f: Format, rm: RoundMode, sign: bool, frac: nat, exp: int, T: nat)
    requires f.Valid() && frac != 0 && T % 2 == 0 && Scaled(f, frac) / Pow2(UnitShift(f, frac, exp)) < T
    ensures RoundedSig(f, rm, sign, frac, exp) <= T
    ensures RoundedSig(f, rm, sign, frac, exp) == T
            <==> RoundsUpTo(rm, sign, InputValue(f, frac, exp), Times(T, LastPlace(f, frac, exp)), LastPlace(f, frac, exp))
  {
    hide Times, Scaled, InputValue, RoundQR, RoundsUpTo, UnitShift;
    var q, r, u, t := InLastPlaces(f, frac, exp);
    var w := LastPlace(f, frac, exp);
    TopFacts(q, r, u, t, w, T);
    TopDecision(rm, sign, q, r, u, T, Times(q, w), Times(r, t), w, Times(T, w));
  }

  lemma TopFacts(q: nat, r: nat, u: nat, t: real, w: real, T: nat)
    requires q < T && r < u && t > 0.0 && w == Times(u, t) && w > 0.0
    ensures 0.0 <= Times(r, t) < w
    ensures if q == T - 1 then Times(q, w) == Times(T, w) - w else Times(q, w) <= Times(T, w) - 2.0 * w
    ensures (r == 0 <==> Times(r, t) == 0.0) && (2 * r > u <==> 2.0 * Times(r, t) > w) && (2 * r == u <==> 2.0 * Times(r, t) == w)
  {
    hide Times;
    TimesOrder(r, u, t);
    TimesOrder(0, r, t);
    TimesAdd(0, 0, t);
    TimesAdd(r, r, t);
    TimesOrder(2 * r, u, t);
    TimesOrder(u, 2 * r, t);
    TimesAdd(T - 1, 1, w);
    TimesAdd(T - 2, 1, w);
    OneTime(w);
    TimesOrder(q, T - 2, w);
  }

  /** Below the normals, the significand reaches 2^fracBits exactly in the window above. */
  lemma ReachesNormal(f: Format, rm: RoundMode, sign: bool, frac: nat, exp: int)
    requires f.Valid() && frac != 0 && BelowNormal(f, frac, exp)
    ensures RoundedSig(f, rm, sign, frac, exp) <= Pow2(f.fracBits)
    ensures RoundedSig(f, rm, sign, frac, exp) == Pow2(f.fracBits)
            <==> RoundsUpToNormal(f, rm, sign, InputValue(f, frac, exp))
  {
    hide Times, Scaled, InputValue, RoundedSig, UnitShift;
    LastPlaces(f, f.Emin());
    QuotientBounds(f, frac, exp);
    TopReached(f, rm, sign, frac, exp, Pow2(f.fracBits));
  }

  lemma ComposedMagnitude(f: Format, sign: bool, e: nat, m: nat)
    requires f.Valid() && e < f.MaxExp() && m < Pow2(f.fracBits)
    ensures var bits := Compose(f, sign, e, m);
      && IsFinite(f, bits) && SignField(f, bits) == sign && bits % 2 == m % 2
      && Magnitude(f, bits) == FieldValue(f, e, m)
  {
    Fields(f, sign, e, m);
  }

  lemma SigBounds(f: Format, rm: RoundMode, sign: bool, frac: nat, exp: int)
    requires f.Valid() && frac != 0
    ensures var k := RoundedSig(f, rm, sign, frac, exp);
      if BelowNormal(f, frac, exp) then k <= Pow2(f.fracBits) else Pow2(f.fracBits) <= k <= Pow2(f.fracBits + 1)
  {
    QuotientBounds(f, frac, exp);
  }

  /** The fraction field and the exponent field for a rounded significand of k last places. */
  lemma FieldOf(k: nat, F: nat)
    requires F >= 2 && F % 2 == 0 && k <= 2 * F
    ensures k < F ==> k % F == k
    ensures F <= k < 2 * F ==> k % F == k - F && (k - F) % 2 == k % 2
    ensures k == 2 * F ==> k / 2 % F == 0 && k % 2 == 0
  {
    if k < F { DivModOf(0, F, k); } else if k < 2 * F { DivModOf(1, F, k - F); } else { DivModOf(1, F, 0); }
  }

  /** The value of the fields is that of the rounded significand. */
  lemma FieldsDenote(f: Format, rm: RoundMode, sign: bool, frac: nat, exp: int)
    requires f.Valid() && frac != 0
    requires BelowNormal(f, frac, exp) ==> RoundedSig(f, rm, sign, frac, exp) < Pow2(f.fracBits)
    ensures var k, F := RoundedSig(f, rm, sign, frac, exp), Pow2(f.fracBits);
      var m := if k >= 2 * F then 0 else if k >= F then k - F else k;
      k <= 2 * F && FieldValue(f, BiasedRounded(f, rm, sign, frac, exp), m) == RoundedValue(f, rm, sign, frac, exp)
  {
    hide Times, Scaled, RoundedSig, UnitShift;
    var k, F := RoundedSig(f, rm, sign, frac, exp), Pow2(f.fracBits);
    SigBounds(f, rm, sign, frac, exp);
    assert Pow2(f.fracBits + 1) == 2 * F;
    if k >= 2 * F {
      var u := LeadExp(f, frac, exp) - f.fracBits;
      RPow2Add(u, 1);
      assert Pow2(1) == 2;
      TimesMul(F, 2, RPow2(u));
    }
  }

  /** Short of overflow and of the lost window, the bits denote the rounded value. */
  lemma BitsDenote(f: Format, rm: RoundMode, sign: bool, frac: nat, exp: int)
    requires f.Valid() && frac != 0 && BiasedRounded(f, rm, sign, frac, exp) < f.MaxExp()
    requires BelowNormal(f, frac, exp) ==> RoundedSig(f, rm, sign, frac, exp) < Pow2(f.fracBits)
    ensures var bits := FiniteBits(f, rm, sign, frac, exp);
      && IsFinite(f, bits) && SignField(f, bits) == sign
      && bits % 2 == RoundedSig(f, rm, sign, frac, exp) % 2
      && Magnitude(f, bits) == RoundedValue(f, rm, sign, frac, exp)
  {
    hide Compose, Magnitude, SignField, IsFinite, RoundedSig, RoundedValue, FieldValue, BelowNormal, BiasedRounded, OverflowResult;
    var k, F := RoundedSig(f, rm, sign, frac, exp), Pow2(f.fracBits);
    assert Pow2(f.fracBits + 1) == 2 * F && F % 2 == 0;
    FieldsDenote(f, rm, sign, frac, exp);
    FieldOf(k, F);
    ComposedMagnitude(f, sign, BiasedRounded(f, rm, sign, frac, exp), if k >= 2 * F then 0 else if k >= F then k - F else k);
  }

  /** The lost window packs to zero. */
  lemma LostPacksZero(f: Format, rm: RoundMode, sign: bool, frac: nat, exp: int)
    requires f.Valid() && frac != 0 && BelowNormal(f, frac, exp)
    requires RoundedSig(f, rm, sign, frac, exp) == Pow2(f.fracBits)
    ensures BiasedRounded(f, rm, sign, frac, exp) < f.MaxExp()
    ensures FiniteBits(f, rm, sign, frac, exp) == PackZero(f, sign)
    ensures IsFinite(f, PackZero(f, sign)) && SignField(f, PackZero(f, sign)) == sign
    ensures Magnitude(f, PackZero(f, sign)) == 0.0
  {
    var e := MaxFiniteExp(f);
    assert Pow2(f.fracBits + 1) == 2 * Pow2(f.fracBits);
    DivModOf(1, Pow2(f.fracBits), 0);
    ComposedMagnitude(f, sign, 0, 0);
  }

  /** Zero is not a correct rounding of anything in the window. */
  lemma ZeroIsWrong(f: Format, rm: RoundMode, sign: bool, x: real, even: bool)
    requires f.Valid() && RoundsUpToNormal(f, rm, sign, x)
    ensures !RoundsTo(f, rm, sign, x, 0.0, even)
  {
    hide Times, OnGrid;
    var least, last := RPow2(f.Emin()), RPow2(f.Emin() - f.fracBits);
    LastPlaces(f, f.Emin());
    NeighbourOnGrid(f, f.Emin(), Pow2(f.fracBits));
    assert OnGrid(f, least);
    TimesOrder(2, Pow2(f.fracBits), last);
    TimesAdd(1, 1, last);
    OneTime(last);
    assert Abs(least - x) < Abs(0.0 - x);
  }

  /** round_pack rounds correctly, for every significand, exponent, sign and mode, exactly when
      the input is not in the lost window; past the largest finite value it gives the result of
      section 7.4 of IEEE 754-2019. */
  lemma RoundPackCorrect(f: Format, rm: RoundMode, sign: bool, frac: nat, exp: int)
    requires f.Valid() && frac != 0
    ensures var x, v, bits := InputValue(f, frac, exp), RoundedValue(f, rm, sign, frac, exp),
                              FiniteBits(f, rm, sign, frac, exp);
      && RoundsTo(f, rm, sign, x, v, RoundedSig(f, rm, sign, frac, exp) % 2 == 0)
      && (v > MaxFinite(f) ==> bits == OverflowResult(f, sign, rm))
      && (v <= MaxFinite(f) ==> (Correct(f, rm, sign, x, bits) <==> !RoundsUpToNormal(f, rm, sign, x)))
      && (RoundsUpToNormal(f, rm, sign, x) ==> bits == PackZero(f, sign))
  {
    hide Times, RoundsTo, RoundsUpToNormal, OverflowResult, PackZero, InputValue, RoundedValue, RoundedSig, Magnitude, BiasedRounded, MaxFinite;
    var x := InputValue(f, frac, exp);
    var k := RoundedSig(f, rm, sign, frac, exp);
    RoundedValueCorrect(f, rm, sign, frac, exp);
    OverflowIff(f, rm, sign, frac, exp);
    BelowNormalValue(f, frac, exp);
    if BelowNormal(f, frac, exp) {
      ReachesNormal(f, rm, sign, frac, exp);
    } else {
      WindowBelow(f, rm, sign, x);
    }
    if RoundsUpToNormal(f, rm, sign, x) {
      WindowBelow(f, rm, sign, x);
      LostPacksZero(f, rm, sign, frac, exp);
      ZeroIsWrong(f, rm, sign, x, FiniteBits(f, rm, sign, frac, exp) % 2 == 0);
    } else if BiasedRounded(f, rm, sign, frac, exp) < f.MaxExp() {
      BitsDenote(f, rm, sign, frac, exp);
    }
  }

  lemma WindowBelow(f: Format, rm: RoundMode, sign: bool, x: real)
    ensures RoundsUpToNormal(f, rm, sign, x) ==> x < RPow2(f.Emin())
  {
  }

  /** pack's overflow test is the comparison with the largest finite value. */
  lemma OverflowIff(f: Format, rm: RoundMode, sign: bool, frac: nat, exp: int)
    requires f.Valid() && frac != 0
    ensures BiasedRounded(f, rm, sign, frac, exp) >= f.MaxExp() <==> RoundedValue(f, rm, sign, frac, exp) > MaxFinite(f)
  {
    hide Times, Scaled, InputValue;
    var k := RoundedSig(f, rm, sign, frac, exp);
    var w := LastPlace(f, frac, exp);
    var F := Pow2(f.fracBits);
    var top := RPow2(f.MaxExp() - f.bias - f.fracBits);
    QuotientBounds(f, frac, exp);
    var e1 := ResultExp(f, frac, exp) + (if k >= 2 * F then 1 else 0);
    TopValue(f);
    RoundedInBinade(f, k, ResultExp(f, frac, exp));
    if BiasedRounded(f, rm, sign, frac, exp) >= f.MaxExp() {
      var e := MaxFiniteExp(f);
      RPow2Mono(f.MaxExp() - f.bias, e1);
    } else {
      AtMostMax(f, k, ResultExp(f, frac, exp));
    }
  }

  /** A full significand at exponent e is at least 2^e, and 2^(e+1) after a carry. */
  lemma RoundedInBinade(f: Format, k: nat, e: int)
    requires f.Valid() && k <= Pow2(f.fracBits + 1)
    ensures k >= Pow2(f.fracBits) ==> Times(k, RPow2(e - f.fracBits)) >= RPow2(e)
    ensures k >= Pow2(f.fracBits + 1) ==> Times(k, RPow2(e - f.fracBits)) >= RPow2(e + 1)
  {
    hide Times;
    var w := RPow2(e - f.fracBits);
    LastPlaces(f, e);
    RPow2Add(e - f.fracBits, f.fracBits + 1);
    TimesOrder(Pow2(f.fracBits), k, w);
  }

  lemma TopValue(f: Format)
    requires f.Valid()
    ensures MaxFinite(f) < RPow2(f.MaxExp() - f.bias)
  {
    hide Times;
    var e := MaxFiniteExp(f);
    var w := RPow2(e - f.bias - f.fracBits);
    RPow2Add(e - f.bias - f.fracBits, f.fracBits + 1);
    TimesOrder(2 * Pow2(f.fracBits) - 1, 2 * Pow2(f.fracBits), w);
  }

  /** Whatever stays below the overflow exponent is at most the largest finite value. */
  lemma AtMostMax(f: Format, k: nat, e: int)
    requires f.Valid() && e >= f.Emin() && k <= Pow2(f.fracBits + 1)
    requires e + f.bias < f.MaxExp() && (k == Pow2(f.fracBits + 1) ==> e + f.bias + 1 < f.MaxExp())
    ensures Times(k, RPow2(e - f.fracBits)) <= MaxFinite(f)
  {
    hide Times;
    var m := MaxFiniteExp(f);
    var F := Pow2(f.fracBits);
    var n := m - f.bias - e;
    var w := RPow2(e - f.fracBits);
    RPow2Add(e - f.fracBits, n);
    TimesMul(2 * F - 1, Pow2(n), w);
    if k < 2 * F {
      MulLe(1, Pow2(n), 2 * F - 1);
    } else {
      Pow2Mono(1, n);
      assert Pow2(1) == 2;
      MulLe(2, Pow2(n), 2 * F - 1);
    }
    TimesOrder(k, (2 * F - 1) * Pow2(n), w);
  }

  /** The two overflow results: an infinity, and the largest magnitude of any finite encoding. */
  lemma OverflowMeaning(f: Format, sign: bool, bits: nat)
    requires f.Valid()
    ensures IsInfinite(f, PackInf(f, sign)) && SignField(f, PackInf(f, sign)) == sign
    ensures IsFinite(f, PackMaxFinite(f, sign)) && SignField(f, PackMaxFinite(f, sign)) == sign
    ensures Magnitude(f, PackMaxFinite(f, sign)) == MaxFinite(f)
    ensures IsFinite(f, bits) ==> Magnitude(f, bits) <= MaxFinite(f)
  {
    hide Times, Compose;
    var top := MaxFiniteExp(f);
    Fields(f, sign, f.MaxExp(), 0);
    Fields(f, sign, top, Pow2(f.fracBits) - 1);
    var e, m := ExpField(f, bits), FracField(f, bits);
    if IsFinite(f, bits) {
      if e == 0 { AtMostMax(f, m, f.Emin()); } else { AtMostMax(f, Pow2(f.fracBits) + m, e - f.bias); }
    }
  }

  // ----- flags -----

  /** What the result is worth, against the input. */
  ghost predicate SameValue(f: Format, x: real, bits: nat) { IsFinite(f, bits) && Magnitude(f, bits) == x }

  /** Rounding is exact exactly when the value is on the grid, and then it changes nothing. */
  lemma ExactIff(f: Format, rm: RoundMode, sign: bool, frac: nat, exp: int)
    requires f.Valid() && frac != 0
    ensures Exact(f, frac, exp) <==> RoundedValue(f, rm, sign, frac, exp) == InputValue(f, frac, exp)
  {
    hide Times, Scaled, InputValue;
    var q, r, u, t := InLastPlaces(f, frac, exp);
    var w := LastPlace(f, frac, exp);
    TimesOrder(r, u, t);
    TimesOrder(0, r, t);
    TimesAdd(0, 0, t);
    TimesAdd(q, 1, w);
    OneTime(w);
  }

  /** INEXACT is raised exactly when the packed value differs from the input value. */
  lemma InexactIff(f: Format, rm: RoundMode, tininess: Tininess, sign: bool, frac: nat, exp: int)
    requires f.Valid() && frac != 0
    ensures Inexact in FiniteFlags(f, rm, tininess, sign, frac, exp)
            <==> !SameValue(f, InputValue(f, frac, exp), FiniteBits(f, rm, sign, frac, exp))
  {
    hide Times, RoundsTo, RoundsUpToNormal, InputValue, RoundedValue, RoundedSig, Exact, Magnitude, BiasedRounded, MaxFinite,
      OverflowResult, Compose, IsFinite;
    var x := InputValue(f, frac, exp);
    ExactIff(f, rm, sign, frac, exp);
    OverflowIff(f, rm, sign, frac, exp);
    PositiveInput(f, frac, exp);
    if BiasedRounded(f, rm, sign, frac, exp) >= f.MaxExp() {
      OverflowIsNotInput(f, rm, sign, frac, exp);
    } else if BelowNormal(f, frac, exp) && RoundedSig(f, rm, sign, frac, exp) >= Pow2(f.fracBits) {
      SigBounds(f, rm, sign, frac, exp);
      LostPacksZero(f, rm, sign, frac, exp);
      LostIsInexact(f, rm, sign, frac, exp);
    } else {
      BitsDenote(f, rm, sign, frac, exp);
    }
  }

  lemma PositiveInput(f: Format, frac: nat, exp: int)
    requires frac != 0
    ensures InputValue(f, frac, exp) > 0.0
  {
    TimesOrder(0, frac, RPow2(exp - f.intBit));
    TimesAdd(0, 0, RPow2(exp - f.intBit));
  }

  lemma LostIsInexact(f: Format, rm: RoundMode, sign: bool, frac: nat, exp: int)
    requires f.Valid() && frac != 0 && BelowNormal(f, frac, exp)
    requires RoundedSig(f, rm, sign, frac, exp) == Pow2(f.fracBits)
    ensures !Exact(f, frac, exp)
  {
    QuotientBounds(f, frac, exp);
  }

  lemma OverflowIsNotInput(f: Format, rm: RoundMode, sign: bool, frac: nat, exp: int)
    requires f.Valid() && frac != 0 && RoundedValue(f, rm, sign, frac, exp) > MaxFinite(f)
    ensures !SameValue(f, InputValue(f, frac, exp), OverflowResult(f, sign, rm))
  {
    hide Times, RoundedValue, RoundedSig, Magnitude, InputValue, SignField, OnGrid;
    var e := MaxFiniteExp(f);
    var x := InputValue(f, frac, exp);
    ComposedMagnitude(f, sign, e, Pow2(f.fracBits) - 1);
    Fields(f, sign, f.MaxExp(), 0);
    RoundedValueCorrect(f, rm, sign, frac, exp);
    assert OnGrid(f, MaxFinite(f)) by { MaxOnGrid(f); }
    if x == MaxFinite(f) { ExactOnGrid(f, rm, sign, x, RoundedValue(f, rm, sign, frac, exp), RoundedSig(f, rm, sign, frac, exp) % 2 == 0); }
  }

  lemma MaxOnGrid(f: Format)
    requires f.Valid()
    ensures OnGrid(f, MaxFinite(f))
  {
    var e := MaxFiniteExp(f);
    assert OnGridAt(f, MaxFinite(f), 2 * Pow2(f.fracBits) - 1, e - f.bias);
  }

  lemma ExactOnGrid(f: Format, rm: RoundMode, sign: bool, x: real, v: real, even: bool)
    requires OnGrid(f, x) && RoundsTo(f, rm, sign, x, v, even)
    ensures v == x
  {
    assert Abs(x - x) == 0.0;
  }

  // ----- round trip -----

  /** An exact input keeps its significand. */
  lemma ExactSig(f: Format, rm: RoundMode, sign: bool, frac: nat, exp: int, k: nat)
    requires f.Valid() && frac != 0 && Scaled(f, frac) == k * Pow2(UnitShift(f, frac, exp))
    ensures RoundedSig(f, rm, sign, frac, exp) == k && Exact(f, frac, exp)
  {
    DivModOf(k, Pow2(UnitShift(f, frac, exp)), 0);
  }

  lemma Recompose(f: Format, bits: nat)
    requires f.Valid() && bits < Pow2(1 + f.expBits + f.fracBits)
    ensures ExpField(f, bits) < Pow2(f.expBits) && FracField(f, bits) < Pow2(f.fracBits)
    ensures Compose(f, SignField(f, bits), ExpField(f, bits), FracField(f, bits)) == bits
  {
    Pow2Add(f.fracBits, f.expBits);
    assert Pow2(1 + f.expBits + f.fracBits) == 2 * Pow2(f.fracBits + f.expBits);
    RecomposeOf(bits, Pow2(f.fracBits), Pow2(f.expBits), Pow2(f.fracBits + f.expBits));
  }

  lemma RecomposeOf(bits: nat, F: nat, E: nat, FE: nat)
    requires F >= 1 && E >= 1 && FE == F * E && FE >= 1 && bits < 2 * FE
    ensures (if bits / FE % 2 != 0 then FE else 0) + bits / F % E * F + bits % F == bits
  {
    var n, m := Split(bits, F);
    var s, e := Split(n, E);
    Expand(s, e, E, F, FE);
    if s >= 2 { MulLe(2, s, FE); }
    FieldsOf(F, E, s, e, m);
  }

  lemma Expand(s: nat, e: nat, E: nat, F: nat, FE: nat)
    requires FE == F * E
    ensures (s * E + e) * F == s * FE + e * F
  {
    assert (s * E + e) * F == s * E * F + e * F;
    FloatPack.Swap(s, E, F);
    assert s * F * E == s * (F * E);
  }

  lemma NormalRoundTrip(f: Format, rm: RoundMode, t: Tininess, bits: nat)
    requires f.Valid() && bits < Pow2(1 + f.expBits + f.fracBits)
    requires 0 < ExpField(f, bits) < f.MaxExp()
    ensures PackBits(f, rm, false, Unpack(f, bits)) == bits && PackFlags(f, rm, t, Unpack(f, bits)) == {}
  {
    hide Compose, RoundedSig, Exact, FracField, ExpField, SignField, Scaled, OverflowResult, BitLen;
    var p := Unpack(f, bits);
    var raw, F := FracField(f, bits), Pow2(f.fracBits);
    Recompose(f, bits);
    NormalShape(f, raw);
    assert LeadExp(f, p.frac, p.exp) == p.exp;
    ExactSig(f, rm, p.sign, p.frac, p.exp, F + raw);
    assert Pow2(f.fracBits + 1) == 2 * F;
    DivModOf(1, F, raw);
  }

  lemma NormalShape(f: Format, raw: nat)
    requires f.Valid() && raw < Pow2(f.fracBits)
    ensures var x := Pow2(f.intBit) + raw * Pow2(f.RoundPos());
      BitLen(x) == f.intBit + 1 && Scaled(f, x) == (Pow2(f.fracBits) + raw) * Pow2(f.intBit)
  {
    hide BitLen, Pow2;
    Pow2Add(f.fracBits, f.RoundPos());
    NormalLen(f, raw);
    Factor(Pow2(f.fracBits), Pow2(f.RoundPos()), raw, Pow2(f.intBit));
  }

  lemma NormalLen(f: Format, raw: nat)
    requires f.Valid() && raw < Pow2(f.fracBits)
    ensures BitLen(Pow2(f.intBit) + raw * Pow2(f.RoundPos())) == f.intBit + 1
  {
    hide BitLen;
    Pow2Add(f.fracBits, f.RoundPos());
    Below(raw, Pow2(f.fracBits), Pow2(f.RoundPos()), Pow2(f.intBit));
    OneAndRest(f.intBit, raw * Pow2(f.RoundPos()));
  }

  lemma Below(a: nat, b: nat, c: nat, bc: nat)
    requires a < b && c >= 1 && bc == b * c
    ensures a * c < bc
  {
    MulOrder(a, b, c);
  }

  lemma OneAndRest(n: nat, y: nat)
    requires y < Pow2(n)
    ensures BitLen(Pow2(n) + y) == n + 1
  {
    hide BitLen;
    assert Pow2(n + 1) == 2 * Pow2(n);
    BitLenIs(Pow2(n) + y, n + 1);
  }

  lemma Factor(F: nat, R: nat, raw: nat, FR: nat)
    requires FR == F * R
    ensures (FR + raw * R) * F == (F + raw) * FR
  {
    assert (FR + raw * R) * F == FR * F + raw * R * F;
    FloatPack.Swap(raw, R, F);
    assert raw * F * R == raw * (F * R);
    assert (F + raw) * FR == F * FR + raw * FR;
  }

  lemma SubnormalRoundTrip(f: Format, rm: RoundMode, t: Tininess, bits: nat)
    requires f.Valid() && bits < Pow2(1 + f.expBits + f.fracBits)
    requires ExpField(f, bits) == 0 && FracField(f, bits) != 0
    ensures PackBits(f, rm, false, Unpack(f, bits)) == bits && PackFlags(f, rm, t, Unpack(f, bits)) == {}
  {
    hide Compose, RoundedSig, Exact, FracField, ExpField, SignField, Scaled, OverflowResult;
    var p := Unpack(f, bits);
    var raw, F := FracField(f, bits), Pow2(f.fracBits);
    var x := raw * Pow2(f.RoundPos());
    Recompose(f, bits);
    var e := MaxFiniteExp(f);
    SubnormalBits(f, raw);
    SubnormalShape(f, raw, x);
    ExactSig(f, rm, p.sign, x, f.Emin(), raw);
    var shift: nat := f.intBit + 1 - BitLen(x);
    FloatPack.NormalizeLeft(f, rm, p.sign, x, f.Emin(), shift, p.frac);
    SmallMod(raw, F);
    assert Pow2(f.fracBits + 1) == 2 * F;
  }

  lemma SubnormalShape(f: Format, raw: nat, x: nat)
    requires f.Valid() && x == raw * Pow2(f.RoundPos())
    ensures Scaled(f, x) == raw * Pow2(f.intBit)
  {
    Pow2Add(f.fracBits, f.RoundPos());
    FloatPack.Swap(raw, Pow2(f.RoundPos()), Pow2(f.fracBits));
    assert raw * Pow2(f.fracBits) * Pow2(f.RoundPos()) == raw * (Pow2(f.fracBits) * Pow2(f.RoundPos()));
  }

  predicate IsNan(f: Format, bits: nat) { ExpField(f, bits) == f.MaxExp() && FracField(f, bits) != 0 }

  /** A NaN whose quiet bit, the top fraction bit, is clear. */
  predicate IsSignalling(f: Format, bits: nat)
    requires f.Valid()
  {
    IsNan(f, bits) && FracField(f, bits) < Pow2(f.fracBits - 1)
  }

  lemma TopBit(x: nat, n: nat)
    requires x < Pow2(n + 1)
    ensures x / Pow2(n) % 2 == if x < Pow2(n) then 0 else 1
  {
    if x < Pow2(n) { DivModOf(0, Pow2(n), x); } else { DivModOf(1, Pow2(n), x - Pow2(n)); }
  }

  /** The payload that encode_nan extracts from raw, placed below the integer bit. */
  lemma Payload(f: Format, raw: nat)
    requires f.Valid() && raw < Pow2(f.fracBits)
    ensures raw * Pow2(f.RoundPos()) / Pow2(f.RoundPos()) % Pow2(f.fracBits) == raw
  {
    DivModOf(raw, Pow2(f.RoundPos()), 0);
    SmallMod(raw, Pow2(f.fracBits));
  }

  /** Setting the quiet bit below the integer bit sets it in the payload. */
  lemma Quieten(f: Format, raw: nat)
    requires f.Valid() && raw < Pow2(f.fracBits - 1)
    ensures OrBit(raw * Pow2(f.RoundPos()), f.intBit - 1) == (raw + Pow2(f.fracBits - 1)) * Pow2(f.RoundPos())
  {
    var h, R := Pow2(f.fracBits - 1), Pow2(f.RoundPos());
    Pow2Add(f.fracBits - 1, f.RoundPos());
    MulOrder(raw, h, R);
    TopBit(raw * R, f.intBit - 1);
    assert (raw + h) * R == raw * R + h * R;
  }

  lemma NanRoundTrip(f: Format, bits: nat)
    requires f.Valid() && bits < Pow2(1 + f.expBits + f.fracBits) && IsNan(f, bits)
    ensures PackNan(f, false, Unpack(f, bits)) == if IsSignalling(f, bits) then bits + Pow2(f.fracBits - 1) else bits
  {
    hide FracField, ExpField, SignField;
    var raw, h := FracField(f, bits), Pow2(f.fracBits - 1);
    Recompose(f, bits);
    assert Pow2(f.fracBits) == 2 * h;
    TopBit(raw, f.fracBits - 1);
    if raw < h {
      Quieten(f, raw);
      Payload(f, raw + h);
      TopBit(raw + h, f.fracBits - 1);
    } else {
      Payload(f, raw);
    }
  }

  /** Every encoding survives unpack and pack bit for bit and raises nothing; a signalling NaN
      comes back quiet. */
  lemma RoundTrip(f: Format, rm: RoundMode, t: Tininess, bits: nat)
    requires f.Valid() && bits < Pow2(1 + f.expBits + f.fracBits)
    ensures PackBits(f, rm, false, Unpack(f, bits)) == if IsSignalling(f, bits) then bits + Pow2(f.fracBits - 1) else bits
    ensures PackFlags(f, rm, t, Unpack(f, bits)) == {}
  {
    hide Compose, FracField, ExpField, SignField, PackNan, FiniteBits, FiniteFlags;
    Recompose(f, bits);
    var e := MaxFiniteExp(f);
    if IsNan(f, bits) {
      NanRoundTrip(f, bits);
    } else if 0 < ExpField(f, bits) < f.MaxExp() {
      NormalRoundTrip(f, rm, t, bits);
    } else if ExpField(f, bits) == 0 && FracField(f, bits) != 0 {
      SubnormalRoundTrip(f, rm, t, bits);
    }
  }

  /** 2047 / 2 of half precision's last subnormal places lie between the largest subnormal and
      the smallest normal number; to nearest even that is the smallest normal, and round_pack
      returns zero. */
  lemma LostSubnormalExample()
    ensures RoundedSig(FLOAT16, NearEven, false, 2047, 101) == 1024
    ensures FiniteBits(FLOAT16, NearEven, false, 2047, 101) == 0
    ensures !Correct(FLOAT16, NearEven, false, InputValue(FLOAT16, 2047, 101), 0)
  {
    hide RoundsTo, Times, RPow2;
    assert BitLen(2047) == 11;
    assert Pow2(10) == 1024 && Pow2(11) == 2048;
    assert RoundedSig(FLOAT16, NearEven, false, 2047, 101) == RoundUnits(NearEven, false, 2047 * 1024, 2048);
    ReachesNormal(FLOAT16, NearEven, false, 2047, 101);
    RoundPackCorrect(FLOAT16, NearEven, false, 2047, 101);
    LostPacksZero(FLOAT16, NearEven, false, 2047, 101);
    OverflowIff(FLOAT16, NearEven, false, 2047, 101);
  }
}
