/** round_pack rounds correctly in every mode, exactly when it does not lose a subnormal that
    rounds up to the smallest normal number. */
module FloatCorrect {
  import opened PowersOfTwo
  import opened Rounding
  import opened SoftFloat
  import opened FloatValue

  /** Exponent whose last place the result is rounded to. */
  function ResultExp(f: Format, frac: nat, exp: int): int {
    if BelowNormal(f, frac, exp) then f.Emin() else LeadExp(f, frac, exp)
  }

  ghost function LastPlace(f: Format, frac: nat, exp: int): real {
    RPow2(ResultExp(f, frac, exp) - f.fracBits)
  }

  /** The rounded value, exponent unbounded above. */
  ghost function RoundedValue(f: Format, rm: RoundMode, sign: bool, frac: nat, exp: int): real
    requires f.Valid() && frac != 0
  {
    Times(RoundedSig(f, rm, sign, frac, exp), LastPlace(f, frac, exp))
  }

  /** Value and last place over one common unit t. */
  lemma CommonUnit(f: Format, frac: nat, exp: int) returns (t: real)
    requires f.Valid() && frac != 0
    ensures t > 0.0
    ensures InputValue(f, frac, exp) == Times(Scaled(f, frac), t)
    ensures LastPlace(f, frac, exp) == Times(Pow2(UnitShift(f, frac, exp)), t)
  {
    hide Times;
    t := RPow2(exp - f.intBit - f.fracBits);
    RPow2Add(exp - f.intBit - f.fracBits, f.fracBits);
    RPow2Add(exp - f.intBit - f.fracBits, UnitShift(f, frac, exp));
    TimesMul(frac, Pow2(f.fracBits), t);
  }

  /** Quotient bounds: a normal result has its integer bit, a subnormal one has not. */
  lemma QuotientBounds(f: Format, frac: nat, exp: int)
    requires f.Valid() && frac != 0
    ensures var q := Scaled(f, frac) / Pow2(UnitShift(f, frac, exp));
      if BelowNormal(f, frac, exp) then q < Pow2(f.fracBits) else Pow2(f.fracBits) <= q < Pow2(f.fracBits + 1)
  {
    var l := BitLen(frac);
    var p := UnitShift(f, frac, exp);
    var F := Pow2(f.fracBits);
    if BelowNormal(f, frac, exp) {
      Pow2Mono(l, p);
      QuotientRange(frac, F, Pow2(p), 0);
    } else {
      assert p == l - 1;
      QuotientRange(frac, F, Pow2(p), 1);
    }
  }

  lemma QuotientRange(x: nat, F: nat, u: nat, c: nat)
    requires F >= 1 && u >= 1 && c <= 1 && c * u <= x < (c + 1) * u
    ensures c * F <= x * F / u < (c + 1) * F
  {
    var q, r := Split(x * F, u);
    if c == 0 {
      MulOrder(x, u, F);
      QuotientBelow(q, r, u, F, x * F);
    } else {
      MulOrder(x, 2 * u, F);
      MulLe(u, x, F);
      QuotientBelow(q, r, u, 2 * F, x * F);
      assert (q + 1) * u == q * u + u;
      if q + 1 <= F { MulLe(q + 1, F, u); }
    }
  }

  lemma QuotientBelow(q: nat, r: nat, u: nat, b: nat, x: nat)
    requires x == q * u + r && x < u * b
    ensures q < b
  {
    if q >= b { MulLe(b, q, u); }
  }

  lemma MulLe(a: nat, b: nat, c: nat)
    requires a <= b
    ensures a * c <= b * c
  {
    if a < b && c >= 1 { MulOrder(a, b, c); }
  }

  /** Nothing of the grid lies strictly between two neighbouring multiples of the last place. */
  lemma GapFree(f: Format, e0: int, q: nat, y: real)
    requires f.Valid() && OnGrid(f, y) && e0 >= f.Emin()
    requires e0 == f.Emin() || q >= Pow2(f.fracBits)
    ensures y <= Times(q, RPow2(e0 - f.fracBits)) || y >= Times(q + 1, RPow2(e0 - f.fracBits))
  {
    hide Times;
    var m: nat, e: int :| OnGridAt(f, y, m, e);
    if e >= e0 {
      var w, n := RPow2(e0 - f.fracBits), Pow2(e - e0);
      RPow2Add(e0 - f.fracBits, e - e0);
      TimesMul(m, n, w);
      TimesOrder(m * n, q, w);
      TimesOrder(q + 1, m * n, w);
    } else {
      // y is below the binade of e0, whose first value is already at most q last places.
      var w, n := RPow2(e - f.fracBits), Pow2(e0 - e);
      RPow2Add(e - f.fracBits, e0 - e);
      TimesMul(q, n, w);
      BelowBinade(m, Pow2(f.fracBits), q, n);
      TimesOrder(m, q * n, w);
    }
  }

  lemma BelowBinade(m: nat, F: nat, q: nat, n: nat)
    requires m < 2 * F && F <= q && n >= 2
    ensures m <= q * n
  {
    MulLe(2, n, q);
  }

  /** Both neighbours are on the grid. */
  lemma NeighbourOnGrid(f: Format, e0: int, k: nat)
    requires f.Valid() && e0 >= f.Emin() && k <= Pow2(f.fracBits + 1)
    ensures OnGrid(f, Times(k, RPow2(e0 - f.fracBits)))
  {
    hide Times;
    var y := Times(k, RPow2(e0 - f.fracBits));
    if k < Pow2(f.fracBits + 1) {
      assert OnGridAt(f, y, k, e0);
    } else {
      RPow2Add(e0 - f.fracBits, 1);
      assert Pow2(1) == 2;
      TimesMul(Pow2(f.fracBits), 2, RPow2(e0 - f.fracBits));
      assert OnGridAt(f, y, Pow2(f.fracBits), e0 + 1);
    }
  }

  /** The choice between the neighbours lo and hi of x, the grid having a gap between them:
      x lies r units above lo, hi lies u units above lo. */
  lemma Decide(f: Format, rm: RoundMode, sign: bool, x: real, lo: real, hi: real, q: nat, r: nat, u: nat, t: real)
    requires f.Valid() && t > 0.0 && r < u
    requires x == lo + Times(r, t) && hi == lo + Times(u, t)
    requires OnGrid(f, lo) && OnGrid(f, hi)
    requires forall y | OnGrid(f, y) :: y <= lo || y >= hi
    ensures var k := RoundQR(rm, sign, q, r, u);
      RoundsTo(f, rm, sign, x, if k == q then lo else hi, k % 2 == 0)
  {
    hide Times;
    TimesOrder(r, u, t);
    TimesOrder(0, r, t);
    TimesOrder(2 * r, u, t);
    TimesOrder(u, 2 * r, t);
    TimesAdd(r, r, t);
    TimesAdd(0, 0, t);
    Choose(f, rm, sign, x, lo, hi, q, r, u);
  }

  lemma Choose(f: Format, rm: RoundMode, sign: bool, x: real, lo: real, hi: real, q: nat, r: nat, u: nat)
    requires r < u && lo <= x < hi && (r == 0 <==> x == lo)
    requires x - lo < hi - x <==> 2 * r < u
    requires x - lo == hi - x <==> 2 * r == u
    requires OnGrid(f, lo) && OnGrid(f, hi)
    requires forall y | OnGrid(f, y) :: y <= lo || y >= hi
    ensures var k := RoundQR(rm, sign, q, r, u);
      RoundsTo(f, rm, sign, x, if k == q then lo else hi, k % 2 == 0)
  {
    hide OnGrid;
    if rm == NearMaxMag && Tie(f, x, lo) {
      var y :| OnGrid(f, y) && y != lo && Abs(y - x) == Abs(lo - x);
    }
    if rm == NearEven && Tie(f, x, lo) {
      var y :| OnGrid(f, y) && y != lo && Abs(y - x) == Abs(lo - x);
    }
    if rm == NearEven && Tie(f, x, hi) {
      var y :| OnGrid(f, y) && y != hi && Abs(y - x) == Abs(hi - x);
    }
  }

  /** The value in last places: q whole ones and r units of a fraction r / u of one. */
  lemma InLastPlaces(f: Format, frac: nat, exp: int) returns (q: nat, r: nat, u: nat, t: real)
    requires f.Valid() && frac != 0
    ensures u == Pow2(UnitShift(f, frac, exp)) && q == Scaled(f, frac) / u && r == Scaled(f, frac) % u
    ensures r < u && t > 0.0 && LastPlace(f, frac, exp) == Times(u, t)
    ensures InputValue(f, frac, exp) == Times(q, LastPlace(f, frac, exp)) + Times(r, t)
    ensures if BelowNormal(f, frac, exp) then q < Pow2(f.fracBits) else Pow2(f.fracBits) <= q < Pow2(f.fracBits + 1)
  {
    hide Times, Scaled;
    t := CommonUnit(f, frac, exp);
    u := Pow2(UnitShift(f, frac, exp));
    q, r := Split(Scaled(f, frac), u);
    TimesAdd(q * u, r, t);
    TimesMul(q, u, t);
    QuotientBounds(f, frac, exp);
  }

  /** Round to nearest, directed rounding and round to odd, for every input. */
  lemma RoundedValueCorrect(f: Format, rm: RoundMode, sign: bool, frac: nat, exp: int)
    requires f.Valid() && frac != 0
    ensures RoundsTo(f, rm, sign, InputValue(f, frac, exp), RoundedValue(f, rm, sign, frac, exp),
                     RoundedSig(f, rm, sign, frac, exp) % 2 == 0)
  {
    hide Times, RoundsTo, OnGrid, Scaled, InputValue, UnitShift, RoundQR;
    var q, r, u, t := InLastPlaces(f, frac, exp);
    var w := LastPlace(f, frac, exp);
    var e0 := ResultExp(f, frac, exp);
    NeighbourOnGrid(f, e0, q);
    NeighbourOnGrid(f, e0, q + 1);
    forall y | OnGrid(f, y) ensures y <= Times(q, w) || y >= Times(q + 1, w) { GapFree(f, e0, q, y); }
    TimesAdd(q, 1, w);
    OneTime(w);
    Decide(f, rm, sign, InputValue(f, frac, exp), Times(q, w), Times(q + 1, w), q, r, u, t);
  }

  lemma OneTime(w: real)
    ensures Times(1, w) == w
  {
  }
}
