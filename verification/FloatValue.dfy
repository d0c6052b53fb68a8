/** What the packed bits mean: correct rounding of the exact value, over the reals. */
module FloatValue {
  import opened PowersOfTwo
  import opened Rounding
  import opened SoftFloat

  /** The exact magnitude a significand and exponent stand for. */
  ghost function InputValue(f: Format, frac: nat, exp: int): real {
    Times(frac, RPow2(exp - f.intBit))
  }

  /** Magnitudes of the format, were its exponent range unbounded above. */
  ghost predicate OnGrid(f: Format, y: real) {
    exists m: nat, e: int :: OnGridAt(f, y, m, e)
  }

  ghost predicate OnGridAt(f: Format, y: real, m: nat, e: int) {
    m < Pow2(f.fracBits + 1) && e >= f.Emin() && y == Times(m, RPow2(e - f.fracBits))
  }

  ghost function Abs(x: real): real { if x >= 0.0 then x else -x }

  ghost predicate TowardZero(f: Format, x: real, v: real) {
    v <= x && forall y | OnGrid(f, y) && y <= x :: y <= v
  }

  ghost predicate AwayFromZero(f: Format, x: real, v: real) {
    v >= x && forall y | OnGrid(f, y) && y >= x :: y >= v
  }

  ghost predicate Nearest(f: Format, x: real, v: real) {
    forall y | OnGrid(f, y) :: Abs(v - x) <= Abs(y - x)
  }

  ghost predicate Tie(f: Format, x: real, v: real) {
    exists y :: OnGrid(f, y) && y != v && Abs(y - x) == Abs(v - x)
  }

  /** v is the rounding of the magnitude x, and even says whether its last digit is even.
      The first five modes are those of section 4.3 of IEEE 754-2019. */
  ghost predicate RoundsTo(f: Format, rm: RoundMode, sign: bool, x: real, v: real, even: bool) {
    OnGrid(f, v) &&
    match rm
    case NearEven => Nearest(f, x, v) && (Tie(f, x, v) ==> even)
    case NearMaxMag => Nearest(f, x, v) && (Tie(f, x, v) ==> v >= x)
    case ToZero => TowardZero(f, x, v)
    case Down => if sign then AwayFromZero(f, x, v) else TowardZero(f, x, v)
    case Up => if sign then TowardZero(f, x, v) else AwayFromZero(f, x, v)
    case Odd =>
      if OnGrid(f, x) then v == x
      else !even && (TowardZero(f, x, v) || AwayFromZero(f, x, v))
  }

  // ----- decoding -----

  predicate IsFinite(f: Format, bits: nat) { ExpField(f, bits) != f.MaxExp() }
  predicate IsInfinite(f: Format, bits: nat) { ExpField(f, bits) == f.MaxExp() && FracField(f, bits) == 0 }

  /** Magnitude of a finite encoding (section 3.4 of IEEE 754-2019). */
  ghost function Magnitude(f: Format, bits: nat): real {
    FieldValue(f, ExpField(f, bits), FracField(f, bits))
  }

  ghost function FieldValue(f: Format, e: nat, m: nat): real {
    if e == 0 then Times(m, RPow2(f.Emin() - f.fracBits))
    else Times(Pow2(f.fracBits) + m, RPow2(e - f.bias - f.fracBits))
  }

  ghost function MaxFinite(f: Format): real
    requires f.Valid()
  {
    FieldValue(f, MaxFiniteExp(f), Pow2(f.fracBits) - 1)
  }

  function MaxFiniteExp(f: Format): (e: nat)
    requires f.Valid()
    ensures e == f.MaxExp() - 1 && e >= 2
  {
    assert Pow2(2) == 4 by { assert Pow2(1) == 2; }
    Pow2Mono(2, f.expBits);
    Pow2(f.expBits) - 2
  }

  lemma Fields(f: Format, sign: bool, e: nat, m: nat)
    requires f.Valid() && e < Pow2(f.expBits) && m < Pow2(f.fracBits)
    ensures var bits := Compose(f, sign, e, m);
      && FracField(f, bits) == m && ExpField(f, bits) == e && SignField(f, bits) == sign
      && bits % 2 == m % 2 && bits < Pow2(1 + f.expBits + f.fracBits)
  {
    var F, E := Pow2(f.fracBits), Pow2(f.expBits);
    var s := if sign then 1 else 0;
    Pow2Add(f.fracBits, f.expBits);
    FieldsOf(F, E, s, e, m);
    assert Compose(f, sign, e, m) == s * (F * E) + e * F + m;
    assert F == 2 * Pow2(f.fracBits - 1);
    assert Pow2(1 + f.expBits + f.fracBits) == 2 * Pow2(f.fracBits + f.expBits);
    EvenParity(s, e, m, F, E, Pow2(f.fracBits - 1));
  }

  lemma FieldsOf(F: nat, E: nat, s: nat, e: nat, m: nat)
    requires F >= 1 && E >= 1 && s <= 1 && e < E && m < F
    ensures F * E >= 1
    ensures var bits := s * (F * E) + e * F + m;
      bits % F == m && bits / F % E == e && bits / (F * E) % 2 == s && bits < 2 * (F * E)
  {
    MulOrder(0, E, F);
    MulOrder(E, e + 1, F);
    assert (e + 1) * F == e * F + F;
    var bits := s * (F * E) + e * F + m;
    DivModOf(s, F * E, e * F + m);
    assert bits == (s * E + e) * F + m by {
      assert (s * E + e) * F == s * E * F + e * F;
      assert s * E * F == s * (F * E);
    }
    DivModOf(s * E + e, F, m);
    DivModOf(s, E, e);
  }

  lemma EvenParity(s: nat, e: nat, m: nat, F: nat, E: nat, h: nat)
    requires F == 2 * h
    ensures (s * (F * E) + e * F + m) % 2 == m % 2
  {
    assert s * (F * E) == 2 * (s * (h * E));
    assert e * F == 2 * (e * h);
  }
}
