/** pack and round_pack as the source runs them, proved against the significand that the
    unshifted input rounds to: normalisation and sticky shifts never change the outcome. */
module FloatPack {
  import opened PowersOfTwo
  import opened Rounding
  import opened SoftFloat

  lemma FourDivides(n: nat)
    requires n >= 2
    ensures Pow2(n) % 4 == 0
  {
    assert Pow2(n) == 4 * Pow2(n - 2);
  }

  lemma Unscale(rm: RoundMode, sign: bool, x: nat, n: nat, p: nat)
    requires p >= n
    ensures RoundUnits(rm, sign, x * Pow2(n), Pow2(p)) == RoundUnits(rm, sign, x, Pow2(p - n))
    ensures x * Pow2(n) % Pow2(p) == 0 <==> x % Pow2(p - n) == 0
  {
    Pow2Add(p - n, n);
    RoundScale(rm, sign, x, Pow2(p - n), Pow2(n));
  }

  lemma NormalUnits(f: Format, rm: RoundMode, sign: bool, frac: nat, exp: int)
    requires f.Valid() && BitLen(frac) == f.intBit + 1 && exp >= f.Emin()
    ensures !BelowNormal(f, frac, exp) && LeadExp(f, frac, exp) == exp
    ensures RoundedSig(f, rm, sign, frac, exp) == RoundUnits(rm, sign, frac, Pow2(f.RoundPos()))
    ensures Exact(f, frac, exp) <==> frac % Pow2(f.RoundPos()) == 0
  {
    Unscale(rm, sign, frac, f.fracBits, f.intBit);
  }

  lemma TinyUnits(f: Format, rm: RoundMode, sign: bool, frac: nat, exp: int)
    requires f.Valid() && BitLen(frac) == f.intBit + 1 && exp < f.Emin()
    ensures BelowNormal(f, frac, exp)
    ensures var y := ShiftSticky(frac, f.Emin() - exp);
      && RoundedSig(f, rm, sign, frac, exp) == RoundUnits(rm, sign, y, Pow2(f.RoundPos()))
      && (Exact(f, frac, exp) <==> y % Pow2(f.RoundPos()) == 0)
  {
    var shift: nat := f.Emin() - exp;
    Unscale(rm, sign, frac, f.fracBits, shift + f.intBit);
    Pow2Add(f.RoundPos(), shift);
    FourDivides(f.RoundPos());
    StickyRound(rm, sign, frac, shift, Pow2(f.RoundPos()));
  }

  /** A shift of a normalised significand by at least one bit stays below the integer bit. */
  lemma ShiftedBelow(frac: nat, shift: nat, ib: nat)
    requires 0 < frac < Pow2(ib + 1) && shift >= 1
    ensures ib >= 1 ==> ShiftSticky(frac, shift) < Pow2(ib)
    ensures shift >= ib + 1 ==> ShiftSticky(frac, shift) == 1
  {
    Pow2Mono(1, shift);
    assert Pow2(1) == 2;
    var q, r := Split(frac, Pow2(shift));
    if q >= Pow2(ib) { HalfBound(q, Pow2(shift), Pow2(ib)); }
    if shift >= ib + 1 {
      Pow2Mono(ib + 1, shift);
      if q >= 1 { AtLeastTimes(q, 1, Pow2(shift)); }
    }
  }

  lemma HalfBound(q: nat, c: nat, b: nat)
    requires q >= b && c >= 2
    ensures q * c >= 2 * b
  {
    AtLeastTimes(q, b, c);
    AtLeastTimes(c, 2, b);
  }

  lemma AtLeastTimes(q: nat, b: nat, c: nat)
    requires q >= b
    ensures q * c >= b * c
  {
    if q > b && c >= 1 { MulOrder(b, q, c); }
  }

  /** What rounding to the unit Pow2(rp) gives for a significand below 2^hi. */
  lemma RoundedBound(rm: RoundMode, sign: bool, x: nat, hi: nat, rp: nat)
    requires rp <= hi && x < Pow2(hi)
    ensures RoundUnits(rm, sign, x, Pow2(rp)) <= Pow2(hi - rp)
  {
    Pow2Add(hi - rp, rp);
    var q, r := Split(x, Pow2(rp));
    if q >= Pow2(hi - rp) { AtLeastTimes(q, Pow2(hi - rp), Pow2(rp)); }
  }

  /** The carry test, the tininess test and the field extraction, in last places. */
  lemma Assembly(k: nat, fb: nat, rp: nat)
    requires k <= Pow2(fb + 1)
    ensures k * Pow2(rp) / Pow2(fb + rp + 1) != 0 <==> k >= Pow2(fb + 1)
    ensures k >= Pow2(fb + 1) ==> k * Pow2(rp) / 2 / Pow2(rp) == k / 2
    ensures k * Pow2(rp) / Pow2(rp) == k
    ensures k <= Pow2(fb) ==> (k * Pow2(rp) / Pow2(fb + rp) % 2 == 0 <==> k < Pow2(fb))
  {
    var u := Pow2(rp);
    Pow2Add(fb + 1, rp);
    Pow2Add(fb, rp);
    QuotientSmall(k, u, Pow2(fb + 1));
    if k <= Pow2(fb) { QuotientSmall(k, u, Pow2(fb)); }
    WholeUnits(k, u);
    if k >= Pow2(fb + 1) { HalfUnits(k, Pow2(fb), u); }
  }

  lemma WholeUnits(k: nat, u: nat)
    requires u >= 1
    ensures k * u / u == k
  {
    DivModOf(k, u, 0);
  }

  lemma HalfUnits(k: nat, h: nat, u: nat)
    requires u >= 1 && k == 2 * h
    ensures k * u / 2 / u == k / 2
  {
    assert k * u == 2 * (h * u);
    DivModOf(h, u, 0);
  }

  lemma QuotientSmall(k: nat, u: nat, b: nat)
    requires u >= 1 && b >= 1 && k <= b
    ensures b * u >= 1
    ensures k * u / (b * u) == if k == b then 1 else 0
  {
    MulOrder(0, b, u);
    if k == b { DivModOf(1, b * u, 0); } else { MulOrder(k, b, u); DivModOf(0, b * u, k * u); }
  }

  /** apply_rounding: rounds frac to a multiple of the unit, in the given mode. */
  method ApplyRounding(frac: nat, remainder: nat, half: nat, unit: nat, rm: RoundMode, sign: bool) returns (r: nat)
    requires unit >= 2 && unit % 2 == 0 && remainder == frac % unit && half == unit / 2
    ensures r == RoundUnits(rm, sign, frac, unit) * unit
  {
    var truncated := frac - remainder;
    var lsbSet := frac / unit % 2 != 0;
    ghost var q, rest := Split(frac, unit);
    assert (q + 1) * unit == q * unit + unit;
    match rm {
      case NearEven =>
        if remainder > half {
          r := truncated + unit;
        } else if remainder == half {
          if lsbSet { r := truncated + unit; } else { r := truncated; }
        } else {
          r := truncated;
        }
      case NearMaxMag => r := if remainder >= half then truncated + unit else truncated;
      case ToZero => r := truncated;
      case Down => r := if sign && remainder != 0 then truncated + unit else truncated;
      case Up => r := if !sign && remainder != 0 then truncated + unit else truncated;
      case Odd => r := if remainder != 0 && !lsbSet then truncated + unit else truncated;
    }
  }

  /** The significand the rounding step works on, and the facts the rest of pack needs of it. */
  lemma ReadyToRound(f: Format, rm: RoundMode, sign: bool, frac: nat, exp: int, y: nat)
    requires f.Valid() && BitLen(frac) == f.intBit + 1
    requires y == if exp < f.Emin() then ShiftSticky(frac, f.Emin() - exp) else frac
    ensures BelowNormal(f, frac, exp) <==> exp < f.Emin()
    ensures exp >= f.Emin() ==> LeadExp(f, frac, exp) == exp
    ensures Exact(f, frac, exp) <==> y % Pow2(f.RoundPos()) == 0
    ensures RoundedSig(f, rm, sign, frac, exp) == RoundUnits(rm, sign, y, Pow2(f.RoundPos()))
    ensures RoundedSig(f, rm, sign, frac, exp) <= Pow2(f.fracBits + 1)
    ensures exp < f.Emin() ==> RoundedSig(f, rm, sign, frac, exp) <= Pow2(f.fracBits)
  {
    if exp < f.Emin() {
      TinyUnits(f, rm, sign, frac, exp);
      ShiftedBelow(frac, f.Emin() - exp, f.intBit);
      RoundedBound(rm, sign, y, f.intBit, f.RoundPos());
    } else {
      NormalUnits(f, rm, sign, frac, exp);
      RoundedBound(rm, sign, y, f.intBit + 1, f.RoundPos());
    }
  }

  /** pack: the integer bit must already be in place. */
  method Pack(f: Format, parts: FloatParts, env: FloatEnv) returns (bits: nat)
    requires f.Valid()
    requires parts.cls == Normal && parts.frac != 0 ==> BitLen(parts.frac) == f.intBit + 1
    modifies env`flags
    ensures bits == PackBits(f, env.roundMode, env.defaultNan, parts)
    ensures env.flags == old(env.flags) + PackFlags(f, env.roundMode, env.tininess, parts)
  {
    match parts.cls {
      case Zero => return PackZero(f, parts.sign);
      case Inf => return PackInf(f, parts.sign);
      case QNaN => return PackNan(f, env.defaultNan, parts);
      case SNaN => return PackNan(f, env.defaultNan, parts);
      case Normal =>
    }
    if parts.frac == 0 { return PackZero(f, parts.sign); }
    bits := PackFinite(f, parts, env);
  }

  predicate CountsAsTiny(f: Format, sign: bool, rm: RoundMode, tininess: Tininess, y: nat)
    requires f.Valid()
  {
    y % Pow2(f.RoundPos()) != 0 && (tininess == BeforeRounding || RoundUnits(rm, sign, y, Pow2(f.RoundPos())) < Pow2(f.fracBits))
  }

  /** The encoding of k last places at the exponent field lead, and the flags beside underflow. */
  function PlacesBits(f: Format, rm: RoundMode, sign: bool, k: nat, lead: nat): nat
    requires f.Valid()
  {
    var carry := k >= Pow2(f.fracBits + 1);
    var biased := lead + if carry then 1 else 0;
    if biased >= f.MaxExp() then OverflowResult(f, sign, rm)
    else Compose(f, sign, biased, (if carry then k / 2 else k) % Pow2(f.fracBits))
  }

  function PlacesFlags(f: Format, k: nat, lead: nat, exact: bool): set<Exc>
    requires f.Valid()
  {
    if (lead + if k >= Pow2(f.fracBits + 1) then 1 else 0) >= f.MaxExp() then {Overflow, Inexact} else if exact then {} else {Inexact}
  }

  /** Packing from the significand y the rounding step works on. */
  lemma FiniteIs(f: Format, rm: RoundMode, tininess: Tininess, sign: bool, frac: nat, exp: int, y: nat)
    requires f.Valid() && BitLen(frac) == f.intBit + 1
    requires y == if exp < f.Emin() then ShiftSticky(frac, f.Emin() - exp) else frac
    ensures var k := RoundUnits(rm, sign, y, Pow2(f.RoundPos()));
      var lead := if exp < f.Emin() then 0 else exp + f.bias;
      && k <= Pow2(f.fracBits + 1) && FiniteBits(f, rm, sign, frac, exp) == PlacesBits(f, rm, sign, k, lead)
      && FiniteFlags(f, rm, tininess, sign, frac, exp) ==
         (if exp < f.Emin() && CountsAsTiny(f, sign, rm, tininess, y) then {Underflow} else {}) + PlacesFlags(f, k, lead, y % Pow2(f.RoundPos()) == 0)
  {
    hide RoundedSig, Exact, RoundUnits, LeadExp, BelowNormal, ShiftSticky, Compose, OverflowResult, BitLen;
    ReadyToRound(f, rm, sign, frac, exp, y);
    TinyFits(f);
  }

  /** A result that starts below the normal range cannot overflow. */
  lemma TinyFits(f: Format)
    requires f.Valid()
    ensures f.MaxExp() > 1
  {
    Pow2Mono(2, f.expBits);
    assert Pow2(2) == 4;
  }

  /** The significand shifted down to the smallest exponent, and whether the result counts as tiny. */
  method Denormalize(f: Format, sign: bool, rm: RoundMode, tininess: Tininess, frac: nat, shift: nat) returns (y: nat, tiny: bool)
    requires f.Valid() && 0 < frac < Pow2(f.intBit + 1) && shift >= 1
    ensures y == ShiftSticky(frac, shift)
    ensures tiny <==> CountsAsTiny(f, sign, rm, tininess, y)
  {
    hide RoundUnits, ShiftSticky;
    var unit := Pow2(f.RoundPos());
    ShiftedBelow(frac, shift, f.intBit);
    if shift >= f.intBit + 2 { y := 1; } else { y := ShiftSticky(frac, shift); }
    FourDivides(f.RoundPos());
    tiny := false;
    if y % unit != 0 {
      tiny := tininess == BeforeRounding;
      if tininess == AfterRounding {
        var rounded := ApplyRounding(y, y % unit, unit / 2, unit, rm, sign);
        RoundedBound(rm, sign, y, f.intBit, f.RoundPos());
        Assembly(RoundUnits(rm, sign, y, unit), f.fracBits, f.RoundPos());
        tiny := rounded / Pow2(f.intBit) % 2 == 0;
      }
    }
  }

  /** Rounding, the carry out of it, and the overflow test. */
  method RoundAndCompose(f: Format, sign: bool, y: nat, lead: nat, env: FloatEnv) returns (bits: nat)
    requires f.Valid() && RoundUnits(env.roundMode, sign, y, Pow2(f.RoundPos())) <= Pow2(f.fracBits + 1)
    modifies env`flags
    ensures var k := RoundUnits(env.roundMode, sign, y, Pow2(f.RoundPos()));
      && bits == PlacesBits(f, env.roundMode, sign, k, lead)
      && env.flags == old(env.flags) + PlacesFlags(f, k, lead, y % Pow2(f.RoundPos()) == 0)
  {
    hide RoundUnits, Compose, OverflowResult;
    var unit := Pow2(f.RoundPos());
    FourDivides(f.RoundPos());
    Assembly(RoundUnits(env.roundMode, sign, y, unit), f.fracBits, f.RoundPos());
    var biased := lead;
    var inexact := y % unit != 0;
    var frac := ApplyRounding(y, y % unit, unit / 2, unit, env.roundMode, sign);
    if frac / Pow2(f.intBit + 1) != 0 {
      frac := frac / 2;
      biased := biased + 1;
    }
    if biased >= f.MaxExp() {
      env.Raise({Overflow, Inexact});
      return OverflowResult(f, sign, env.roundMode);
    }
    if inexact { env.Raise({Inexact}); }
    bits := Compose(f, sign, biased, frac / unit % Pow2(f.fracBits));
  }

  method PackFinite(f: Format, parts: FloatParts, env: FloatEnv) returns (bits: nat)
    requires f.Valid() && BitLen(parts.frac) == f.intBit + 1
    modifies env`flags
    ensures bits == FiniteBits(f, env.roundMode, parts.sign, parts.frac, parts.exp)
    ensures env.flags == old(env.flags) + FiniteFlags(f, env.roundMode, env.tininess, parts.sign, parts.frac, parts.exp)
  {
    hide FiniteBits, FiniteFlags, PlacesBits, PlacesFlags, CountsAsTiny, RoundUnits, ShiftSticky, Pow2;
    var frac := parts.frac;
    var biased: int := parts.exp + f.bias;
    ghost var y := if parts.exp < f.Emin() then ShiftSticky(frac, f.Emin() - parts.exp) else frac;
    FiniteIs(f, env.roundMode, env.tininess, parts.sign, frac, parts.exp, y);
    if biased < 1 {
      // Shift right until the exponent is the smallest one, keeping lost bits sticky.
      var tiny;
      frac, tiny := Denormalize(f, parts.sign, env.roundMode, env.tininess, frac, 1 - biased);
      biased := 0;
      if tiny { env.Raise({Underflow}); }
    }
    bits := RoundAndCompose(f, parts.sign, frac, biased, env);
  }

  lemma {:induction false} BitLenShift(frac: nat, s: nat)
    requires frac != 0
    ensures frac * Pow2(s) != 0 && BitLen(frac * Pow2(s)) == BitLen(frac) + s
  {
    hide BitLen;
    if s > 0 {
      BitLenShift(frac, s - 1);
      BitLenDouble(frac * Pow2(s - 1));
      TimesTwo(frac, Pow2(s - 1), Pow2(s));
    }
  }

  lemma TimesTwo(a: nat, p: nat, q: nat)
    requires q == 2 * p
    ensures a * q == a * p * 2
  {
  }

  lemma BitLenDouble(h: nat)
    requires h != 0
    ensures BitLen(h * 2) == BitLen(h) + 1
  {
  }

  /** Moving the integer bit into place by a left shift keeps the rounded result. */
  lemma NormalizeLeft(f: Format, rm: RoundMode, sign: bool, frac: nat, exp: int, s: nat, x: nat)
    requires f.Valid() && frac != 0 && x == frac * Pow2(s)
    ensures x != 0 && BitLen(x) == BitLen(frac) + s
    ensures RoundedSig(f, rm, sign, x, exp - s) == RoundedSig(f, rm, sign, frac, exp)
    ensures Exact(f, x, exp - s) <==> Exact(f, frac, exp)
  {
    BitLenShift(frac, s);
    Swap(frac, Pow2(s), Pow2(f.fracBits));
    ScaledInput(f, rm, sign, frac, exp, s, x);
  }

  lemma ScaledInput(f: Format, rm: RoundMode, sign: bool, frac: nat, exp: int, s: nat, x: nat)
    requires f.Valid() && frac != 0 && x != 0 && BitLen(x) == BitLen(frac) + s
    requires Scaled(f, x) == Scaled(f, frac) * Pow2(s)
    ensures RoundedSig(f, rm, sign, x, exp - s) == RoundedSig(f, rm, sign, frac, exp)
    ensures Exact(f, x, exp - s) <==> Exact(f, frac, exp)
  {
    hide RoundUnits, Scaled, Multiple;
    var p := UnitShift(f, frac, exp);
    assert UnitShift(f, x, exp - s) == p + s;
    Pow2Add(p, s);
    ScaleTo(rm, sign, Scaled(f, frac), Pow2(p), Pow2(s), Scaled(f, x), Pow2(p + s));
  }

  lemma ScaleTo(rm: RoundMode, sign: bool, x: nat, u: nat, c: nat, y: nat, v: nat)
    requires u >= 1 && c >= 1 && v >= 1 && y == x * c && v == u * c
    ensures RoundUnits(rm, sign, y, v) == RoundUnits(rm, sign, x, u)
    ensures Multiple(y, v) <==> Multiple(x, u)
  {
    RoundScale(rm, sign, x, u, c);
  }

  lemma Swap(a: nat, b: nat, c: nat)
    ensures a * b * c == a * c * b
  {
    assert a * b * c == a * (b * c);
    assert a * c * b == a * (c * b);
  }

  lemma HalvedLength(frac: nat, n: nat)
    requires BitLen(frac) == n + 2
    ensures ShiftSticky(frac, 1) != 0 && BitLen(ShiftSticky(frac, 1)) == n + 1
  {
    assert Pow2(1) == 2;
    BitLenIs(ShiftSticky(frac, 1), n + 1);
  }

  /** The rounded significand, with the scaling taken out. */
  lemma Unscaled(f: Format, rm: RoundMode, sign: bool, frac: nat, exp: int)
    requires f.Valid() && frac != 0 && UnitShift(f, frac, exp) >= f.fracBits
    ensures var u := Pow2(UnitShift(f, frac, exp) - f.fracBits);
      RoundedSig(f, rm, sign, frac, exp) == RoundUnits(rm, sign, frac, u) && (Exact(f, frac, exp) <==> Multiple(frac, u))
  {
    hide RoundUnits;
    Unscale(rm, sign, frac, f.fracBits, UnitShift(f, frac, exp));
  }

  lemma StickyUnits(rm: RoundMode, sign: bool, frac: nat, n: nat)
    requires n >= 2
    ensures RoundUnits(rm, sign, ShiftSticky(frac, 1), Pow2(n)) == RoundUnits(rm, sign, frac, Pow2(n + 1))
    ensures Multiple(ShiftSticky(frac, 1), Pow2(n)) <==> Multiple(frac, Pow2(n + 1))
  {
    hide RoundUnits;
    FourDivides(n);
    StickyRound(rm, sign, frac, 1, Pow2(n));
    Pow2Add(n, 1);
  }

  /** Moving it into place by a sticky right shift of one bit keeps the rounded result. */
  lemma NormalizeRight(f: Format, rm: RoundMode, sign: bool, frac: nat, exp: int)
    requires f.Valid() && BitLen(frac) == f.intBit + 2
    ensures ShiftSticky(frac, 1) != 0 && BitLen(ShiftSticky(frac, 1)) == f.intBit + 1
    ensures RoundedSig(f, rm, sign, ShiftSticky(frac, 1), exp + 1) == RoundedSig(f, rm, sign, frac, exp)
    ensures Exact(f, ShiftSticky(frac, 1), exp + 1) <==> Exact(f, frac, exp)
  {
    hide RoundUnits, RoundedSig, Exact, Multiple, BitLen, ShiftSticky, Pow2;
    HalvedLength(frac, f.intBit);
    var y, p := ShiftSticky(frac, 1), UnitShift(f, frac, exp);
    assert UnitShift(f, y, exp + 1) == p - 1;
    Unscaled(f, rm, sign, frac, exp);
    Unscaled(f, rm, sign, y, exp + 1);
    StickyUnits(rm, sign, frac, p - 1 - f.fracBits);
  }

  /** The normalisation step of round_pack: the leading bit moves to intBit. */
  function Normalized(f: Format, parts: FloatParts): FloatParts
    requires parts.frac != 0 && BitLen(parts.frac) <= f.intBit + 2
  {
    var lz := f.intBit + 2 - BitLen(parts.frac);
    if lz > 1 then parts.(frac := parts.frac * Pow2(lz - 1), exp := parts.exp - (lz - 1))
    else if lz < 1 then parts.(frac := ShiftSticky(parts.frac, 1 - lz), exp := parts.exp + (1 - lz))
    else parts
  }

  lemma NormalizedKeeps(f: Format, rm: RoundMode, parts: FloatParts)
    requires f.Valid() && parts.frac != 0 && BitLen(parts.frac) <= f.intBit + 2
    ensures var p := Normalized(f, parts);
      && p.sign == parts.sign && p.frac != 0 && BitLen(p.frac) == f.intBit + 1
      && LeadExp(f, p.frac, p.exp) == LeadExp(f, parts.frac, parts.exp)
      && RoundedSig(f, rm, parts.sign, p.frac, p.exp) == RoundedSig(f, rm, parts.sign, parts.frac, parts.exp)
      && (Exact(f, p.frac, p.exp) <==> Exact(f, parts.frac, parts.exp))
  {
    hide RoundedSig, Exact, BitLen, ShiftSticky, Pow2;
    var lz := f.intBit + 2 - BitLen(parts.frac);
    if lz > 1 {
      NormalizeLeft(f, rm, parts.sign, parts.frac, parts.exp, lz - 1, parts.frac * Pow2(lz - 1));
    } else if lz < 1 {
      NormalizeRight(f, rm, parts.sign, parts.frac, parts.exp);
    }
  }

  /** round_pack: any significand that fits the working word. */
  method RoundPack(f: Format, parts: FloatParts, env: FloatEnv) returns (bits: nat)
    requires f.Valid() && parts.frac < Pow2(f.intBit + 2)
    modifies env`flags
    ensures bits == PackBits(f, env.roundMode, env.defaultNan, parts)
    ensures env.flags == old(env.flags) + PackFlags(f, env.roundMode, env.tininess, parts)
  {
    hide RoundedSig, Exact, Normalized, PackNan, BitLen, LeadExp, FiniteBits, FiniteFlags;
    if parts.cls != Normal || parts.frac == 0 {
      bits := Pack(f, parts, env);
    } else {
      if BitLen(parts.frac) > f.intBit + 2 { Pow2Mono(f.intBit + 2, BitLen(parts.frac) - 1); }
      NormalizedKeeps(f, env.roundMode, parts);
      var p := Normalized(f, parts);
      SameResult(f, env.roundMode, env.tininess, parts.sign, parts.frac, parts.exp, p.frac, p.exp);
      bits := PackFinite(f, p, env);
    }
  }

  /** Bits and flags depend on the leading exponent, the rounded significand and exactness only. */
  lemma SameResult(f: Format, rm: RoundMode, t: Tininess, sign: bool, frac: nat, exp: int, frac': nat, exp': int)
    requires f.Valid() && frac != 0 && frac' != 0 && LeadExp(f, frac', exp') == LeadExp(f, frac, exp)
    requires RoundedSig(f, rm, sign, frac', exp') == RoundedSig(f, rm, sign, frac, exp) && (Exact(f, frac', exp') <==> Exact(f, frac, exp))
    ensures FiniteBits(f, rm, sign, frac', exp') == FiniteBits(f, rm, sign, frac, exp)
    ensures FiniteFlags(f, rm, t, sign, frac', exp') == FiniteFlags(f, rm, t, sign, frac, exp)
  {
    hide RoundedSig, Exact, Compose, OverflowResult, LeadExp;
  }
}
