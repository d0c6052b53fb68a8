/** Decomposed floats of softfloat/src/parts.rs for the formats with an implicit integer bit:
    unpack, round_pack and pack, with the environment they raise flags in. */
module SoftFloat {
  import opened PowersOfTwo
  import opened Rounding

  /** Position of the integer bit inside a normalised significand held in a u128. */
  const INT_BIT: nat := 126

  /** A format, with the position of the integer bit in the working significand: the word that
      holds it has intBit + 2 bits, so the integer bit leaves one bit of headroom. */
  datatype Format = Format(expBits: nat, fracBits: nat, bias: int, intBit: nat) {
    /** At least two bits stay below the last fraction bit, and one fraction bit exists. */
    predicate Valid() { expBits >= 2 && 1 <= fracBits && fracBits + 2 <= intBit }
    function MaxExp(): nat { Pow2(expBits) - 1 }
    function Emin(): int { 1 - bias }
    function RoundPos(): nat requires Valid() { intBit - fracBits }
  }

  const FLOAT16 := Format(5, 10, 15, INT_BIT)
  const BFLOAT16 := Format(8, 7, 127, INT_BIT)
  const FLOAT32 := Format(8, 23, 127, INT_BIT)
  const FLOAT64 := Format(11, 52, 1023, INT_BIT)
  const FLOAT128 := Format(15, 112, 16383, INT_BIT)

  datatype FloatClass = Normal | Zero | Inf | QNaN | SNaN
  datatype FloatParts = FloatParts(sign: bool, exp: int, frac: nat, cls: FloatClass)

  datatype Exc = Invalid | DivByZero | Overflow | Underflow | Inexact
  datatype Tininess = BeforeRounding | AfterRounding

  class FloatEnv {
    var roundMode: RoundMode
    var flags: set<Exc>
    var tininess: Tininess
    var defaultNan: bool

    constructor (rm: RoundMode)
      ensures roundMode == rm && flags == {} && tininess == AfterRounding && !defaultNan
    {
      roundMode, flags, tininess, defaultNan := rm, {}, AfterRounding, false;
    }

    method Raise(f: set<Exc>)
      modifies this`flags
      ensures flags == old(flags) + f
    {
      flags := flags + f;
    }
  }

  // ----- encodings -----

  function Compose(f: Format, sign: bool, e: nat, m: nat): nat {
    (if sign then Pow2(f.fracBits + f.expBits) else 0) + e * Pow2(f.fracBits) + m
  }

  function FracField(f: Format, bits: nat): nat { bits % Pow2(f.fracBits) }
  function ExpField(f: Format, bits: nat): nat { bits / Pow2(f.fracBits) % Pow2(f.expBits) }
  function SignField(f: Format, bits: nat): bool { bits / Pow2(f.fracBits + f.expBits) % 2 != 0 }

  function PackZero(f: Format, sign: bool): nat { Compose(f, sign, 0, 0) }
  function PackInf(f: Format, sign: bool): nat { Compose(f, sign, f.MaxExp(), 0) }
  function PackMaxFinite(f: Format, sign: bool): nat
    requires f.Valid()
  {
    assert Pow2(2) == 4 by { assert Pow2(1) == 2; }
    Pow2Mono(2, f.expBits);
    Compose(f, sign, f.MaxExp() - 1, Pow2(f.fracBits) - 1)
  }

  function OverflowResult(f: Format, sign: bool, rm: RoundMode): nat
    requires f.Valid()
  {
    match rm
    case NearEven | NearMaxMag => PackInf(f, sign)
    case ToZero | Odd => PackMaxFinite(f, sign)
    case Down => if sign then PackInf(f, true) else PackMaxFinite(f, false)
    case Up => if sign then PackMaxFinite(f, true) else PackInf(f, false)
  }

  // ----- unpack -----

  function Unpack(f: Format, bits: nat): FloatParts
    requires f.Valid()
  {
    var rawFrac := FracField(f, bits);
    var rawExp := ExpField(f, bits);
    var sign := SignField(f, bits);
    if rawExp == f.MaxExp() then
      if rawFrac == 0 then FloatParts(sign, 0, 0, Inf)
      else
        var quiet := rawFrac / Pow2(f.fracBits - 1) % 2 != 0;
        FloatParts(sign, 0, rawFrac * Pow2(f.RoundPos()), if quiet then QNaN else SNaN)
    else if rawExp == 0 then
      if rawFrac == 0 then FloatParts(sign, 0, 0, Zero) else UnpackSubnormal(f, sign, rawFrac)
    else
      FloatParts(sign, rawExp - f.bias, Pow2(f.intBit) + rawFrac * Pow2(f.RoundPos()), Normal)
  }

  function UnpackSubnormal(f: Format, sign: bool, rawFrac: nat): FloatParts
    requires f.Valid() && 0 < rawFrac < Pow2(f.fracBits)
  {
    var frac := rawFrac * Pow2(f.RoundPos());
    SubnormalBits(f, rawFrac);
    var shift: nat := f.intBit + 1 - BitLen(frac);
    FloatParts(sign, f.Emin() - shift, frac * Pow2(shift), Normal)
  }

  lemma SubnormalBits(f: Format, rawFrac: nat)
    requires f.Valid() && 0 < rawFrac < Pow2(f.fracBits)
    ensures 0 < rawFrac * Pow2(f.RoundPos()) < Pow2(f.intBit)
    ensures BitLen(rawFrac * Pow2(f.RoundPos())) <= f.intBit
  {
    var x := rawFrac * Pow2(f.RoundPos());
    Pow2Add(f.fracBits, f.RoundPos());
    MulOrder(rawFrac, Pow2(f.fracBits), Pow2(f.RoundPos()));
    MulOrder(0, rawFrac, Pow2(f.RoundPos()));
    if BitLen(x) > f.intBit { Pow2Mono(f.intBit, BitLen(x) - 1); }
  }

  // ----- the rounded significand, from the value that was passed in -----

  /** Exponent of the leading bit of frac, as an unbiased exponent. */
  function LeadExp(f: Format, frac: nat, exp: int): int { exp + BitLen(frac) - 1 - f.intBit }

  predicate BelowNormal(f: Format, frac: nat, exp: int) { LeadExp(f, frac, exp) < f.Emin() }

  /** frac stands for frac * 2^(exp - intBit). Scaled by 2^fracBits so that it is a whole number
      whatever the unit, the last place of the result weighs Pow2 of this. */
  function UnitShift(f: Format, frac: nat, exp: int): (p: nat)
    requires f.Valid() && frac != 0
  {
    var lead := LeadExp(f, frac, exp);
    (if lead < f.Emin() then f.Emin() else lead) - exp + f.intBit
  }

  function Scaled(f: Format, frac: nat): nat { frac * Pow2(f.fracBits) }

  predicate Multiple(x: nat, u: nat)
    requires u >= 1
  {
    x % u == 0
  }

  /** The significand, in last places, that the exact value rounds to. */
  function RoundedSig(f: Format, rm: RoundMode, sign: bool, frac: nat, exp: int): nat
    requires f.Valid() && frac != 0
  {
    RoundUnits(rm, sign, Scaled(f, frac), Pow2(UnitShift(f, frac, exp)))
  }

  predicate Exact(f: Format, frac: nat, exp: int)
    requires f.Valid() && frac != 0
  {
    Multiple(Scaled(f, frac), Pow2(UnitShift(f, frac, exp)))
  }

  /** Exponent field before the carry out of rounding. */
  function BiasedLead(f: Format, frac: nat, exp: int): nat {
    if BelowNormal(f, frac, exp) then 0 else LeadExp(f, frac, exp) + f.bias
  }

  function BiasedRounded(f: Format, rm: RoundMode, sign: bool, frac: nat, exp: int): nat
    requires f.Valid() && frac != 0
  {
    BiasedLead(f, frac, exp) + if RoundedSig(f, rm, sign, frac, exp) >= Pow2(f.fracBits + 1) then 1 else 0
  }

  function FiniteBits(f: Format, rm: RoundMode, sign: bool, frac: nat, exp: int): nat
    requires f.Valid() && frac != 0
  {
    var k := RoundedSig(f, rm, sign, frac, exp);
    var biased := BiasedRounded(f, rm, sign, frac, exp);
    if biased >= f.MaxExp() then OverflowResult(f, sign, rm)
    else Compose(f, sign, biased, (if k >= Pow2(f.fracBits + 1) then k / 2 else k) % Pow2(f.fracBits))
  }

  function FiniteFlags(f: Format, rm: RoundMode, tininess: Tininess, sign: bool, frac: nat, exp: int): set<Exc>
    requires f.Valid() && frac != 0
  {
    if BiasedRounded(f, rm, sign, frac, exp) >= f.MaxExp() then {Overflow, Inexact}
    else if Exact(f, frac, exp) then {}
    else if BelowNormal(f, frac, exp)
         && (tininess == BeforeRounding || RoundedSig(f, rm, sign, frac, exp) < Pow2(f.fracBits))
    then {Underflow, Inexact} else {Inexact}
  }

  function DefaultNan(f: Format): FloatParts
    requires f.Valid()
  {
    FloatParts(false, 0, Pow2(f.intBit - 1), QNaN)
  }

  /** x with bit n set. */
  function OrBit(x: nat, n: nat): nat { if x / Pow2(n) % 2 == 1 then x else x + Pow2(n) }

  /** x with bit n cleared. */
  function ClearBit(x: nat, n: nat): nat { if x / Pow2(n) % 2 == 1 && x >= Pow2(n) then x - Pow2(n) else x }

  function PackNan(f: Format, defaultNan: bool, parts: FloatParts): nat
    requires f.Valid()
  {
    if defaultNan then EncodeNan(f, DefaultNan(f))
    else if parts.cls == SNaN then EncodeNan(f, parts.(cls := QNaN, frac := OrBit(parts.frac, f.intBit - 1)))
    else EncodeNan(f, parts)
  }

  function EncodeNan(f: Format, parts: FloatParts): nat
    requires f.Valid()
  {
    var payload := parts.frac / Pow2(f.RoundPos()) % Pow2(f.fracBits);
    var payload := if parts.cls == QNaN then OrBit(payload, f.fracBits - 1) else ClearBit(payload, f.fracBits - 1);
    var payload := if payload == 0 then Pow2(f.fracBits - 1) else payload;
    Compose(f, parts.sign, f.MaxExp(), payload)
  }

  function PackBits(f: Format, rm: RoundMode, defaultNan: bool, parts: FloatParts): nat
    requires f.Valid()
  {
    match parts.cls
    case Zero => PackZero(f, parts.sign)
    case Inf => PackInf(f, parts.sign)
    case QNaN | SNaN => PackNan(f, defaultNan, parts)
    case Normal =>
      if parts.frac == 0 then PackZero(f, parts.sign) else FiniteBits(f, rm, parts.sign, parts.frac, parts.exp)
  }

  function PackFlags(f: Format, rm: RoundMode, tininess: Tininess, parts: FloatParts): set<Exc>
    requires f.Valid()
  {
    if parts.cls == Normal && parts.frac != 0
    then FiniteFlags(f, rm, tininess, parts.sign, parts.frac, parts.exp) else {}
  }
}
