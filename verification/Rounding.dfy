/** Rounding an integer to a multiple of a unit, and the law that makes sticky shifts safe. */
module Rounding {
  import opened PowersOfTwo

  datatype RoundMode = NearEven | ToZero | Down | Up | NearMaxMag | Odd

  /** x rounded to a whole number of units u (sign is the sign of the value x stands for). */
  function RoundUnits(rm: RoundMode, sign: bool, x: nat, u: nat): (k: nat)
    requires u >= 1
    ensures k == x / u || k == x / u + 1
    ensures x % u == 0 ==> k == x / u
  {
    RoundQR(rm, sign, x / u, x % u, u)
  }

  /** The decision itself, on quotient and remainder. */
  function RoundQR(rm: RoundMode, sign: bool, q: nat, r: nat, u: nat): (k: nat)
    requires u >= 1
    ensures k == q || k == q + 1
    ensures r == 0 ==> k == q
  {
    if r == 0 then q else
    var up := match rm
      case NearEven => 2 * r > u || (2 * r == u && q % 2 == 1)
      case NearMaxMag => 2 * r >= u
      case ToZero => false
      case Down => sign
      case Up => !sign
      case Odd => q % 2 == 0;
    if up then q + 1 else q
  }

  /** Two remainders that compare alike with zero and with the half unit round alike. */
  lemma SameDecision(rm: RoundMode, sign: bool, q: nat, r: nat, u: nat, r': nat, u': nat)
    requires u >= 1 && u' >= 1
    requires r == 0 <==> r' == 0
    requires 2 * r > u <==> 2 * r' > u'
    requires 2 * r == u <==> 2 * r' == u'
    ensures RoundQR(rm, sign, q, r, u) == RoundQR(rm, sign, q, r', u')
  {
  }

  lemma RoundOf(rm: RoundMode, sign: bool, q: nat, r: nat, u: nat)
    requires r < u
    ensures RoundUnits(rm, sign, q * u + r, u) == RoundQR(rm, sign, q, r, u)
    ensures (q * u + r) % u == r
  {
    DivModOf(q, u, r);
  }

  lemma MulOrder(a: int, b: int, c: int)
    requires c >= 1
    ensures a < b <==> a * c < b * c
    ensures a == b <==> a * c == b * c
  {
    var d := b - a;
    assert d * c == b * c - a * c;
    assert d >= 1 ==> d * c >= 1;
    assert d <= -1 ==> d * c <= -1;
  }

  /** Scaling value and unit by the same factor changes nothing. */
  lemma RoundScale(rm: RoundMode, sign: bool, x: nat, u: nat, c: nat)
    requires u >= 1 && c >= 1
    ensures u * c >= 1
    ensures RoundUnits(rm, sign, x * c, u * c) == RoundUnits(rm, sign, x, u)
    ensures (x * c) % (u * c) == 0 <==> x % u == 0
  {
    var q, r := Split(x, u);
    ScaleFacts(r, u, c);
    Distribute(q, u, r, c);
    ScaledDecision(rm, sign, q, r, u, x * c, r * c, u * c);
  }

  lemma ScaleFacts(r: nat, u: nat, c: nat)
    requires r < u && c >= 1
    ensures 0 <= r * c < u * c
    ensures r == 0 <==> r * c == 0
    ensures 2 * r > u <==> 2 * (r * c) > u * c
    ensures 2 * r == u <==> 2 * (r * c) == u * c
  {
    MulOrder(r, u, c);
    MulOrder(0, r, c);
    MulOrder(u, 2 * r, c);
    assert (2 * r) * c == 2 * (r * c);
  }

  lemma ScaledDecision(rm: RoundMode, sign: bool, q: nat, r: nat, u: nat, xc: nat, rc: nat, uc: nat)
    requires r < u && rc < uc && xc == q * uc + rc
    requires r == 0 <==> rc == 0
    requires 2 * r > u <==> 2 * rc > uc
    requires 2 * r == u <==> 2 * rc == uc
    ensures RoundUnits(rm, sign, xc, uc) == RoundQR(rm, sign, q, r, u)
    ensures xc % uc == 0 <==> r == 0
  {
    RoundOf(rm, sign, q, rc, uc);
    SameDecision(rm, sign, q, r, u, rc, uc);
  }

  lemma Distribute(q: nat, u: nat, r: nat, c: nat)
    ensures (q * u + r) * c == q * (u * c) + r * c
    ensures (2 * r) * c == 2 * (r * c)
  {
    assert (q * u + r) * c == (q * u) * c + r * c;
    assert (q * u) * c == q * (u * c);
  }

  /** Shift right, or-ing the lost bits into bit 0. */
  function ShiftSticky(x: nat, s: nat): nat {
    var y := x / Pow2(s);
    if x % Pow2(s) != 0 && y % 2 == 0 then y + 1 else y
  }

  lemma ProductFacts(a: nat, u: nat, c: nat)
    requires c >= 1 && a < u
    ensures a * c + c <= u * c
    ensures 2 * a > u ==> 2 * (a * c) > u * c
    ensures 2 * a == u ==> 2 * (a * c) == u * c
    ensures 2 * a + 2 <= u ==> 2 * (a * c) + 2 * c <= u * c
    ensures a == 0 <==> a * c == 0
  {
    MulOrder(0, a, c);
    MulOrder(u, a + 1, c);
    MulOrder(u, 2 * a + 2, c);
    MulOrder(2 * a, u, c);
    MulOrder(u, 2 * a, c);
    assert (a + 1) * c == a * c + c;
    assert (2 * a + 2) * c == 2 * (a * c) + 2 * c;
    assert (2 * a) * c == 2 * (a * c);
  }

  /** The remainder after a sticky shift by c compares with the unit as before the shift
      (ac and uc are the products with c). */
  lemma StickyRemainder(a: nat, b: nat, u: nat, c: nat, ac: nat, uc: nat, y: nat)
    requires c >= 1 && b < c && u % 4 == 0 && a < u
    requires ac + c <= uc && (a == 0 <==> ac == 0)
    requires 2 * a > u ==> 2 * ac > uc
    requires 2 * a == u ==> 2 * ac == uc
    requires 2 * a + 2 <= u ==> 2 * ac + 2 * c <= uc
    requires y == if b != 0 && a % 2 == 0 then a + 1 else a
    ensures y < u && ac + b < uc
    ensures ac + b == 0 <==> y == 0
    ensures 2 * (ac + b) > uc <==> 2 * y > u
    ensures 2 * (ac + b) == uc <==> 2 * y == u
  {
    var h := u / 4;
    assert u == 4 * h;
  }

  /** A sticky right shift never changes the rounding decision, provided the unit left
      after the shift still has two bits below it. */
  lemma StickyRound(rm: RoundMode, sign: bool, x: nat, s: nat, u: nat)
    requires u >= 1 && u % 4 == 0
    ensures u * Pow2(s) >= 1
    ensures RoundUnits(rm, sign, ShiftSticky(x, s), u) == RoundUnits(rm, sign, x, u * Pow2(s))
    ensures ShiftSticky(x, s) % u == 0 <==> x % (u * Pow2(s)) == 0
  {
    var c := Pow2(s);
    MulOrder(0, u, c);
    var n, b := Split(x, c);
    var q, a := Split(n, u);
    StickyRoundParts(rm, sign, q, a, b, c, u, n, x, ShiftSticky(x, s));
  }

  lemma Split(x: nat, u: nat) returns (q: nat, r: nat)
    requires u >= 1
    ensures q == x / u && r == x % u && x == q * u + r && r < u
  {
    q, r := x / u, x % u;
  }

  lemma StickyRoundParts(rm: RoundMode, sign: bool, q: nat, a: nat, b: nat, c: nat, u: nat, n: nat, x: nat, z: nat)
    requires u >= 1 && u % 4 == 0 && b < c && a < u && u * c >= 1
    requires n == q * u + a && x == n * c + b
    requires z == if b != 0 && n % 2 == 0 then n + 1 else n
    ensures RoundUnits(rm, sign, z, u) == RoundUnits(rm, sign, x, u * c)
    ensures z % u == 0 <==> x % (u * c) == 0
  {
    hide RoundUnits;
    ProductFacts(a, u, c);
    Distribute(q, u, a, c);
    StickyRoundWith(rm, sign, q, a, b, c, u, n, x, z, a * c, u * c);
  }

  /** The same, with the products ac and uc by c named. */
  lemma StickyRoundWith(rm: RoundMode, sign: bool, q: nat, a: nat, b: nat, c: nat, u: nat, n: nat, x: nat, z: nat, ac: nat, uc: nat)
    requires u % 4 == 0 && b < c && a < u && uc >= 1 && n == q * u + a && x == q * uc + ac + b
    requires z == if b != 0 && n % 2 == 0 then n + 1 else n
    requires ac + c <= uc && (a == 0 <==> ac == 0)
    requires 2 * a > u ==> 2 * ac > uc
    requires 2 * a == u ==> 2 * ac == uc
    requires 2 * a + 2 <= u ==> 2 * ac + 2 * c <= uc
    ensures RoundUnits(rm, sign, z, u) == RoundUnits(rm, sign, x, uc)
    ensures z % u == 0 <==> x % uc == 0
  {
    hide RoundUnits;
    var y := if b != 0 && a % 2 == 0 then a + 1 else a;
    StickyRemainder(a, b, u, c, ac, uc, y);
    EvenMultiple(q, u, a);
    StickyDecide(rm, sign, q, y, u, z, x, ac + b, uc);
  }

  lemma StickyDecide(rm: RoundMode, sign: bool, q: nat, y: nat, u: nat, z: nat, x: nat, r: nat, uc: nat)
    requires y < u && r < uc && z == q * u + y && x == q * uc + r
    requires r == 0 <==> y == 0
    requires 2 * r > uc <==> 2 * y > u
    requires 2 * r == uc <==> 2 * y == u
    ensures RoundUnits(rm, sign, z, u) == RoundUnits(rm, sign, x, uc)
    ensures z % u == 0 <==> x % uc == 0
  {
    RoundOf(rm, sign, q, y, u);
    ScaledDecision(rm, sign, q, y, u, x, r, uc);
  }

  lemma EvenMultiple(q: nat, u: nat, a: nat)
    requires u % 2 == 0
    ensures (q * u + a) % 2 == a % 2
  {
    var h := u / 2;
    assert q * u == 2 * (q * h);
  }
}
