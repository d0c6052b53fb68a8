/** Powers of two as integers and as reals, with the few laws the float model needs.
    A shift left is a product by Pow2, a shift right a quotient, a low mask a remainder. */
module PowersOfTwo {

  function Pow2(n: nat): (r: nat)
    ensures r >= 1
  {
    if n == 0 then 1 else 2 * Pow2(n - 1)
  }

  lemma {:induction false} Pow2Add(a: nat, b: nat)
    ensures Pow2(a + b) == Pow2(a) * Pow2(b)
  {
    if a != 0 {
      Pow2Add(a - 1, b);
      assert Pow2(a + b) == 2 * Pow2(a - 1 + b);
      assert 2 * (Pow2(a - 1) * Pow2(b)) == (2 * Pow2(a - 1)) * Pow2(b);
    }
  }

  lemma {:induction false} Pow2Mono(a: nat, b: nat)
    requires a <= b
    ensures Pow2(a) <= Pow2(b)
    ensures a < b ==> 2 * Pow2(a) <= Pow2(b)
  {
    if a < b { Pow2Mono(a, b - 1); }
  }

  /** Number of bits of x: 128 minus the leading zeros of a u128. */
  function BitLen(x: nat): (l: nat)
    ensures x == 0 ==> l == 0
    ensures x > 0 ==> l >= 1 && Pow2(l - 1) <= x < Pow2(l)
  {
    if x == 0 then 0 else if x == 1 then assert Pow2(1) == 2; 1 else BitLen(x / 2) + 1
  }

  lemma BitLenIs(x: nat, l: nat)
    requires l >= 1 && Pow2(l - 1) <= x < Pow2(l)
    ensures BitLen(x) == l
  {
    var m := BitLen(x);
    if m < l { Pow2Mono(m, l - 1); } else if m > l { Pow2Mono(l, m - 1); }
  }

  lemma DivModOf(q: nat, u: nat, r: nat)
    requires r < u
    ensures (q * u + r) / u == q && (q * u + r) % u == r
  {
    var x := q * u + r;
    assert x == (x / u) * u + x % u;
    var d := x / u - q;
    assert d * u == r - x % u;
    assert d >= 1 ==> d * u >= u;
    assert d <= -1 ==> d * u <= 0 - u;
  }

  ghost function RPow2(e: int): (r: real)
    ensures r > 0.0
    decreases if e >= 0 then e else -e
  {
    if e == 0 then 1.0 else if e > 0 then 2.0 * RPow2(e - 1) else RPow2(e + 1) / 2.0
  }

  /** n copies of the real t. */
  ghost function Times(n: int, t: real): real { n as real * t }

  lemma TimesAdd(a: int, b: int, t: real)
    ensures Times(a + b, t) == Times(a, t) + Times(b, t)
  {
  }

  lemma TimesMul(a: int, b: int, t: real)
    ensures Times(a * b, t) == Times(a, Times(b, t))
  {
    assert (a * b) as real == a as real * b as real;
  }

  /** Scaling by a positive real keeps and reflects the order of integers. */
  lemma TimesOrder(a: int, b: int, t: real)
    requires t > 0.0
    ensures a <= b <==> Times(a, t) <= Times(b, t)
    ensures a < b <==> Times(a, t) < Times(b, t)
  {
    var d := (b - a) as real;
    assert d * t == Times(b, t) - Times(a, t);
    assert a < b ==> d >= 1.0 && d * t > 0.0;
    assert b < a ==> -d >= 1.0 && (-d) * t > 0.0;
  }

  lemma {:induction false} RPow2Add(e: int, n: nat)
    ensures RPow2(e + n) == Times(Pow2(n), RPow2(e))
  {
    if n != 0 {
      RPow2Add(e, n - 1);
      assert RPow2(e + n) == 2.0 * RPow2(e + n - 1);
      TimesAdd(Pow2(n - 1), Pow2(n - 1), RPow2(e));
    }
  }

  lemma SmallMod(x: nat, u: nat)
    requires x < u
    ensures x % u == x
  {
  }
}
