/** Numbers as bytes, least significant first. */
module LittleEndian {
  import opened PowersOfTwo

  type Octet = x: int | 0 <= x < 256

  function Bytes(v: nat, n: nat): (r: seq<Octet>)
    ensures |r| == n
  {
    if n == 0 then [] else [v % 256] + Bytes(v / 256, n - 1)
  }

  function Number(s: seq<Octet>): nat {
    if s == [] then 0 else s[0] + 256 * Number(s[1..])
  }

  function Power(n: nat): nat { if n == 0 then 1 else 256 * Power(n - 1) }

  lemma ModStep(v: nat, m: nat)
    requires m > 0
    ensures v % (256 * m) == v % 256 + 256 * (v / 256 % m)
  {
    var q, r := v / 256, v % 256;
    var k, i := q / m, q % m;
    assert q == m * k + i;
    assert v == k * (256 * m) + (256 * i + r) by {
      assert v == 256 * q + r && 256 * q == 256 * (m * k) + 256 * i && 256 * (m * k) == k * (256 * m);
    }
    DivModOf(k, 256 * m, 256 * i + r);
  }

  /** Writing a number in n bytes and reading them back cuts it to n bytes. */
  lemma {:induction false} BytesRoundTrip(v: nat, n: nat)
    ensures Power(n) > 0 && Number(Bytes(v, n)) == v % Power(n)
  {
    if n > 0 {
      BytesRoundTrip(v / 256, n - 1);
      ModStep(v, Power(n - 1));
      assert Bytes(v, n)[1..] == Bytes(v / 256, n - 1);
    }
  }
}
