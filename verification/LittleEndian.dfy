/** Unsigned numbers as little-endian bytes. */
module LittleEndian {

  type Byte = b: int | 0 <= b < 256

  type Bytes = seq<Byte>

  function Pow256(k: nat): (p: nat)
    ensures p > 0
  {
    if k == 0 then 1 else 256 * Pow256(k - 1)
  }

  /** The low `k` bytes of a number. */
  function ToLe(n: nat, k: nat): (bytes: Bytes)
    ensures |bytes| == k
  {
    if k == 0 then [] else [n % 256] + ToLe(n / 256, k - 1)
  }

  function FromLe(bytes: Bytes): nat {
    if bytes == [] then 0 else bytes[0] + 256 * FromLe(bytes[1..])
  }

  lemma {:induction false} LeRoundTrip(n: nat, k: nat)
    requires n < Pow256(k)
    ensures FromLe(ToLe(n, k)) == n
  {
    if k > 0 {
      LeRoundTrip(n / 256, k - 1);
      assert ToLe(n, k)[1..] == ToLe(n / 256, k - 1);
    }
  }

  lemma Pow256Values()
    ensures Pow256(1) == 0x100 && Pow256(2) == 0x1_0000 && Pow256(4) == 0x1_0000_0000
    ensures Pow256(8) == 0x1_0000_0000_0000_0000
  {
    assert Pow256(1) == 256 * Pow256(0);
    assert Pow256(2) == 256 * Pow256(1);
    assert Pow256(3) == 256 * Pow256(2);
    assert Pow256(4) == 256 * Pow256(3);
    assert Pow256(5) == 256 * Pow256(4);
    assert Pow256(6) == 256 * Pow256(5);
    assert Pow256(7) == 256 * Pow256(6);
    assert Pow256(8) == 256 * Pow256(7);
  }

  /** Byte `i` has the weight 256 to the power of `i`: the least significant byte comes first. */
  lemma {:induction false} ByteOf(n: nat, k: nat, i: nat)
    requires i < k
    ensures ToLe(n, k)[i] == n / Pow256(i) % 256
  {
    if i > 0 {
      ByteOf(n / 256, k - 1, i - 1);
      DivideTwice(n, Pow256(i - 1));
    }
  }

  lemma DivideTwice(n: nat, p: nat)
    requires p > 0
    ensures n / 256 / p == n / (256 * p)
  {
    var q := n / 256 / p;
    var r := n / 256 % p;
    assert n / 256 == q * p + r;
    assert n == 256 * (q * p + r) + n % 256;
    var rest := 256 * r + n % 256;
    assert rest < 256 * p;
    assert n == q * (256 * p) + rest;
    QuotientIs(n, 256 * p, q, rest);
  }

  lemma QuotientIs(n: int, d: int, q: int, rest: int)
    requires 0 <= rest < d && n == q * d + rest
    ensures n / d == q
  {
    var x := q - n / d;
    assert n == n / d * d + n % d;
    assert x * d == n % d - rest;
    if x >= 1 {
      AtLeastOnce(x, d);
    }
    if x <= -1 {
      AtLeastOnce(-x, d);
    }
  }

  lemma AtLeastOnce(x: int, d: int)
    requires x >= 1 && d > 0
    ensures x * d >= d
  {
    assert (x - 1) * d >= 0;
  }
}
