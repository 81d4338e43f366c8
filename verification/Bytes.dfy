/** Bytes and little-endian integers. */
module Bytes {

  type Byte = b: nat | b < 256

  type Data = seq<Byte>

  const TWO32: nat := 0x1_0000_0000
  const TWO64: nat := 0x1_0000_0000_0000_0000

  /** The `width` low-order bytes of `n`, least significant first. */
  function ToLe(n: nat, width: nat): (bs: Data)
    ensures |bs| == width
  {
    if width == 0 then [] else [n % 256] + ToLe(n / 256, width - 1)
  }

  function FromLe(bs: Data): nat {
    if bs == [] then 0 else bs[0] + 256 * FromLe(bs[1..])
  }

  function Pow256(k: nat): nat {
    if k == 0 then 1 else 256 * Pow256(k - 1)
  }

  /** Decoding what was encoded is reduction modulo the width. */
  lemma {:induction false} LeRoundTrip(n: nat, width: nat)
    ensures Pow256(width) > 0
    ensures FromLe(ToLe(n, width)) == n % Pow256(width)
  {
    if width > 0 {
      LeRoundTrip(n / 256, width - 1);
      assert ToLe(n, width)[1..] == ToLe(n / 256, width - 1);
      DigitModulo(n, Pow256(width - 1));
    }
  }

  lemma DigitModulo(n: nat, p: nat)
    requires p > 0
    ensures n % 256 + 256 * ((n / 256) % p) == n % (256 * p)
  {
    var q := n / 256;
    var r := n % 256 + 256 * (q % p);
    assert q == p * (q / p) + q % p;
    assert n == 256 * p * (q / p) + r;
    ModuloUnique(n, 256 * p, q / p, r);
  }

  lemma ModuloUnique(n: nat, m: nat, k: nat, r: nat)
    requires n == m * k + r && r < m
    ensures n % m == r
  {
    QuotientUnique(n, m, k);
  }

  lemma NextMultiple(b: nat, p: nat, q: nat)
    requires p < q
    ensures b * p + b <= b * q
  {
    assert b * (q - p - 1) >= 0;
  }

  lemma QuotientUnique(n: nat, b: nat, q: nat)
    requires b > 0 && b * q <= n < b * q + b
    ensures n / b == q
  {
    var p := n / b;
    assert b * p <= n < b * p + b;
    if p < q { NextMultiple(b, p, q); } else if q < p { NextMultiple(b, q, p); }
  }

  lemma LeFits(n: nat, width: nat)
    requires n < Pow256(width)
    ensures FromLe(ToLe(n, width)) == n
  {
    LeRoundTrip(n, width);
    ModuloUnique(n, Pow256(width), 0, n);
  }

  lemma {:induction false} LeBound(bs: Data)
    ensures FromLe(bs) < Pow256(|bs|)
  {
    if bs != [] { LeBound(bs[1..]); }
  }

  /** Every byte string is the encoding of the number it stands for. */
  lemma {:induction false} LeInverse(bs: Data)
    ensures ToLe(FromLe(bs), |bs|) == bs
  {
    if bs != [] {
      LeInverse(bs[1..]);
      assert FromLe(bs) % 256 == bs[0] && FromLe(bs) / 256 == FromLe(bs[1..]);
      assert bs == [bs[0]] + bs[1..];
    }
  }

  /** The byte at place `i` counts 256 to the `i`: the least significant comes first. */
  lemma {:induction false} LeDigits(n: nat, width: nat, i: nat)
    requires i < width
    ensures Pow256(i) > 0 && ToLe(n, width)[i] == n / Pow256(i) % 256
  {
    LeRoundTrip(n, i);
    if i > 0 {
      LeDigits(n / 256, width - 1, i - 1);
      DivTwice(n, 256, Pow256(i - 1));
    }
  }

  lemma Regroup(a: nat, b: nat, q: nat, r: nat)
    ensures a * (b * q + r) == (a * b) * q + a * r
  {
  }

  lemma DivTwice(n: nat, a: nat, b: nat)
    requires a > 0 && b > 0
    ensures a * b > 0 && n / a / b == n / (a * b)
  {
    var p := n / a;
    Nested(n, a, b, p, n % a, p / b, p % b);
  }

  lemma Nested(n: nat, a: nat, b: nat, p: nat, s: nat, q: nat, r: nat)
    requires a > 0 && b > 0 && n == a * p + s && s < a && p == b * q + r && r < b
    ensures a * b > 0 && n / (a * b) == q
  {
    NextMultiple(a, r, b);
    Regroup(a, b, q, r);
    Enclosed(n, a * b, q, a * r + s);
  }

  lemma Enclosed(n: nat, m: nat, q: nat, r: nat)
    requires r < m && n == m * q + r
    ensures n / m == q
  {
    QuotientUnique(n, m, q);
  }

  lemma PowValues()
    ensures Pow256(4) == TWO32 && Pow256(8) == TWO64
  {
    assert Pow256(1) == 256;
    assert Pow256(2) == 65536;
    assert Pow256(4) == 256 * (256 * Pow256(2));
    assert Pow256(6) == 256 * (256 * Pow256(4));
    assert Pow256(8) == 256 * (256 * Pow256(6));
  }
}
