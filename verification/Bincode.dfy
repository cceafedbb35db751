/** Bytes and the little-endian integers of bincode's default (fixed-width) encoding. */
module Bincode {

  type Byte = b: int | 0 <= b < 256

  datatype Option<+T> = None | Some(value: T)

  function Pow256(width: nat): (p: nat)
    ensures p >= 1
  {
    if width == 0 then 1 else 256 * Pow256(width - 1)
  }

  function LittleEndian(n: nat, width: nat): (s: seq<Byte>)
    ensures |s| == width
  {
    if width == 0 then [] else [n % 256] + LittleEndian(n / 256, width - 1)
  }

  function FromLittleEndian(s: seq<Byte>): nat {
    if s == [] then 0 else s[0] + 256 * FromLittleEndian(s[1..])
  }

  lemma {:induction false} LittleEndianRoundTrip(n: nat, width: nat)
    requires n < Pow256(width)
    ensures FromLittleEndian(LittleEndian(n, width)) == n
  {
    if width > 0 {
      LittleEndianRoundTrip(n / 256, width - 1);
      var s := LittleEndian(n, width);
      assert s[1..] == LittleEndian(n / 256, width - 1);
    }
  }

  // ---- Digits ----

  lemma DivideTwice(n: nat, b: nat, p: nat)
    requires b >= 1 && p >= 1
    ensures b * p >= 1 && n / b / p == n / (b * p)
  {
    var q, r := n / b / p, n / b % p;
    TimesRises(b, r, p);
    TimesRises(b, 0, p);
    assert n == b * (p * q + r) + n % b;
    assert b * (p * q + r) == b * (p * q) + b * r && b * (p * q) == b * p * q;
    QuotientIs(n, b * p, q, b * r + n % b);
  }

  lemma QuotientIs(n: nat, d: nat, q: nat, r: nat)
    requires n == d * q + r && r < d
    ensures n / d == q
  {
    TimesRises(d, n / d, q);
    TimesRises(d, q, n / d);
  }

  lemma {:induction false} TimesRises(d: nat, a: nat, b: nat)
    ensures a < b ==> d * a + d <= d * b
  {
    if d > 0 { TimesRises(d - 1, a, b); }
  }

  /** Byte i is the i-th base-256 digit, the least significant one first. */
  lemma {:induction false} LittleEndianDigits(n: nat, width: nat)
    ensures forall i: nat :: i < width ==> LittleEndian(n, width)[i] == n / Pow256(i) % 256
  {
    if width > 0 {
      LittleEndianDigits(n / 256, width - 1);
      forall i: nat | i < width ensures LittleEndian(n, width)[i] == n / Pow256(i) % 256 {
        if i > 0 {
          assert LittleEndian(n, width)[i] == LittleEndian(n / 256, width - 1)[i - 1];
          DivideTwice(n, 256, Pow256(i - 1));
        }
      }
    }
  }

  const U64_LIMIT: nat := Pow256(8)

  const I32_LIMIT: int := 0x8000_0000

  /** Two's complement of a 32-bit signed integer. */
  function EncodeI32(v: int): (s: seq<Byte>)
    ensures |s| == 4
  {
    LittleEndian(v % 0x1_0000_0000, 4)
  }

  function DecodeI32(s: seq<Byte>): int {
    var u := FromLittleEndian(s);
    if u < I32_LIMIT then u else u - 0x1_0000_0000
  }

  lemma I32RoundTrip(v: int)
    requires -I32_LIMIT <= v < I32_LIMIT
    ensures DecodeI32(EncodeI32(v)) == v
  {
    assert Pow256(4) == 0x1_0000_0000 by {
      assert Pow256(1) == 256;
      assert Pow256(2) == 256 * Pow256(1);
      assert Pow256(3) == 256 * Pow256(2);
    }
    LittleEndianRoundTrip(v % 0x1_0000_0000, 4);
  }

  /** A foreign serializer, taken with the one law its callers rely on. */
  datatype Codec<!T(!new)> = Codec(enc: T -> seq<Byte>, dec: seq<Byte> -> Option<T>)
  {
    ghost predicate RoundTrips() {
      forall x: T :: enc(x) != [] && dec(enc(x)) == Some(x)
    }
  }
}
