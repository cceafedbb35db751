/** Text forms the server stores: decimal numbers, colon-separated fields, base64. */
module Text {
  import opened Bincode

  // ---- Decimals ----

  function Digit(d: nat): char
    requires d < 10
  {
    '0' + d as char
  }

  function PrintNat(n: nat): (s: string)
    ensures s != [] && forall c :: c in s ==> '0' <= c <= '9'
  {
    if n < 10 then [Digit(n)] else PrintNat(n / 10) + [Digit(n % 10)]
  }

  function ParseNat(s: string): Option<nat> {
    if s == [] then None
    else if !('0' <= s[|s| - 1] <= '9') then None
    else
      var d := s[|s| - 1] as int - '0' as int;
      if |s| == 1 then Some(d) else
      var front := ParseNat(s[..|s| - 1]);
      if front.None? then None else Some(10 * front.value + d)
  }

  lemma {:induction false} NatRoundTrip(n: nat)
    ensures ParseNat(PrintNat(n)) == Some(n)
  {
    if n >= 10 {
      var s := PrintNat(n);
      NatRoundTrip(n / 10);
      assert s[..|s| - 1] == PrintNat(n / 10);
    }
  }

  function Pow10(k: nat): (p: nat)
    ensures p >= 1
  {
    if k == 0 then 1 else 10 * Pow10(k - 1)
  }

  /** The k-th digit from the right. */
  ghost predicate DigitAt(n: nat, s: string, k: nat)
    requires k < |s|
  {
    s[|s| - 1 - k] as int == '0' as int + n / Pow10(k) % 10
  }

  /** A printed number shows its decimal digits, most significant first, without zeros in
      front. */
  lemma {:induction false} PrintsDecimal(n: nat)
    ensures var s := PrintNat(n);
      && (n > 0 ==> s[0] != '0') && (n < 10 ==> |s| == 1) && n < Pow10(|s|)
      && forall k: nat :: k < |s| ==> DigitAt(n, s, k)
  {
    if n >= 10 {
      var s, front := PrintNat(n), PrintNat(n / 10);
      PrintsDecimal(n / 10);
      assert s[0] == front[0] && |s| == |front| + 1;
      forall k: nat | k < |s| ensures DigitAt(n, s, k) {
        if k > 0 { DigitBehind(n, front, k - 1); }
      }
    }
  }

  lemma DigitBehind(n: nat, front: string, k: nat)
    requires k < |front| && DigitAt(n / 10, front, k)
    ensures DigitAt(n, front + [Digit(n % 10)], k + 1)
  {
    DivideTwice(n, 10, Pow10(k));
    var s := front + [Digit(n % 10)];
    assert s[|s| - 1 - (k + 1)] == front[|front| - 1 - k];
  }

  function PrintInt(v: int): string {
    if v < 0 then "-" + PrintNat(-v) else PrintNat(v)
  }

  function ParseInt(s: string): Option<int> {
    if s != [] && s[0] == '-' then
      var n := ParseNat(s[1..]);
      if n.None? then None else Some(0 - n.value as int)
    else
      var n := ParseNat(s);
      if n.None? then None else Some(n.value)
  }

  lemma IntRoundTrip(v: int)
    ensures ParseInt(PrintInt(v)) == Some(v)
    ensures forall c :: c in PrintInt(v) ==> c == '-' || '0' <= c <= '9'
  {
    var n := if v < 0 then -v else v;
    NatRoundTrip(n);
    if v < 0 {
      assert PrintInt(v)[1..] == PrintNat(n);
    } else {
      assert PrintNat(n)[0] in PrintNat(n);
    }
  }

  // ---- Fields ----

  /** str::split on a separator character: one more field than there are separators. */
  function Split(s: string, sep: char): (fields: seq<string>)
    ensures fields != []
  {
    if s == [] then [""]
    else
      var rest := Split(s[1..], sep);
      if s[0] == sep then [""] + rest else [[s[0]] + rest[0]] + rest[1..]
  }

  lemma {:induction false} SplitField(field: string, sep: char, rest: string)
    requires sep !in field
    ensures Split(field + [sep] + rest, sep) == [field] + Split(rest, sep)
    ensures Split(field, sep) == [field]
  {
    if field == [] {
      assert field + [sep] + rest == [sep] + rest;
    } else {
      assert (field + [sep] + rest)[1..] == field[1..] + [sep] + rest;
      SplitField(field[1..], sep, rest);
      assert field == [field[0]] + field[1..];
    }
  }

  // ---- Base64, RFC 4648 section 4 ----

  type Sextet = n: int | 0 <= n < 64

  function Symbol(n: Sextet): (c: char)
    ensures c != ':' && c != '='
  {
    if n < 26 then 'A' + n as char
    else if n < 52 then 'a' + (n - 26) as char
    else if n < 62 then '0' + (n - 52) as char
    else if n == 62 then '+' else '/'
  }

  function Value(c: char): Option<Sextet> {
    if 'A' <= c <= 'Z' then Some(c as int - 'A' as int)
    else if 'a' <= c <= 'z' then Some(c as int - 'a' as int + 26)
    else if '0' <= c <= '9' then Some(c as int - '0' as int + 52)
    else if c == '+' then Some(62)
    else if c == '/' then Some(63)
    else None
  }

  lemma SymbolRoundTrip(n: Sextet)
    ensures Value(Symbol(n)) == Some(n)
  {
  }

  /** The alphabet of section 4, in order. */
  const ALPHABET: string :=
    "ABCDEFGHIJKLMNOPQRSTUVWXYZ" + "abcdefghijklmnopqrstuvwxyz" + "0123456789" + "+/"

  lemma SymbolIsNth(n: Sextet)
    ensures |ALPHABET| == 64 && Symbol(n) == ALPHABET[n]
  {
    if n < 26 { UpperCase(n); } else if n < 52 { LowerCase(n - 26); } else if n < 62 { Figures(n - 52); }
  }

  lemma UpperCase(n: nat)
    requires n < 26
    ensures "ABCDEFGHIJKLMNOPQRSTUVWXYZ"[n] == 'A' + n as char
  {
  }

  lemma LowerCase(n: nat)
    requires n < 26
    ensures "abcdefghijklmnopqrstuvwxyz"[n] == 'a' + n as char
  {
  }

  lemma Figures(n: nat)
    requires n < 10
    ensures "0123456789"[n] == '0' + n as char
  {
  }

  // Three bytes are four sextets.

  function Sextet0(x: Byte): Sextet { x / 4 }
  function Sextet1(x: Byte, y: Byte): Sextet { x % 4 * 16 + y / 16 }
  function Sextet2(y: Byte, z: Byte): Sextet { y % 16 * 4 + z / 64 }
  function Sextet3(z: Byte): Sextet { z % 64 }

  function Byte0(a: Sextet, b: Sextet): Byte { a * 4 + b / 16 }
  function Byte1(b: Sextet, c: Sextet): Byte { b % 16 * 16 + c / 4 }
  function Byte2(c: Sextet, d: Sextet): Byte { c % 4 * 64 + d }

  lemma BytesFromSextets(x: Byte, y: Byte, z: Byte)
    ensures Byte0(Sextet0(x), Sextet1(x, y)) == x
    ensures Byte1(Sextet1(x, y), Sextet2(y, z)) == y
    ensures Byte2(Sextet2(y, z), Sextet3(z)) == z
    ensures Sextet1(x, 0) % 16 == 0 && Sextet2(y, 0) % 4 == 0
  {
  }

  lemma SextetsFromBytes(a: Sextet, b: Sextet, c: Sextet, d: Sextet)
    ensures Sextet0(Byte0(a, b)) == a
    ensures Sextet1(Byte0(a, b), Byte1(b, c)) == b
    ensures Sextet2(Byte1(b, c), Byte2(c, d)) == c
    ensures Sextet3(Byte2(c, d)) == d
    ensures b % 16 == 0 ==> Sextet1(Byte0(a, b), 0) == b
    ensures c % 4 == 0 ==> Sextet2(Byte1(b, c), 0) == c
  {
  }

  function Encode(b: seq<Byte>): string {
    if |b| == 0 then ""
    else if |b| == 1 then [Symbol(Sextet0(b[0])), Symbol(Sextet1(b[0], 0)), '=', '=']
    else if |b| == 2 then
      [Symbol(Sextet0(b[0])), Symbol(Sextet1(b[0], b[1])), Symbol(Sextet2(b[1], 0)), '=']
    else
      [Symbol(Sextet0(b[0])), Symbol(Sextet1(b[0], b[1])), Symbol(Sextet2(b[1], b[2])), Symbol(Sextet3(b[2]))]
      + Encode(b[3..])
  }

  /** Strict decoding: full groups of four, padding only at the end, no stray bits. */
  function Decode(s: string): Option<seq<Byte>> {
    if |s| == 0 then Some([])
    else if |s| < 4 then None
    else
      var a, b, c, d := Value(s[0]), Value(s[1]), Value(s[2]), Value(s[3]);
      if a.None? || b.None? then None
      else if |s| == 4 && s[2] == '=' && s[3] == '=' then
        if b.value % 16 != 0 then None else Some([Byte0(a.value, b.value)])
      else if |s| == 4 && s[3] == '=' then
        if c.None? || c.value % 4 != 0 then None
        else Some([Byte0(a.value, b.value), Byte1(b.value, c.value)])
      else if c.None? || d.None? then None
      else
        var rest := Decode(s[4..]);
        if rest.None? then None
        else Some([Byte0(a.value, b.value), Byte1(b.value, c.value), Byte2(c.value, d.value)] + rest.value)
  }

  function Group(a: Sextet, b: Sextet, c: Sextet, d: Sextet): string {
    [Symbol(a), Symbol(b), Symbol(c), Symbol(d)]
  }

  lemma DecodeGroup(a: Sextet, b: Sextet, c: Sextet, d: Sextet, rest: string)
    ensures Decode(Group(a, b, c, d) + rest)
         == if Decode(rest).None? then None else Some([Byte0(a, b), Byte1(b, c), Byte2(c, d)] + Decode(rest).value)
  {
    SymbolRoundTrip(a);
    SymbolRoundTrip(b);
    SymbolRoundTrip(c);
    SymbolRoundTrip(d);
    assert (Group(a, b, c, d) + rest)[4..] == rest;
  }

  lemma DecodePadded(a: Sextet, b: Sextet, c: Sextet)
    ensures Decode([Symbol(a), Symbol(b), '=', '=']) == if b % 16 != 0 then None else Some([Byte0(a, b)])
    ensures Decode([Symbol(a), Symbol(b), Symbol(c), '='])
         == if c % 4 != 0 then None else Some([Byte0(a, b), Byte1(b, c)])
  {
    SymbolRoundTrip(a);
    SymbolRoundTrip(b);
    SymbolRoundTrip(c);
  }

  lemma Base64OneByte(x: Byte)
    ensures Decode(Encode([x])) == Some([x])
  {
    var p, q := Sextet0(x), Sextet1(x, 0);
    assert Encode([x]) == [Symbol(p), Symbol(q), '=', '='];
    assert Byte0(p, q) == x && q % 16 == 0 by { BytesFromSextets(x, 0, 0); }
    DecodePadded(p, q, 0);
  }

  lemma Base64TwoBytes(x: Byte, y: Byte)
    ensures Decode(Encode([x, y])) == Some([x, y])
  {
    var p, q, r := Sextet0(x), Sextet1(x, y), Sextet2(y, 0);
    assert Encode([x, y]) == [Symbol(p), Symbol(q), Symbol(r), '='];
    assert Byte0(p, q) == x && Byte1(q, r) == y && r % 4 == 0 by { BytesFromSextets(x, y, 0); }
    DecodePadded(p, q, r);
  }

  lemma Base64ThreeBytes(x: Byte, y: Byte, z: Byte, rest: seq<Byte>)
    requires Decode(Encode(rest)) == Some(rest)
    ensures Decode(Encode([x, y, z] + rest)) == Some([x, y, z] + rest)
  {
    var a, b, c, d := Sextet0(x), Sextet1(x, y), Sextet2(y, z), Sextet3(z);
    assert Encode([x, y, z] + rest) == Group(a, b, c, d) + Encode(rest) by {
      assert ([x, y, z] + rest)[3..] == rest;
    }
    BytesFromSextets(x, y, z);
    DecodeGroup(a, b, c, d, Encode(rest));
  }

  lemma {:induction false} Base64RoundTrip(b: seq<Byte>)
    ensures Decode(Encode(b)) == Some(b)
  {
    if |b| >= 3 {
      Base64RoundTrip(b[3..]);
      Base64ThreeBytes(b[0], b[1], b[2], b[3..]);
      assert b == [b[0], b[1], b[2]] + b[3..];
    } else if |b| == 2 {
      Base64TwoBytes(b[0], b[1]);
      assert b == [b[0], b[1]];
    } else if |b| == 1 {
      Base64OneByte(b[0]);
      assert b == [b[0]];
    }
  }

  lemma {:induction false} Base64HasNoColon(b: seq<Byte>)
    ensures ':' !in Encode(b)
  {
    if |b| >= 3 { Base64HasNoColon(b[3..]); }
  }

  /** A symbol of the alphabet, read back. */
  lemma ValueInverse(c: char)
    requires Value(c).Some?
    ensures Symbol(Value(c).value) == c
  {
  }

  lemma EncodeGroup(a: Sextet, b: Sextet, c: Sextet, d: Sextet, rest: seq<Byte>)
    ensures Encode([Byte0(a, b), Byte1(b, c), Byte2(c, d)] + rest) == Group(a, b, c, d) + Encode(rest)
    ensures b % 16 == 0 ==> Encode([Byte0(a, b)]) == [Symbol(a), Symbol(b), '=', '=']
    ensures c % 4 == 0 ==> Encode([Byte0(a, b), Byte1(b, c)]) == [Symbol(a), Symbol(b), Symbol(c), '=']
  {
    SextetsFromBytes(a, b, c, d);
    assert ([Byte0(a, b), Byte1(b, c), Byte2(c, d)] + rest)[3..] == rest;
  }

  /** Strictness: the decoder accepts only what the encoder writes. */
  lemma {:induction false} Base64Canonical(s: string)
    ensures Decode(s).Some? ==> Encode(Decode(s).value) == s
  {
    if |s| >= 4 && Decode(s).Some? {
      var a, b := Value(s[0]).value, Value(s[1]).value;
      var c := if Value(s[2]).Some? then Value(s[2]).value else 0;
      var d := if Value(s[3]).Some? then Value(s[3]).value else 0;
      ValueInverse(s[0]);
      ValueInverse(s[1]);
      if Value(s[2]).Some? { ValueInverse(s[2]); }
      if Value(s[3]).Some? { ValueInverse(s[3]); }
      assert s == [s[0], s[1], s[2], s[3]] + s[4..];
      if |s| == 4 && s[3] == '=' {
        EncodeGroup(a, b, c, d, []);
      } else {
        Base64Canonical(s[4..]);
        EncodeGroup(a, b, c, d, Decode(s[4..]).value);
      }
    }
  }

  // ---- What the encoder writes, group by group ----

  /** The byte at i, or 0 behind the end. */
  function ByteAt(b: seq<Byte>, i: nat): Byte { if i < |b| then b[i] else 0 }

  /** Three bytes as a number, the first one most significant. */
  function GroupNumber(b: seq<Byte>, k: nat): nat {
    65536 * ByteAt(b, 3 * k) + 256 * ByteAt(b, 3 * k + 1) + ByteAt(b, 3 * k + 2)
  }

  /** The j-th of its four base-64 digits, most significant first. */
  function GroupDigit(n: nat, j: nat): Sextet {
    n / (if j == 0 then 262144 else if j == 1 then 4096 else if j == 2 then 64 else 1) % 64
  }

  /** The four sextets are the base-64 digits of the three bytes. */
  lemma SextetsAreDigits(x: Byte, y: Byte, z: Byte)
    ensures var n := 65536 * x + 256 * y + z;
      && GroupDigit(n, 0) == Sextet0(x) && GroupDigit(n, 1) == Sextet1(x, y)
      && GroupDigit(n, 2) == Sextet2(y, z) && GroupDigit(n, 3) == Sextet3(z)
  {
    FirstDigit(x, 256 * y + z);
    SecondDigit(x, y, z);
    ThirdDigit(x, y, z);
    LastDigit(x, y, z);
  }

  lemma LastDigit(x: Byte, y: Byte, z: Byte)
    ensures (65536 * x + 256 * y + z) / 1 % 64 == z % 64
  {
    assert 65536 * x + 256 * y + z == 64 * (1024 * x + 4 * y) + z;
  }

  lemma FirstDigit(x: Byte, low: nat)
    requires low < 65536
    ensures (65536 * x + low) / 262144 % 64 == x / 4
  {
  }

  lemma SecondDigit(x: Byte, y: Byte, z: Byte)
    ensures (65536 * x + 256 * y + z) / 4096 % 64 == Sextet1(x, y)
  {
    assert (256 * y + z) / 4096 == y / 16;
    assert (65536 * x + 256 * y + z) / 4096 == 16 * x + y / 16;
  }

  lemma ThirdDigit(x: Byte, y: Byte, z: Byte)
    ensures (65536 * x + 256 * y + z) / 64 % 64 == Sextet2(y, z)
  {
    assert (65536 * x + 256 * y + z) / 64 == 1024 * x + 4 * y + z / 64;
  }

  /** Symbol i of an encoding: a digit of group i / 4 written in the alphabet, or padding
      where the group has run out of bytes. */
  ghost predicate SymbolAt(b: seq<Byte>, i: nat, c: char) {
    c == if i % 4 > |b| - 3 * (i / 4) then '='
         else ALPHABET[GroupDigit(GroupNumber(b, i / 4), i % 4)]
  }

  lemma {:induction false} EncodedLength(b: seq<Byte>)
    ensures |Encode(b)| == (|b| + 2) / 3 * 4
  {
    if |b| > 3 {
      EncodedLength(b[3..]);
      OneGroupMore(|b| - 3);
    } else {
      assert |b| == 3 ==> b[3..] == [];
    }
  }

  lemma OneGroupMore(n: nat)
    ensures (n + 3 + 2) / 3 * 4 == (n + 2) / 3 * 4 + 4
  {
    assert (n + 3 + 2) / 3 == (n + 2) / 3 + 1;
  }

  /** The encoding of section 4, symbol by symbol. */
  lemma {:induction false} Base64Exactly(b: seq<Byte>)
    ensures |Encode(b)| == (|b| + 2) / 3 * 4
    ensures forall i: nat :: i < |Encode(b)| ==> SymbolAt(b, i, Encode(b)[i])
  {
    EncodedLength(b);
    if |b| > 0 { FirstGroup(b); }
    if |b| > 3 {
      Base64Exactly(b[3..]);
      forall i: nat | 4 <= i < |Encode(b)| ensures SymbolAt(b, i, Encode(b)[i]) {
        BehindFirst(b, i);
        LaterGroup(b, i - 4, Encode(b[3..])[i - 4]);
      }
    }
  }

  lemma BehindFirst(b: seq<Byte>, i: nat)
    requires |b| > 3 && 4 <= i < |Encode(b)|
    ensures i - 4 < |Encode(b[3..])| && Encode(b)[i] == Encode(b[3..])[i - 4]
  {
  }

  lemma LaterGroup(b: seq<Byte>, i: nat, c: char)
    requires |b| >= 3 && SymbolAt(b[3..], i, c)
    ensures SymbolAt(b, i + 4, c)
  {
    assert (i + 4) / 4 == i / 4 + 1 && (i + 4) % 4 == i % 4;
    assert GroupNumber(b, i / 4 + 1) == GroupNumber(b[3..], i / 4);
  }

  lemma FirstGroup(b: seq<Byte>)
    requires |b| > 0
    ensures |Encode(b)| >= 4 && forall i: nat :: i < 4 ==> SymbolAt(b, i, Encode(b)[i])
    ensures |b| <= 3 ==> |Encode(b)| == 4
  {
    SextetsAreDigits(b[0], ByteAt(b, 1), ByteAt(b, 2));
    forall i: nat | i < 4 ensures SymbolAt(b, i, Encode(b)[i]) {
      SymbolInFirst(b, i);
    }
  }

  lemma SymbolInFirst(b: seq<Byte>, i: nat)
    requires |b| > 0 && i < 4
    ensures SymbolAt(b, i, if i > |b| then '=' else Symbol(GroupDigit(GroupNumber(b, 0), i)))
  {
    assert i / 4 == 0 && i % 4 == i;
    SymbolIsNth(GroupDigit(GroupNumber(b, 0), i));
  }
}
