/** UTF-8 (RFC 3629, section 3): the bytes that `update(text, "utf8")` hashes. */
module Utf8 {
  import opened Bytes

  function EncodeChar(c: char): (b: seq<byte>)
    ensures b != []
  {
    var n := c as int;
    if n < 0x80 then [n]
    else if n < 0x800 then [0xC0 + n / 0x40, 0x80 + n % 0x40]
    else if n < 0x10000 then [0xE0 + n / 0x1000, 0x80 + n / 0x40 % 0x40, 0x80 + n % 0x40]
    else [0xF0 + n / 0x40000, 0x80 + n / 0x1000 % 0x40, 0x80 + n / 0x40 % 0x40, 0x80 + n % 0x40]
  }

  /** A byte that continues a character. */
  predicate Follows(b: byte) {
    0x80 <= b < 0xC0
  }

  /** The shortest form: as many bytes as the character needs, each in the range of its position. */
  lemma ShortestForm(c: char)
    ensures var n, b := c as int, EncodeChar(c);
            && (|b| == 1 <==> n < 0x80) && (|b| == 2 <==> 0x80 <= n < 0x800)
            && (|b| == 3 <==> 0x800 <= n < 0x10000) && (|b| == 4 <==> 0x10000 <= n)
            && (|b| == 2 ==> 0xC2 <= b[0] < 0xE0) && (|b| == 3 ==> 0xE0 <= b[0] < 0xF0) &&
                 (|b| == 4 ==> 0xF0 <= b[0] <= 0xF4)
            && forall i :: 0 < i < |b| ==> Follows(b[i])
  {
  }

  function Encode(s: string): seq<byte> {
    if s == [] then [] else EncodeChar(s[0]) + Encode(s[1..])
  }

  function Value(b: seq<byte>): int
    requires 1 <= |b| <= 4
  {
    var first: int := b[0];
    if |b| == 1 then first
    else if |b| == 2 then (first - 0xC0) * 0x40 + Low(b[1])
    else if |b| == 3 then (first - 0xE0) * 0x1000 + Low(b[1]) * 0x40 + Low(b[2])
    else (first - 0xF0) * 0x40000 + Low(b[1]) * 0x1000 + Low(b[2]) * 0x40 + Low(b[3])
  }

  function Low(b: int): int { b - 0x80 }

  /** The first byte of an encoding tells its length. */
  function LengthFrom(first: byte): int {
    if first < 0x80 then 1 else if first < 0xE0 then 2 else if first < 0xF0 then 3 else 4
  }

  lemma CharRoundTrip(c: char)
    ensures 1 <= |EncodeChar(c)| <= 4 && Value(EncodeChar(c)) == c as int
    ensures LengthFrom(EncodeChar(c)[0]) == |EncodeChar(c)|
  {
    var n := c as int;
    assert n / 0x40 == n / 0x1000 * 0x40 + n / 0x40 % 0x40;
    assert n / 0x1000 == n / 0x40000 * 0x40 + n / 0x1000 % 0x40;
    assert n == n / 0x40 * 0x40 + n % 0x40;
  }

  lemma CharReadable(c: char, d: char, x: seq<byte>, y: seq<byte>)
    requires EncodeChar(c) + x == EncodeChar(d) + y
    ensures c == d && x == y
  {
    var u, v := EncodeChar(c), EncodeChar(d);
    CharRoundTrip(c);
    CharRoundTrip(d);
    assert (u + x)[0] == u[0] && (v + y)[0] == v[0];
    assert u == (u + x)[..|u|] && v == (v + y)[..|v|];
    assert x == (u + x)[|u|..] && y == (v + y)[|v|..];
    assert c as int == d as int;
  }

  lemma {:induction false} EncodeInjective(s: string, t: string)
    requires Encode(s) == Encode(t)
    ensures s == t
  {
    if s != [] && t != [] {
      CharReadable(s[0], t[0], Encode(s[1..]), Encode(t[1..]));
      EncodeInjective(s[1..], t[1..]);
      assert s == [s[0]] + s[1..] && t == [t[0]] + t[1..];
    }
  }

  /** Text below U+0080 takes one byte a character. */
  lemma {:induction false} AsciiLength(s: string)
    requires forall i :: 0 <= i < |s| ==> (s[i] as int) < 0x80
    ensures |Encode(s)| == |s|
  {
    if s != [] { AsciiLength(s[1..]); }
  }

  ghost predicate Distinguishes(utf8: string -> seq<byte>, s: string, t: string) {
    utf8(s) == utf8(t) ==> s == t
  }

  /** Different texts have different encodings. */
  ghost predicate Faithful(utf8: string -> seq<byte>) {
    forall s, t :: Distinguishes(utf8, s, t)
  }

  lemma EncodeIsFaithful()
    ensures Faithful(Encode)
  {
    forall s, t ensures Distinguishes(Encode, s, t) {
      if Encode(s) == Encode(t) { EncodeInjective(s, t); }
    }
  }
}
