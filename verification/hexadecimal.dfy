/** Lower-case hexadecimal text. */
module Hexadecimal {
  import opened Bytes

  const DIGITS := "0123456789abcdef"

  function Digit(n: int): char
    requires 0 <= n < 16
  {
    if n < 10 then '0' + n as char else 'a' + (n - 10) as char
  }

  lemma DigitIs(n: int)
    requires 0 <= n < 16
    ensures Digit(n) == DIGITS[n]
  {
    assert n in {0, 1, 2, 3, 4, 5, 6, 7, 8, 9, 10, 11, 12, 13, 14, 15};
  }

  lemma DigitInjective(m: int, n: int)
    requires 0 <= m < 16 && 0 <= n < 16 && Digit(m) == Digit(n)
    ensures m == n
  {
    assert Digit(m) as int == Digit(n) as int;
  }

  function Encode(b: seq<byte>): string {
    if b == [] then [] else [Digit(b[0] / 16), Digit(b[0] % 16)] + Encode(b[1..])
  }

  /** Two digits a byte, the high one first. */
  lemma {:induction false} EncodeAt(b: seq<byte>, i: nat)
    requires i < |b|
    ensures |Encode(b)| == 2 * |b| && Encode(b)[2 * i] == DIGITS[b[i] / 16] && Encode(b)[2 * i + 1] == DIGITS[b[i] % 16]
  {
    DigitIs(b[0] / 16);
    DigitIs(b[0] % 16);
    if |b| > 1 {
      EncodeAt(b[1..], if i > 0 then i - 1 else 0);
    }
  }

  lemma {:induction false} EncodeInjective(a: seq<byte>, b: seq<byte>)
    requires Encode(a) == Encode(b)
    ensures a == b
  {
    if a != [] && b != [] {
      assert Encode(a)[0] == Encode(b)[0] && Encode(a)[1] == Encode(b)[1];
      DigitInjective(a[0] / 16, b[0] / 16);
      DigitInjective(a[0] % 16, b[0] % 16);
      assert Encode(a)[2..] == Encode(a[1..]) && Encode(b)[2..] == Encode(b[1..]);
      EncodeInjective(a[1..], b[1..]);
      assert a == [a[0]] + a[1..] && b == [b[0]] + b[1..];
    }
  }
}
