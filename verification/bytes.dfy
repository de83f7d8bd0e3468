/**
 Byte strings: fixed-width big-endian integers, byte order, and the hash function that
 every other module takes as a parameter.

 Nothing is assumed of the hash beyond its 32-byte output. A theorem that needs collision
 resistance asks for `CollisionFree` over the finite set of messages that the code in
 question really hashes, so it speaks about SHA-256 itself and not about an idealised function.
 */
module Bytes {

  type byte = x: int | 0 <= x < 256

  type Digest = b: seq<byte> | |b| == HASH_BYTES witness seq(HASH_BYTES, _ => 0)

  type Hash = seq<byte> -> Digest

  const HASH_BYTES := 32
  const SIGNATURE_BYTES := 64
  const TWO_TO_THE_64 := 0x1_0000_0000_0000_0000

  /** The hash function tells the messages in `messages` apart. */
  ghost predicate CollisionFree<D, M>(hash: M -> D, messages: set<M>) {
    forall x, y {:trigger x in messages, y in messages} ::
      x in messages && y in messages && hash(x) == hash(y) ==> x == y
  }

  function Power256(k: nat): (p: nat)
    ensures p >= 1
  {
    if k == 0 then 1 else 256 * Power256(k - 1)
  }

  /** `n` written in `k` bytes, most significant first; higher bytes are cut off. */
  function BigEndian(n: nat, k: nat): (b: seq<byte>)
    ensures |b| == k
  {
    if k == 0 then [] else BigEndian(n / 256, k - 1) + [n % 256]
  }

  function FromBigEndian(b: seq<byte>): nat {
    if |b| == 0 then 0 else FromBigEndian(b[..|b| - 1]) * 256 + b[|b| - 1]
  }

  lemma {:induction false} BigEndianRoundTrip(n: nat, k: nat)
    requires n < Power256(k)
    ensures FromBigEndian(BigEndian(n, k)) == n
  {
    if k > 0 {
      var b := BigEndian(n, k);
      assert b[..k - 1] == BigEndian(n / 256, k - 1);
      BigEndianRoundTrip(n / 256, k - 1);
    }
  }

  predicate IsU64(n: int) {
    0 <= n < TWO_TO_THE_64
  }

  function U64(n: nat): (b: seq<byte>)
    requires n < TWO_TO_THE_64
    ensures |b| == 8
  {
    BigEndian(n, 8)
  }

  lemma U64RoundTrip(n: nat)
    requires n < TWO_TO_THE_64
    ensures FromBigEndian(U64(n)) == n
  {
    assert Power256(8) == TWO_TO_THE_64 by {
      assert Power256(4) == 0x1_0000_0000;
    }
    BigEndianRoundTrip(n, 8);
  }

  /** The order of Buffer.compare: byte by byte, a proper prefix first. */
  predicate LexLeq(a: seq<byte>, b: seq<byte>) {
    if a == [] then true
    else if b == [] then false
    else if a[0] != b[0] then a[0] < b[0]
    else LexLeq(a[1..], b[1..])
  }

  lemma {:induction false} LexLeqTotal(a: seq<byte>, b: seq<byte>)
    ensures LexLeq(a, b) || LexLeq(b, a)
    ensures LexLeq(a, b) && LexLeq(b, a) ==> a == b
  {
    if a != [] && b != [] && a[0] == b[0] {
      LexLeqTotal(a[1..], b[1..]);
      assert a == [a[0]] + a[1..] && b == [b[0]] + b[1..];
    }
  }

  lemma {:induction false} FromBigEndianBelow(b: seq<byte>)
    ensures FromBigEndian(b) < Power256(|b|)
  {
    if b != [] { FromBigEndianBelow(b[..|b| - 1]); }
  }

  lemma {:induction false} FromBigEndianHead(b: seq<byte>)
    requires b != []
    ensures FromBigEndian(b) == b[0] * Power256(|b| - 1) + FromBigEndian(b[1..])
  {
    if |b| > 1 {
      var front, rest := b[..|b| - 1], b[1..];
      FromBigEndianHead(front);
      assert front[1..] == rest[..|rest| - 1];
      assert b[0] * Power256(|b| - 1) == b[0] * Power256(|b| - 2) * 256;
    }
  }

  lemma LeadingDigitDecides(x: int, y: int, power: nat, p: nat, q: nat)
    requires p < power && q < power && x != y
    ensures x * power + p <= y * power + q <==> x < y
  {
    MultipleAtLeast(y - x, power);
    assert (y - x) * power == y * power - x * power;
  }

  /** Of equally long byte strings, the first in order is the smaller big-endian number. */
  lemma {:induction false} LexLeqIsNumeric(a: seq<byte>, b: seq<byte>)
    requires |a| == |b|
    ensures LexLeq(a, b) <==> FromBigEndian(a) <= FromBigEndian(b)
  {
    if a != [] {
      var power := Power256(|a| - 1);
      FromBigEndianHead(a);
      FromBigEndianHead(b);
      FromBigEndianBelow(a[1..]);
      FromBigEndianBelow(b[1..]);
      LexLeqIsNumeric(a[1..], b[1..]);
      if a[0] != b[0] { LeadingDigitDecides(a[0], b[0], power, FromBigEndian(a[1..]), FromBigEndian(b[1..])); }
    }
  }

  /** Number(bigint) for a u64: the nearest double, ties to the even significand. */
  function ToDouble(n: nat): (d: nat)
    ensures n <= TWO_TO_THE_53 ==> d == n
  {
    if n <= TWO_TO_THE_53 then n else
      var unit := Ulp(n);
      var low, rest := n / unit, n % unit;
      var up := 2 * rest > unit || (2 * rest == unit && low % 2 == 1);
      (if up then low + 1 else low) * unit
  }

  /** Number(n): what an integer becomes when it is read, or computed, as a JavaScript number. */
  function AsNumber(n: int): (d: int)
    ensures -TWO_TO_THE_53 <= n <= TWO_TO_THE_53 ==> d == n
  {
    if n < 0 then 0 - ToDouble(-n) else ToDouble(n)
  }

  /** An integer that a JavaScript number can hold. */
  type Number = n: int | AsNumber(n) == n

  const TWO_TO_THE_53 := 0x20_0000_0000_0000

  /** Spacing of doubles around `n`: the least power of two that leaves a 53-bit quotient. */
  function Ulp(n: nat): (u: nat)
    ensures u >= 1
  {
    if n < TWO_TO_THE_53 then 1 else 2 * Ulp(n / 2)
  }

  lemma HalvedQuotient(n: nat, u: nat)
    requires u >= 1
    ensures n / (2 * u) == n / 2 / u
  {
    var q, r := n / 2 / u, n / 2 % u;
    assert n / 2 == q * u + r;
    assert n == q * (2 * u) + (2 * r + n % 2);
    QuotientIs(n, 2 * u, q, 2 * r + n % 2);
  }

  lemma MultipleAtLeast(k: int, d: int)
    requires d >= 0
    ensures k >= 1 ==> k * d >= d
    ensures k <= -1 ==> k * d <= -d
  {
    assert k * d == (k - 1) * d + d && k * d == (k + 1) * d - d;
  }

  lemma QuotientIs(n: nat, d: nat, q: nat, r: nat)
    requires n == q * d + r && r < d
    ensures n / d == q && n % d == r
  {
    var p, s := n / d, n % d;
    assert n == p * d + s && s < d;
    assert (p - q) * d == p * d - q * d;
    MultipleAtLeast(p - q, d);
  }

  lemma {:induction false} UlpFits(n: nat)
    requires n >= TWO_TO_THE_53
    ensures TWO_TO_THE_53 / 2 <= n / Ulp(n) < TWO_TO_THE_53
  {
    HalvedQuotient(n, Ulp(n / 2));
    if n / 2 >= TWO_TO_THE_53 { UlpFits(n / 2); }
  }

  lemma {:induction false} UlpOfMultiple(m: nat, n: nat)
    requires TWO_TO_THE_53 / 2 <= m < TWO_TO_THE_53 <= n
    ensures Ulp(m * Ulp(n)) == Ulp(n)
  {
    var half := Ulp(n / 2);
    assert m * Ulp(n) == 2 * (m * half);
    assert m * half >= m;
    if n / 2 >= TWO_TO_THE_53 {
      UlpOfMultiple(m, n / 2);
    } else {
      assert half == 1 && m * half == m;
    }
    assert 2 * (m * half) / 2 == m * half;
  }

  lemma MultipleIsExact(m: nat, n: nat)
    requires TWO_TO_THE_53 / 2 <= m < TWO_TO_THE_53 <= n
    ensures ToDouble(m * Ulp(n)) == m * Ulp(n)
  {
    UlpOfMultiple(m, n);
    QuotientIs(m * Ulp(n), Ulp(n), m, 0);
  }

  /** Beyond 2^53 a number becomes the nearest multiple of the spacing there, and of two the even one. */
  lemma RoundsToNearest(n: nat) returns (q: nat)
    requires n > TWO_TO_THE_53
    ensures ToDouble(n) == q * Ulp(n) && TWO_TO_THE_53 / 2 <= q <= TWO_TO_THE_53
    ensures 2 * n <= 2 * ToDouble(n) + Ulp(n) && 2 * ToDouble(n) <= 2 * n + Ulp(n)
    ensures 2 * n == 2 * ToDouble(n) + Ulp(n) || 2 * ToDouble(n) == 2 * n + Ulp(n) ==> q % 2 == 0
  {
    var unit, low, rest := Ulp(n), n / Ulp(n), n % Ulp(n);
    UlpFits(n);
    assert n == low * unit + rest;
    q := if 2 * rest > unit || (2 * rest == unit && low % 2 == 1) then low + 1 else low;
    assert (low + 1) * unit == low * unit + unit;
  }

  /** Rounding twice is rounding once. */
  lemma ToDoubleTwice(n: nat)
    ensures ToDouble(ToDouble(n)) == ToDouble(n)
  {
    if n > TWO_TO_THE_53 {
      UlpFits(n);
      var unit, low := Ulp(n), n / Ulp(n);
      if ToDouble(n) == low * unit {
        MultipleIsExact(low, n);
      } else if low + 1 < TWO_TO_THE_53 {
        MultipleIsExact(low + 1, n);
      } else {
        assert Ulp(2 * n) == 2 * unit;
        assert (low + 1) * unit == TWO_TO_THE_53 / 2 * (2 * unit);
        MultipleIsExact(TWO_TO_THE_53 / 2, 2 * n);
      }
    }
  }

  /** Beyond 2^53 no two numbers follow each other. */
  lemma NumberIsEven(n: nat)
    requires n > TWO_TO_THE_53 && ToDouble(n) == n
    ensures n % 2 == 0
  {
    EvenMultiple(n / Ulp(n), Ulp(n / 2));
    EvenMultiple(n / Ulp(n) + 1, Ulp(n / 2));
  }

  lemma EvenMultiple(m: nat, half: nat)
    ensures m * (2 * half) % 2 == 0
  {
    assert m * (2 * half) == 2 * (m * half);
  }

  lemma NeighboursAreSmall(n: int)
    requires AsNumber(n) == n && AsNumber(n - 1) == n - 1
    ensures n <= TWO_TO_THE_53
  {
    if n > TWO_TO_THE_53 {
      NumberIsEven(n);
      if n - 1 > TWO_TO_THE_53 { NumberIsEven(n - 1); }
    }
  }

  lemma AsNumberTwice(n: int)
    ensures AsNumber(AsNumber(n)) == AsNumber(n)
  {
    if n < 0 {
      ToDoubleTwice(-n);
    } else {
      ToDoubleTwice(n);
    }
  }
}
