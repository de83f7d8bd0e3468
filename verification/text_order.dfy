/** JavaScript's order on strings: by UTF-16 code unit, first difference decides, a prefix comes first. */
module TextOrder {

  /**
   The position of a character in that order. A character above U+FFFF starts with a surrogate,
   so it sorts after U+D7FF and before U+E000.
   */
  function Rank(c: char): (r: int)
    ensures c as int >= 0x10000 ==> 0xD800 <= r < 0xD800 + 0x100000
    ensures 0xE000 <= c as int < 0x10000 ==> 0xD800 + 0x100000 <= r
  {
    var n := c as int;
    if n < 0xE000 then n
    else if n < 0x10000 then n + 0x100000
    else n - 0x10000 + 0xD800
  }

  lemma RankInjective(c: char, d: char)
    requires Rank(c) == Rank(d)
    ensures c == d
  {
    assert c as int == d as int;
  }

  predicate TextBefore(a: string, b: string) {
    b != [] && (a == [] || Rank(a[0]) < Rank(b[0]) || (a[0] == b[0] && TextBefore(a[1..], b[1..])))
  }

  /** The order is total and strict. */
  lemma {:induction false} TextTotal(a: string, b: string)
    ensures a == b || (TextBefore(a, b) <==> !TextBefore(b, a))
    ensures !TextBefore(a, a)
  {
    if a != [] { TextTotal(a[1..], a[1..]); }
    if a != [] && b != [] {
      if a[0] == b[0] {
        TextTotal(a[1..], b[1..]);
        assert a == [a[0]] + a[1..] && b == [b[0]] + b[1..];
      } else if Rank(a[0]) == Rank(b[0]) {
        RankInjective(a[0], b[0]);
      }
    }
  }

  lemma {:induction false} TextTransitive(a: string, b: string, c: string)
    requires TextBefore(a, b) && TextBefore(b, c)
    ensures TextBefore(a, c)
  {
    if a != [] && a[0] == b[0] == c[0] {
      TextTransitive(a[1..], b[1..], c[1..]);
    }
  }

  // ----- and it is the order of the code units

  /** UTF-16 (RFC 2781, section 2.1). */
  function Units(c: char): (u: seq<int>)
    ensures u != []
  {
    var n := c as int;
    if n < 0x10000 then [n] else [0xD800 + (n - 0x10000) / 0x400, 0xDC00 + (n - 0x10000) % 0x400]
  }

  function Utf16(s: string): (u: seq<int>)
    ensures u == [] <==> s == []
  {
    if s == [] then [] else Units(s[0]) + Utf16(s[1..])
  }

  /** Up to some position they agree, and there `u` ends or has the smaller unit. */
  ghost predicate UnitsBefore(u: seq<int>, v: seq<int>) {
    exists k: nat :: k <= |u| && k < |v| && u[..k] == v[..k] && (k == |u| || u[k] < v[k])
  }

  /** The same, unit by unit. */
  predicate Precedes(u: seq<int>, v: seq<int>) {
    v != [] && (u == [] || u[0] < v[0] || (u[0] == v[0] && Precedes(u[1..], v[1..])))
  }

  lemma {:induction false} PrecedesExactly(u: seq<int>, v: seq<int>)
    ensures Precedes(u, v) <==> UnitsBefore(u, v)
  {
    if u == [] || v == [] || u[0] != v[0] {
      assert u[..0] == v[..0];
    } else {
      PrecedesExactly(u[1..], v[1..]);
      if UnitsBefore(u, v) {
        var k: nat :| k <= |u| && k < |v| && u[..k] == v[..k] && (k == |u| || u[k] < v[k]);
        assert k > 0 && u[1..][..k - 1] == u[..k][1..] == v[..k][1..] == v[1..][..k - 1];
      }
      if UnitsBefore(u[1..], v[1..]) {
        var k: nat :| k <= |u[1..]| && k < |v[1..]| && u[1..][..k] == v[1..][..k] &&
          (k == |u[1..]| || u[1..][k] < v[1..][k]);
        assert u[..k + 1] == [u[0]] + u[1..][..k] && v[..k + 1] == [v[0]] + v[1..][..k];
      }
    }
  }

  lemma FirstCharDecides(c: char, d: char, x: seq<int>, y: seq<int>)
    ensures c == d ==> (Precedes(Units(c) + x, Units(d) + y) <==> Precedes(x, y))
    ensures c != d ==> (Precedes(Units(c) + x, Units(d) + y) <==> Rank(c) < Rank(d))
  {
    var u, v := Units(c), Units(d);
    assert (u + x)[0] == u[0] && (v + y)[0] == v[0];
    if |u| == |v| == 1 {
      assert (u + x)[1..] == x && (v + y)[1..] == y;
    } else if |u| == |v| == 2 {
      assert (u + x)[1..] == [u[1]] + x && (v + y)[1..] == [v[1]] + y;
      assert ([u[1]] + x)[1..] == x && ([v[1]] + y)[1..] == y;
      assert c as int == 0x10000 + (u[0] - 0xD800) * 0x400 + (u[1] - 0xDC00);
      assert d as int == 0x10000 + (v[0] - 0xD800) * 0x400 + (v[1] - 0xDC00);
    }
  }

  /** One text comes before another exactly when its UTF-16 does. */
  lemma {:induction false} TextBeforeExactly(a: string, b: string)
    ensures TextBefore(a, b) <==> UnitsBefore(Utf16(a), Utf16(b))
  {
    PrecedesExactly(Utf16(a), Utf16(b));
    if a != [] && b != [] {
      FirstCharDecides(a[0], b[0], Utf16(a[1..]), Utf16(b[1..]));
      TextBeforeExactly(a[1..], b[1..]);
      PrecedesExactly(Utf16(a[1..]), Utf16(b[1..]));
      if a[0] != b[0] && Rank(a[0]) == Rank(b[0]) { RankInjective(a[0], b[0]); }
    }
  }
}
