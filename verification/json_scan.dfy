/**
 Where the strings of a printed JSON value begin and end. Outside its strings a printed value has
 no bar, and whether a place is inside a string can be told from either end of the text, so no
 printed value ends another one after a bar.
 */
module JsonScan {
  import Hexadecimal
  import opened JsonText

  datatype Mode = Outside | Inside | Escaped

  datatype Scanned = Stuck | At(mode: Mode)

  function Step(m: Mode, c: char): Scanned {
    match m
    case Outside => if c == '\"' then At(Inside) else if c == '\\' || c == '|' then Stuck else At(Outside)
    case Inside => if c == '\"' then At(Outside) else if c == '\\' then At(Escaped) else At(Inside)
    case Escaped => At(Inside)
  }

  function Scan(m: Mode, text: string): Scanned
    decreases |text|
  {
    if text == [] then At(m) else
      var next := Step(m, text[0]);
      if next.Stuck? then Stuck else Scan(next.mode, text[1..])
  }

  // ----- a printed value leaves the scanner where it was

  predicate IsPlain(c: char) {
    c != '\"' && c != '\\' && c != '|'
  }

  lemma ScanOne(m: Mode, c: char, s: string)
    ensures Scan(m, [c] + s) == if Step(m, c).Stuck? then Stuck else Scan(Step(m, c).mode, s)
  {
    assert ([c] + s)[0] == c && ([c] + s)[1..] == s;
  }

  lemma {:induction false} ScanPlain(x: string, s: string)
    requires forall i :: 0 <= i < |x| ==> IsPlain(x[i])
    ensures Scan(Outside, x + s) == Scan(Outside, s)
  {
    if x == [] {
      assert x + s == s;
    } else {
      assert x + s == [x[0]] + (x[1..] + s);
      ScanOne(Outside, x[0], x[1..] + s);
      ScanPlain(x[1..], s);
    }
  }

  lemma ScanTwo(c: char, d: char, s: string)
    requires c == '\\'
    ensures Scan(Inside, [c, d] + s) == Scan(Inside, s)
  {
    assert [c, d] + s == [c] + ([d] + s);
    ScanOne(Inside, c, [d] + s);
    ScanOne(Escaped, d, s);
  }

  lemma ScanHex(n: nat, s: string)
    requires n < 16
    ensures Scan(Inside, [Hexadecimal.Digit(n)] + s) == Scan(Inside, s)
  {
    ScanOne(Inside, Hexadecimal.Digit(n), s);
  }

  lemma ScanEscape(c: char, s: string)
    ensures Scan(Inside, EscapeChar(c) + s) == Scan(Inside, s)
  {
    var x := EscapeChar(c);
    if |x| == 1 {
      ScanOne(Inside, c, s);
    } else if |x| == 2 {
      ScanTwo(x[0], x[1], s);
      assert x == [x[0], x[1]];
    } else {
      var p, q := c as int / 16, c as int % 16;
      var last := [Hexadecimal.Digit(p)] + ([Hexadecimal.Digit(q)] + s);
      assert x + s == ['\\', 'u'] + (['0'] + (['0'] + last));
      ScanTwo('\\', 'u', ['0'] + (['0'] + last));
      ScanOne(Inside, '0', ['0'] + last);
      ScanOne(Inside, '0', last);
      ScanHex(p, [Hexadecimal.Digit(q)] + s);
      ScanHex(q, s);
    }
  }

  lemma {:induction false} ScanEscapes(a: string, s: string)
    ensures Scan(Inside, EscapeThen(a, s)) == Scan(Inside, s)
  {
    if a != [] {
      ScanEscape(a[0], EscapeThen(a[1..], s));
      ScanEscapes(a[1..], s);
    }
  }

  lemma ScanQuote(a: string, s: string)
    ensures Scan(Outside, QuoteThen(a, s)) == Scan(Outside, s)
  {
    ScanOne(Outside, '\"', EscapeThen(a, "\"" + s));
    ScanEscapes(a, "\"" + s);
    ScanOne(Inside, '\"', s);
  }

  lemma {:induction false} ScanPrint(v: Json, s: string)
    requires Proper(v)
    ensures Scan(Outside, PrintThen(v, s)) == Scan(Outside, s)
    decreases Size(v)
  {
    match v
    case Text(text) => ScanQuote(text, s);
    case Array(items) =>
      ScanOne(Outside, '[', ItemsThen(items, "]" + s));
      ScanItems(items, "]" + s);
      ScanOne(Outside, ']', s);
    case Object(fields) =>
      SortKeysMeaning(fields);
      ScanOne(Outside, '{', FieldsThen(SortKeys(fields), "}" + s));
      ScanFields(SortKeys(fields), "}" + s);
      ScanOne(Outside, '}', s);
    case _ => ScanPlain(Print(v), s);
  }

  lemma {:induction false} ScanItems(items: Items, s: string)
    requires ProperItems(items)
    ensures Scan(Outside, ItemsThen(items, s)) == Scan(Outside, s)
    decreases SizeOfItems(items)
  {
    match items
    case NoItems =>
    case Item(head, NoItems) => ScanPrint(head, s);
    case Item(head, rest) =>
      ScanPrint(head, "," + ItemsThen(rest, s));
      ScanOne(Outside, ',', ItemsThen(rest, s));
      ScanItems(rest, s);
  }

  lemma {:induction false} ScanFields(fields: Fields, s: string)
    requires ProperFields(fields)
    ensures Scan(Outside, FieldsThen(fields, s)) == Scan(Outside, s)
    decreases SizeOfFields(fields)
  {
    match fields
    case NoFields =>
    case Field(key, value, rest) =>
      var after := RestOfFields(fields, s);
      ScanQuote(key, ":" + PrintThen(value, after));
      ScanOne(Outside, ':', PrintThen(value, after));
      ScanPrint(value, after);
      if rest.Field? {
        ScanOne(Outside, ',', FieldsThen(rest, s));
        ScanFields(rest, s);
      }
  }

  lemma ScanPrinted(v: Json)
    requires Proper(v)
    ensures Scan(Outside, Print(v)) == At(Outside)
  {
    PrintThenIs(v, "");
    ScanPrint(v, "");
    assert Print(v) + "" == Print(v);
  }

  // ----- no printed value ends another

  lemma {:induction false} ScanJoin(m: Mode, x: string, y: string)
    ensures Scan(m, x + y) == if Scan(m, x).Stuck? then Stuck else Scan(Scan(m, x).mode, y)
    decreases |x|
  {
    if x == [] {
      assert x + y == y;
    } else {
      assert x + y == [x[0]] + (x[1..] + y);
      ScanOne(m, x[0], x[1..] + y);
      if Step(m, x[0]).At? { ScanJoin(Step(m, x[0]).mode, x[1..], y); }
    }
  }

  function Other(m: Mode): Mode
    requires m != Escaped
  {
    if m == Inside then Outside else Inside
  }

  /** Started inside and outside of a string, the scanner never agrees with itself on the same text. */
  lemma {:induction false} ScansStayApart(m: Mode, text: string)
    requires m != Escaped && Scan(m, text).At? && Scan(Other(m), text).At?
    ensures Scan(m, text).mode != Scan(Other(m), text).mode
    decreases |text|
  {
    if text != [] { ScansStayApart(Step(m, text[0]).mode, text[1..]); }
  }

  lemma NoPrintEndsAnother(u: Json, v: Json, before: string)
    requires Proper(u) && Proper(v)
    ensures Print(u) != before + ("|" + Print(v))
  {
    if Print(u) == before + ("|" + Print(v)) {
      ScanPrinted(u);
      ScanPrinted(v);
      ScanJoin(Outside, before, "|" + Print(v));
      ScanOne(Scan(Outside, before).mode, '|', Print(v));
      ScansStayApart(Outside, Print(v));
      assert false;
    }
  }
}
