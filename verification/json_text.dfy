/** backend/src/audit/AuditLogWriter.js, deterministicJson: one text for every ordering of a payload's keys. */
module JsonText {
  import Hexadecimal
  import opened TextOrder

  // A number stands for its printed form, which JavaScript determines from the value alone.
  datatype Json =
    | Null | Bool(value: bool) | Number(digits: string) | Text(text: string)
    | Array(items: Items) | Object(fields: Fields)

  datatype Items = NoItems | Item(head: Json, rest: Items)

  /** Properties in insertion order. */
  datatype Fields = NoFields | Field(key: string, value: Json, rest: Fields)

  /** A JSON value with objects as maps: what is left of it when key order does not count. */
  datatype Value = Atom(atom: Json) | Sequence(items: seq<Value>) | Mapping(fields: map<string, Value>)

  function Meaning(v: Json): Value {
    match v
    case Array(items) => Sequence(MeaningOfItems(items))
    case Object(fields) => Mapping(MeaningOfFields(fields))
    case _ => Atom(v)
  }

  function MeaningOfItems(items: Items): seq<Value> {
    match items
    case NoItems => []
    case Item(head, rest) => [Meaning(head)] + MeaningOfItems(rest)
  }

  function MeaningOfFields(fields: Fields): map<string, Value> {
    match fields
    case NoFields => map[]
    case Field(key, value, rest) => MeaningOfFields(rest)[key := Meaning(value)]
  }

  function Keys(fields: Fields): set<string> {
    match fields
    case NoFields => {}
    case Field(key, _, rest) => {key} + Keys(rest)
  }

  /** An object has no key twice, and a number prints as JavaScript prints numbers. */
  predicate Proper(v: Json) {
    match v
    case Number(digits) => IsNumber(digits)
    case Array(items) => ProperItems(items)
    case Object(fields) => ProperFields(fields)
    case _ => true
  }

  predicate ProperItems(items: Items) {
    match items
    case NoItems => true
    case Item(head, rest) => Proper(head) && ProperItems(rest)
  }

  predicate ProperFields(fields: Fields) {
    match fields
    case NoFields => true
    case Field(key, value, rest) => key !in Keys(rest) && Proper(value) && ProperFields(rest)
  }

  function Elements(items: Items): seq<Json> {
    match items
    case NoItems => []
    case Item(head, rest) => [head] + Elements(rest)
  }

  function Members(fields: Fields): seq<(string, Json)> {
    match fields
    case NoFields => []
    case Field(key, value, rest) => [(key, value)] + Members(rest)
  }

  /** Exactly the arrays of proper values. */
  lemma {:induction false} ProperArray(items: Items)
    ensures Proper(Array(items)) <==> forall v :: v in Elements(items) ==> Proper(v)
  {
    match items
    case NoItems =>
    case Item(head, rest) =>
      ProperArray(rest);
      assert head in Elements(items);
  }

  lemma {:induction false} KeysAreFew(fields: Fields)
    ensures |Keys(fields)| <= |Members(fields)|
  {
    match fields
    case NoFields =>
    case Field(key, _, rest) => KeysAreFew(rest);
  }

  /** Exactly the objects with as many keys as members, and proper values. */
  lemma {:induction false} ProperObject(fields: Fields)
    ensures Proper(Object(fields)) <==>
            |Keys(fields)| == |Members(fields)| && forall m :: m in Members(fields) ==> Proper(m.1)
  {
    match fields
    case NoFields =>
    case Field(key, value, rest) =>
      ProperObject(rest);
      KeysAreFew(rest);
      assert (key, value) in Members(fields);
  }

  predicate InNumber(c: char) {
    '0' <= c <= '9' || c == '-' || c == '+' || c == '.' || c == 'e'
  }

  predicate IsNumber(digits: string) {
    digits != [] && ('0' <= digits[0] <= '9' || digits[0] == '-') &&
      forall i :: 0 <= i < |digits| ==> InNumber(digits[i])
  }

  // ----- printing

  function EscapeChar(c: char): string {
    if c == '\"' then "\\\""
    else if c == '\\' then "\\\\"
    else if c as int == 8 then "\\b"
    else if c as int == 9 then "\\t"
    else if c as int == 10 then "\\n"
    else if c as int == 12 then "\\f"
    else if c as int == 13 then "\\r"
    else if (c as int) < 32 then "\\u00" + [Hexadecimal.Digit(c as int / 16), Hexadecimal.Digit(c as int % 16)]
    else [c]
  }

  /** The characters that a backslash and one letter stand for, by that letter. */
  predicate Shorthand(c: char, letter: char) {
    || (c == letter && (c == '\"' || c == '\\'))
    || (c as int == 8 && letter == 'b') || (c as int == 9 && letter == 't') || (c as int == 10 && letter == 'n')
    || (c as int == 12 && letter == 'f') || (c as int == 13 && letter == 'r')
  }

  /**
   Section 7 of RFC 8259, as JSON.stringify follows it: a character stands for itself unless it is a
   quote, a backslash or below U+0020; of those, seven have a letter and the others their code.
   */
  lemma EscapeExactly(c: char)
    ensures var e, plain := EscapeChar(c), c as int >= 0x20 && c != '\"' && c != '\\';
            && (plain <==> e == [c])
            && (!plain ==> e[0] == '\\' && (|e| == 2 || |e| == 6))
            && (|e| == 2 ==> Shorthand(c, e[1]))
            && (|e| == 6 ==>
                 && e[1..4] == "u00" && c as int < 0x20 && (forall letter :: !Shorthand(c, letter))
                 && e[4] == Hexadecimal.DIGITS[c as int / 16] && e[5] == Hexadecimal.DIGITS[c as int % 16])
  {
    if |EscapeChar(c)| == 6 {
      Hexadecimal.DigitIs(c as int / 16);
      Hexadecimal.DigitIs(c as int % 16);
    }
  }

  function Escape(s: string): string {
    if s == [] then [] else EscapeChar(s[0]) + Escape(s[1..])
  }

  /** JSON.stringify of a string. */
  function Quote(s: string): string {
    "\"" + Escape(s) + "\""
  }

  function Size(v: Json): nat {
    match v
    case Array(items) => 1 + SizeOfItems(items)
    case Object(fields) => 1 + SizeOfFields(fields)
    case _ => 1
  }

  function SizeOfItems(items: Items): nat {
    match items
    case NoItems => 0
    case Item(head, rest) => 1 + Size(head) + SizeOfItems(rest)
  }

  function SizeOfFields(fields: Fields): nat {
    match fields
    case NoFields => 0
    case Field(_, value, rest) => 1 + Size(value) + SizeOfFields(rest)
  }

  function Insert(key: string, value: Json, fields: Fields): (r: Fields)
    ensures SizeOfFields(r) == 1 + Size(value) + SizeOfFields(fields)
  {
    match fields
    case NoFields => Field(key, value, NoFields)
    case Field(k, v, rest) =>
      if TextBefore(key, k) then Field(key, value, fields) else Field(k, v, Insert(key, value, rest))
  }

  function SortKeys(fields: Fields): (r: Fields)
    ensures SizeOfFields(r) == SizeOfFields(fields)
  {
    match fields
    case NoFields => NoFields
    case Field(key, value, rest) => Insert(key, value, SortKeys(rest))
  }

  /** The inner recursion, sortedStringify. */
  function Print(v: Json): string
    decreases Size(v)
  {
    match v
    case Null => "null"
    case Bool(b) => if b then "true" else "false"
    case Number(digits) => digits
    case Text(text) => Quote(text)
    case Array(items) => "[" + PrintItems(items) + "]"
    case Object(fields) => "{" + PrintFields(SortKeys(fields)) + "}"
  }

  function PrintItems(items: Items): string
    decreases SizeOfItems(items), 0
  {
    match items
    case NoItems => ""
    case Item(head, rest) => Print(head) + ItemsAfter(rest)
  }

  function ItemsAfter(items: Items): string
    decreases SizeOfItems(items), 1
  {
    if items == NoItems then "" else "," + PrintItems(items)
  }

  function PrintFields(fields: Fields): string
    decreases SizeOfFields(fields), 0
  {
    match fields
    case NoFields => ""
    case Field(key, value, rest) => Quote(key) + ":" + Print(value) + FieldsAfter(rest)
  }

  function FieldsAfter(fields: Fields): string
    decreases SizeOfFields(fields), 1
  {
    if fields == NoFields then "" else "," + PrintFields(fields)
  }

  /** A missing payload prints as an empty object. */
  function DeterministicJson(v: Json): string {
    if v == Null then "{}" else Print(v)
  }

  // ----- reading a text back

  // Each printer again, with the text that follows as an argument.

  function EscapeThen(a: string, s: string): string {
    if a == [] then s else EscapeChar(a[0]) + EscapeThen(a[1..], s)
  }

  function QuoteThen(a: string, s: string): string {
    "\"" + EscapeThen(a, "\"" + s)
  }

  function PrintThen(v: Json, s: string): string
    decreases Size(v)
  {
    match v
    case Text(text) => QuoteThen(text, s)
    case Array(items) => "[" + ItemsThen(items, "]" + s)
    case Object(fields) => "{" + FieldsThen(SortKeys(fields), "}" + s)
    case _ => Print(v) + s
  }

  function ItemsThen(items: Items, s: string): string
    decreases SizeOfItems(items)
  {
    match items
    case NoItems => s
    case Item(head, NoItems) => PrintThen(head, s)
    case Item(head, rest) => PrintThen(head, "," + ItemsThen(rest, s))
  }

  function FieldsThen(fields: Fields, s: string): string
    decreases SizeOfFields(fields)
  {
    match fields
    case NoFields => s
    case Field(key, value, NoFields) => QuoteThen(key, ":" + PrintThen(value, s))
    case Field(key, value, rest) => QuoteThen(key, ":" + PrintThen(value, "," + FieldsThen(rest, s)))
  }

  lemma RegroupPair(a: string, b: string, c: string)
    ensures a + (b + c) == a + b + c
  {
  }

  lemma Regroup(a: string, b: string, c: string, d: string)
    ensures a + (b + (c + d)) == a + b + c + d
  {
    RegroupPair(b, c, d);
    RegroupPair(a, b + c, d);
    RegroupPair(a, b, c);
  }

  lemma {:induction false} EscapeThenIs(a: string, s: string)
    ensures EscapeThen(a, s) == Escape(a) + s
  {
    if a != [] {
      EscapeThenIs(a[1..], s);
      RegroupPair(EscapeChar(a[0]), Escape(a[1..]), s);
    }
  }

  lemma QuoteThenIs(a: string, s: string)
    ensures QuoteThen(a, s) == Quote(a) + s
  {
    EscapeThenIs(a, "\"" + s);
    Regroup("\"", Escape(a), "\"", s);
  }

  lemma {:induction false} PrintThenIs(v: Json, s: string)
    ensures PrintThen(v, s) == Print(v) + s
    decreases Size(v)
  {
    match v
    case Text(text) => QuoteThenIs(text, s);
    case Array(items) =>
      ItemsThenIs(items, "]" + s);
      Regroup("[", PrintItems(items), "]", s);
    case Object(fields) =>
      FieldsThenIs(SortKeys(fields), "}" + s);
      Regroup("{", PrintFields(SortKeys(fields)), "}", s);
    case _ =>
  }

  lemma {:induction false} ItemsThenIs(items: Items, s: string)
    ensures ItemsThen(items, s) == PrintItems(items) + s
    decreases SizeOfItems(items)
  {
    match items
    case NoItems =>
    case Item(head, NoItems) => PrintThenIs(head, s);
    case Item(head, rest) =>
      ItemsThenIs(rest, s);
      PrintThenIs(head, "," + ItemsThen(rest, s));
      RegroupPair(",", PrintItems(rest), s);
      RegroupPair(Print(head), "," + PrintItems(rest), s);
  }

  lemma {:induction false} FieldsThenIs(fields: Fields, s: string)
    ensures FieldsThen(fields, s) == PrintFields(fields) + s
    decreases SizeOfFields(fields)
  {
    match fields
    case NoFields =>
    case Field(key, value, rest) =>
      var after := if rest == NoFields then s else "," + FieldsThen(rest, s);
      FieldsThenIs(rest, s);
      RegroupPair(",", PrintFields(rest), s);
      assert after == FieldsAfter(rest) + s;
      PrintThenIs(value, after);
      QuoteThenIs(key, ":" + PrintThen(value, after));
      Regroup(Quote(key), ":", Print(value), after);
      RegroupPair(Quote(key) + ":" + Print(value), FieldsAfter(rest), s);
  }

  /** What can follow a printed value. */
  predicate Terminated(s: string) {
    s == [] || s[0] == ',' || s[0] == ']' || s[0] == '}'
  }

  lemma SameTails(c: string, d: string, s: string, t: string)
    requires c + s == d + t && |c| == |d|
    ensures c == d && s == t
  {
    assert c == (c + s)[..|c|] && d == (d + t)[..|d|];
    assert s == (c + s)[|c|..] && t == (d + t)[|d|..];
  }

  lemma EscapeCharInjective(c: char, d: char)
    requires EscapeChar(c) == EscapeChar(d)
    ensures c == d
  {
    if |EscapeChar(c)| == 6 {
      assert EscapeChar(c)[4] == EscapeChar(d)[4] && EscapeChar(c)[5] == EscapeChar(d)[5];
      Hexadecimal.DigitInjective(c as int / 16, d as int / 16);
      Hexadecimal.DigitInjective(c as int % 16, d as int % 16);
    } else if |EscapeChar(c)| == 2 {
      assert EscapeChar(c)[1] == EscapeChar(d)[1];
    } else {
      assert EscapeChar(c)[0] == EscapeChar(d)[0];
    }
    assert c as int == d as int;
  }

  /** The length of an escape shows in its first two characters. */
  lemma EscapeCharLength(c: char, s: string)
    ensures EscapeChar(c) != [] && EscapeChar(c)[0] != '\"' && (EscapeChar(c) + s)[0] == EscapeChar(c)[0]
    ensures var x := EscapeChar(c) + s; |EscapeChar(c)| == if x[0] != '\\' then 1 else if x[1] == 'u' then 6 else 2
  {
    assert |EscapeChar(c)| > 1 ==> (EscapeChar(c) + s)[1] == EscapeChar(c)[1];
  }

  lemma EscapeCharReadable(c: char, d: char, s: string, t: string)
    requires EscapeChar(c) + s == EscapeChar(d) + t
    ensures c == d && s == t
  {
    EscapeCharLength(c, s);
    EscapeCharLength(d, t);
    SameTails(EscapeChar(c), EscapeChar(d), s, t);
    EscapeCharInjective(c, d);
  }

  lemma {:induction false} EscapeReadable(a: string, b: string, s: string, t: string)
    requires EscapeThen(a, "\"" + s) == EscapeThen(b, "\"" + t)
    ensures a == b && s == t
  {
    if a != [] { EscapeCharLength(a[0], EscapeThen(a[1..], "\"" + s)); }
    if b != [] { EscapeCharLength(b[0], EscapeThen(b[1..], "\"" + t)); }
    if a == [] {
      SameTails("\"", "\"", s, t);
    } else {
      EscapeCharReadable(a[0], b[0], EscapeThen(a[1..], "\"" + s), EscapeThen(b[1..], "\"" + t));
      EscapeReadable(a[1..], b[1..], s, t);
      assert a == [a[0]] + a[1..] && b == [b[0]] + b[1..];
    }
  }

  lemma QuoteReadable(a: string, b: string, s: string, t: string)
    requires QuoteThen(a, s) == QuoteThen(b, t)
    ensures a == b && s == t
  {
    SameTails("\"", "\"", EscapeThen(a, "\"" + s), EscapeThen(b, "\"" + t));
    EscapeReadable(a, b, s, t);
  }

  function NumberLength(x: string): nat {
    if x == [] || !InNumber(x[0]) then 0 else 1 + NumberLength(x[1..])
  }

  lemma {:induction false} NumberEnds(digits: string, s: string)
    requires (forall i :: 0 <= i < |digits| ==> InNumber(digits[i])) && Terminated(s)
    ensures NumberLength(digits + s) == |digits|
  {
    if digits == [] {
      assert digits + s == s;
    } else {
      assert (digits + s)[0] == digits[0] && (digits + s)[1..] == digits[1..] + s;
      NumberEnds(digits[1..], s);
    }
  }

  /** The first character tells the kinds of value apart. */
  function Kind(v: Json): int {
    match v
    case Null => 0
    case Bool(b) => if b then 1 else 2
    case Number(_) => 3
    case Text(_) => 4
    case Array(_) => 5
    case Object(_) => 6
  }

  function KindOf(c: char): int {
    if c == 'n' then 0 else if c == 't' then 1 else if c == 'f' then 2 else if '0' <= c <= '9' || c == '-' then 3
    else if c == '\"' then 4 else if c == '[' then 5 else if c == '{' then 6 else 7
  }

  lemma FirstTells(v: Json, s: string)
    requires Proper(v)
    ensures PrintThen(v, s) != "" && KindOf(PrintThen(v, s)[0]) == Kind(v)
  {
  }

  lemma {:induction false} PrintReadable(u: Json, v: Json, s: string, t: string)
    requires Proper(u) && Proper(v) && Terminated(s) && Terminated(t)
    requires PrintThen(u, s) == PrintThen(v, t)
    ensures Meaning(u) == Meaning(v) && s == t
    decreases Size(u), 1
  {
    FirstTells(u, s);
    FirstTells(v, t);
    match u
    case Text(text) => QuoteReadable(text, v.text, s, t);
    case Array(items) =>
      SameTails("[", "[", ItemsThen(items, "]" + s), ItemsThen(v.items, "]" + t));
      ItemsReadable(items, v.items, s, t);
    case Object(fields) =>
      SortKeysMeaning(fields);
      SortKeysMeaning(v.fields);
      SameTails("{", "{", FieldsThen(SortKeys(fields), "}" + s), FieldsThen(SortKeys(v.fields), "}" + t));
      FieldsReadable(SortKeys(fields), SortKeys(v.fields), s, t);
    case Number(digits) =>
      NumberEnds(digits, s);
      NumberEnds(v.digits, t);
      SameTails(digits, v.digits, s, t);
    case _ =>
      SameTails(Print(u), Print(v), s, t);
  }

  lemma {:induction false} ItemsReadable(a: Items, b: Items, s: string, t: string)
    requires ProperItems(a) && ProperItems(b)
    requires ItemsThen(a, "]" + s) == ItemsThen(b, "]" + t)
    ensures MeaningOfItems(a) == MeaningOfItems(b) && s == t
    decreases SizeOfItems(a)
  {
    var s', t' := RestOfItems(a, "]" + s), RestOfItems(b, "]" + t);
    if a.Item? { FirstTells(a.head, s'); }
    if b.Item? { FirstTells(b.head, t'); }
    if a.Item? {
      PrintReadable(a.head, b.head, s', t');
      if a.rest.Item? {
        assert b.rest.Item? by { assert s'[0] == ','; }
        SameTails(",", ",", ItemsThen(a.rest, "]" + s), ItemsThen(b.rest, "]" + t));
        ItemsReadable(a.rest, b.rest, s, t);
      } else {
        SameTails("]", "]", s, t);
      }
    } else {
      SameTails("]", "]", s, t);
    }
  }

  function RestOfItems(items: Items, s: string): string {
    if items.NoItems? || items.rest.NoItems? then s else "," + ItemsThen(items.rest, s)
  }

  function RestOfFields(fields: Fields, s: string): string {
    if fields.NoFields? || fields.rest.NoFields? then s else "," + FieldsThen(fields.rest, s)
  }

  lemma {:induction false} FieldsReadable(a: Fields, b: Fields, s: string, t: string)
    requires ProperFields(a) && ProperFields(b)
    requires FieldsThen(a, "}" + s) == FieldsThen(b, "}" + t)
    ensures MeaningOfFields(a) == MeaningOfFields(b) && s == t
    decreases SizeOfFields(a)
  {
    var s', t' := RestOfFields(a, "}" + s), RestOfFields(b, "}" + t);
    assert a.Field? <==> FieldsThen(a, "}" + s)[0] == '\"';
    assert b.Field? <==> FieldsThen(b, "}" + t)[0] == '\"';
    if a.Field? {
      QuoteReadable(a.key, b.key, ":" + PrintThen(a.value, s'), ":" + PrintThen(b.value, t'));
      SameTails(":", ":", PrintThen(a.value, s'), PrintThen(b.value, t'));
      PrintReadable(a.value, b.value, s', t');
      if a.rest.Field? {
        assert b.rest.Field? by { assert s'[0] == ','; }
        SameTails(",", ",", FieldsThen(a.rest, "}" + s), FieldsThen(b.rest, "}" + t));
        FieldsReadable(a.rest, b.rest, s, t);
      } else {
        SameTails("}", "}", s, t);
      }
    } else {
      SameTails("}", "}", s, t);
    }
  }

  // ----- sorting

  predicate Sorted(fields: Fields) {
    match fields
    case NoFields => true
    case Field(key, _, rest) => Sorted(rest) && (rest.Field? ==> TextBefore(key, rest.key))
  }

  lemma {:induction false} InsertKeys(key: string, value: Json, fields: Fields)
    requires key !in Keys(fields) && ProperFields(fields) && Proper(value)
    ensures ProperFields(Insert(key, value, fields)) && Keys(Insert(key, value, fields)) == Keys(fields) + {key}
  {
    if fields.Field? { InsertKeys(key, value, fields.rest); }
  }

  lemma {:induction false} InsertSorted(key: string, value: Json, fields: Fields)
    requires key !in Keys(fields) && Sorted(fields)
    ensures Sorted(Insert(key, value, fields))
  {
    if fields.Field? {
      TextTotal(key, fields.key);
      if !TextBefore(key, fields.key) { InsertSorted(key, value, fields.rest); }
    }
  }

  lemma {:induction false} InsertMeaning(key: string, value: Json, fields: Fields)
    requires key !in Keys(fields)
    ensures MeaningOfFields(Insert(key, value, fields)) == MeaningOfFields(fields)[key := Meaning(value)]
  {
    if fields.Field? && !TextBefore(key, fields.key) {
      InsertMeaning(key, value, fields.rest);
      var m := MeaningOfFields(fields.rest);
      assert m[key := Meaning(value)][fields.key := Meaning(fields.value)] ==
        m[fields.key := Meaning(fields.value)][key := Meaning(value)];
    }
  }

  /** Sorting the keys changes neither the keys nor what they map to. */
  lemma {:induction false} SortKeysMeaning(fields: Fields)
    requires ProperFields(fields)
    ensures var r := SortKeys(fields);
            && Sorted(r) && ProperFields(r) && Keys(r) == Keys(fields) && MeaningOfFields(r) == MeaningOfFields(fields)
  {
    if fields.Field? {
      SortKeysMeaning(fields.rest);
      InsertKeys(fields.key, fields.value, SortKeys(fields.rest));
      InsertSorted(fields.key, fields.value, SortKeys(fields.rest));
      InsertMeaning(fields.key, fields.value, SortKeys(fields.rest));
    }
  }

  lemma {:induction false} FirstIsLeast(fields: Fields, key: string)
    requires fields.Field? && Sorted(fields) && key in Keys(fields.rest)
    ensures TextBefore(fields.key, key)
  {
    if key != fields.rest.key {
      FirstIsLeast(fields.rest, key);
      TextTransitive(fields.key, fields.rest.key, key);
    }
  }

  lemma {:induction false} MeaningKeys(fields: Fields)
    ensures MeaningOfFields(fields).Keys == Keys(fields)
  {
    if fields.Field? { MeaningKeys(fields.rest); }
  }

  lemma SameFirstKey(a: Fields, b: Fields)
    requires a.Field? && b.Field? && Sorted(a) && Sorted(b) && Keys(a) == Keys(b)
    ensures a.key == b.key
  {
    if a.key != b.key {
      FirstIsLeast(a, b.key);
      FirstIsLeast(b, a.key);
      TextTotal(a.key, b.key);
    }
  }

  lemma SameRest(a: Fields, b: Fields)
    requires a.Field? && b.Field? && a.key == b.key && ProperFields(a) && ProperFields(b)
    requires MeaningOfFields(a) == MeaningOfFields(b)
    ensures Meaning(a.value) == Meaning(b.value) && MeaningOfFields(a.rest) == MeaningOfFields(b.rest)
  {
    MeaningKeys(a.rest);
    MeaningKeys(b.rest);
    assert MeaningOfFields(a)[a.key] == MeaningOfFields(b)[a.key];
    assert MeaningOfFields(a.rest) == MeaningOfFields(a) - {a.key};
    assert MeaningOfFields(b.rest) == MeaningOfFields(b) - {a.key};
  }

  lemma {:induction false} SameMeaningSamePrint(u: Json, v: Json)
    requires Proper(u) && Proper(v) && Meaning(u) == Meaning(v)
    ensures Print(u) == Print(v)
    decreases Size(u), 1
  {
    if u.Array? {
      SameItems(u.items, v.items);
    } else if u.Object? {
      SortKeysMeaning(u.fields);
      SortKeysMeaning(v.fields);
      SameFields(SortKeys(u.fields), SortKeys(v.fields));
    }
  }

  lemma {:induction false} SameItems(a: Items, b: Items)
    requires ProperItems(a) && ProperItems(b) && MeaningOfItems(a) == MeaningOfItems(b)
    ensures PrintItems(a) == PrintItems(b) && ItemsAfter(a) == ItemsAfter(b)
    decreases SizeOfItems(a)
  {
    if a.Item? {
      assert Meaning(a.head) == MeaningOfItems(a)[0] == MeaningOfItems(b)[0] == Meaning(b.head);
      assert MeaningOfItems(a.rest) == MeaningOfItems(a)[1..] == MeaningOfItems(b)[1..] == MeaningOfItems(b.rest);
      SameMeaningSamePrint(a.head, b.head);
      SameItems(a.rest, b.rest);
    }
  }

  lemma {:induction false} SameFields(a: Fields, b: Fields)
    requires Sorted(a) && Sorted(b) && ProperFields(a) && ProperFields(b) && MeaningOfFields(a) == MeaningOfFields(b)
    ensures PrintFields(a) == PrintFields(b) && FieldsAfter(a) == FieldsAfter(b)
    decreases SizeOfFields(a)
  {
    MeaningKeys(a);
    MeaningKeys(b);
    if a.Field? {
      assert a.key in Keys(b);
      SameFirstKey(a, b);
      SameRest(a, b);
      SameMeaningSamePrint(a.value, b.value);
      SameFields(a.rest, b.rest);
    } else {
      assert Keys(b) == {};
    }
  }

  // ----- the canonical text

  /** Two values print alike exactly when they are equal up to the order of keys, at every depth. */
  lemma PrintIsCanonical(u: Json, v: Json)
    requires Proper(u) && Proper(v)
    ensures Print(u) == Print(v) <==> Meaning(u) == Meaning(v)
  {
    if Meaning(u) == Meaning(v) { SameMeaningSamePrint(u, v); }
    if Print(u) == Print(v) {
      PrintThenIs(u, "");
      PrintThenIs(v, "");
      PrintReadable(u, v, "", "");
    }
  }

  /** A payload as the log stores it: a missing one is an empty object. */
  function Stored(v: Json): Json {
    if v == Null then Object(NoFields) else v
  }

  /**
   The text that is hashed: equal exactly for payloads equal up to key order, with null counted as
   an empty object.
   */
  lemma DeterministicJsonIsCanonical(u: Json, v: Json)
    requires Proper(u) && Proper(v)
    ensures DeterministicJson(u) == DeterministicJson(v) <==> Meaning(Stored(u)) == Meaning(Stored(v))
  {
    assert Print(Object(NoFields)) == "{" + "" + "}";
    PrintIsCanonical(Stored(u), Stored(v));
  }
}
