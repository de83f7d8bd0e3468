/** The text that backend/src/audit/AuditLogWriter.js prints, as arrays of texts joined. */
module JsonLayout {
  import opened JsonText
  import opened TextOrder

  /** Array.prototype.join. */
  function Join(parts: seq<string>, separator: string): string {
    if parts == [] then ""
    else if |parts| == 1 then parts[0]
    else parts[0] + separator + Join(parts[1..], separator)
  }

  function PrintedElements(items: Items): (parts: seq<string>)
    ensures |parts| == |Elements(items)|
    ensures forall i :: 0 <= i < |parts| ==> parts[i] == Print(Elements(items)[i])
  {
    match items
    case NoItems => []
    case Item(head, rest) => [Print(head)] + PrintedElements(rest)
  }

  function PrintedMembers(fields: Fields): (parts: seq<string>)
    ensures |parts| == |Members(fields)|
    ensures forall i :: 0 <= i < |parts| ==>
              parts[i] == Quote(Members(fields)[i].0) + ":" + Print(Members(fields)[i].1)
  {
    match fields
    case NoFields => []
    case Field(key, value, rest) => [Quote(key) + ":" + Print(value)] + PrintedMembers(rest)
  }

  lemma {:induction false} ItemsJoined(items: Items)
    ensures PrintItems(items) == Join(PrintedElements(items), ",")
  {
    match items
    case NoItems =>
    case Item(head, rest) =>
      ItemsJoined(rest);
      assert PrintedElements(items)[1..] == PrintedElements(rest);
  }

  lemma {:induction false} FieldsJoined(fields: Fields)
    ensures PrintFields(fields) == Join(PrintedMembers(fields), ",")
  {
    match fields
    case NoFields =>
    case Field(key, value, rest) =>
      FieldsJoined(rest);
      assert PrintedMembers(fields)[1..] == PrintedMembers(rest);
  }

  /** Arrays and objects print as their parts between brackets, with commas, and members with a colon. */
  lemma PrintExactly(items: Items, fields: Fields)
    ensures Print(Array(items)) == "[" + Join(PrintedElements(items), ",") + "]"
    ensures Print(Object(fields)) == "{" + Join(PrintedMembers(SortKeys(fields)), ",") + "}"
    ensures DeterministicJson(Null) == "{}"
  {
    ItemsJoined(items);
    FieldsJoined(SortKeys(fields));
  }

  lemma {:induction false} SortedFromFirst(fields: Fields, i: nat)
    requires Sorted(fields) && fields.Field? && 0 < i < |Members(fields)|
    ensures TextBefore(fields.key, Members(fields)[i].0)
  {
    var rest := fields.rest;
    assert Members(fields)[i] == Members(rest)[i - 1];
    if i > 1 {
      SortedFromFirst(rest, i - 1);
      TextTransitive(fields.key, rest.key, Members(rest)[i - 1].0);
    }
  }

  lemma {:induction false} SortedMembers(fields: Fields, i: nat, j: nat)
    requires Sorted(fields) && i < j < |Members(fields)|
    ensures TextBefore(Members(fields)[i].0, Members(fields)[j].0)
  {
    if i == 0 { SortedFromFirst(fields, j); } else { SortedMembers(fields.rest, i - 1, j - 1); }
  }

  /** The members of an object are printed in the order of the UTF-16 code units of their keys. */
  lemma KeysAscend(fields: Fields, i: nat, j: nat)
    requires ProperFields(fields) && i < j < |Members(SortKeys(fields))|
    ensures UnitsBefore(Utf16(Members(SortKeys(fields))[i].0), Utf16(Members(SortKeys(fields))[j].0))
  {
    SortKeysMeaning(fields);
    SortedMembers(SortKeys(fields), i, j);
    TextBeforeExactly(Members(SortKeys(fields))[i].0, Members(SortKeys(fields))[j].0);
  }
}
