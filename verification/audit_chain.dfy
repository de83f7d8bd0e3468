/**
 backend/src/audit/AuditLogWriter.js and AuditChainVerifier.js: the hash-chained log, its writer
 and its paged verifier.
 */
module AuditChain {
  import opened Outcomes
  import Bytes
  import Decimal
  import opened JsonLayout
  import opened JsonScan
  import opened JsonText

  /** Base64 of a SHA-256 digest. */
  type EntryHash = s: string | IsBase64(s) witness seq(44, _ => 'A')

  predicate IsBase64(s: string) {
    |s| == 44 && forall i :: 0 <= i < |s| ==> InBase64(s[i])
  }

  predicate InBase64(c: char) {
    'A' <= c <= 'Z' || 'a' <= c <= 'z' || '0' <= c <= '9' || c == '+' || c == '/' || c == '='
  }

  type TextHash = string -> EntryHash

  /** An audit_log row; absent texts are database NULLs. */
  datatype Row = Row(seqNo: int, eventType: string, actor: string, subjectId: Option<string>, payload: Json,
                     entryHash: string, prevHash: Option<string>)

  datatype Reason = Gap(expected: int) | PrevMismatch | HashMismatch | NoPredecessor

  datatype Verdict = Intact(checked: nat) | Broken(at: int, reason: Reason, checked: nat)

  function OrEmpty(text: Option<string>): string {
    match text
    case None => ""
    case Some(s) => s
  }

  function SeqText(n: int): string {
    if n < 0 then "-" + Decimal.Text(-n) else Decimal.Text(n)
  }

  /** A minus sign and the digits, as for every number that JSON can carry. */
  lemma SeqTextIs(n: int)
    ensures if n < 0 then SeqText(n)[0] == '-' && SeqText(n)[1..] == Decimal.Text(-n) else SeqText(n) == Decimal.Text(n)
    ensures Proper(Number(SeqText(n)))
  {
    var digits := if n < 0 then Decimal.Text(-n) else Decimal.Text(n);
    assert forall i :: 0 <= i < |digits| ==> Decimal.IsDigit(digits[i]);
  }

  /** The fields after the sequence number, joined. */
  function Tail(eventType: string, actor: string, subjectId: Option<string>, payload: Json): string {
    eventType + "|" + actor + "|" + OrEmpty(subjectId) + "|" + DeterministicJson(payload)
  }

  function HashInput(prevHash: string, seqNo: int, tail: string): string {
    prevHash + "|" + SeqText(seqNo) + "|" + tail
  }

  function TailOf(row: Row): string {
    Tail(row.eventType, row.actor, row.subjectId, row.payload)
  }

  /** The text that is hashed is the six fields joined by bars. */
  lemma HashInputIsJoined(prevHash: string, row: Row)
    ensures HashInput(prevHash, row.seqNo, TailOf(row)) ==
              Join([prevHash, SeqText(row.seqNo), row.eventType, row.actor, OrEmpty(row.subjectId),
                DeterministicJson(row.payload)], "|")
  {
    var payload := DeterministicJson(row.payload);
    var parts := [prevHash, SeqText(row.seqNo), row.eventType, row.actor, OrEmpty(row.subjectId), payload];
    assert Join(parts[4..], "|") == parts[4] + "|" + payload by { assert Join(parts[4..][1..], "|") == payload; }
    assert parts[3..][1..] == parts[4..] && parts[2..][1..] == parts[3..] && parts[1..][1..] == parts[2..];
    assert Join(parts[3..], "|") == parts[3] + "|" + Join(parts[4..], "|");
    assert Join(parts[2..], "|") == parts[2] + "|" + Join(parts[3..], "|") == TailOf(row);
    assert Join(parts[1..], "|") == parts[1] + "|" + Join(parts[2..], "|");
    assert Join(parts, "|") == prevHash + "|" + Join(parts[1..], "|");
  }

  /** What hashes a row after the hash of the row before it. */
  type EntryDigest = (string, Row) -> EntryHash

  function ComputeEntryHash(hash: TextHash): EntryDigest {
    (prevHash: string, row: Row) => hash(HashInput(prevHash, row.seqNo, TailOf(row)))
  }

  lemma EntryHashOf(hash: TextHash, prevHash: string, row: Row)
    ensures ComputeEntryHash(hash)(prevHash, row) == hash(HashInput(prevHash, row.seqNo, TailOf(row)))
  {
  }

  /** Rows that differ at most in the order of payload keys, and in their own hashes. */
  ghost predicate Alike(a: Row, b: Row) {
    && a.seqNo == b.seqNo && a.eventType == b.eventType && a.actor == b.actor && a.subjectId == b.subjectId
    && Proper(a.payload) && Proper(b.payload) && Meaning(Stored(a.payload)) == Meaning(Stored(b.payload))
  }

  ghost predicate HashesAlike(digest: EntryDigest, prevHash: string, a: Row, b: Row) {
    Alike(a, b) ==> digest(prevHash, a) == digest(prevHash, b)
  }

  /** The digest does not see the order of payload keys. */
  ghost predicate Stable(digest: EntryDigest) {
    forall prevHash, a, b :: HashesAlike(digest, prevHash, a, b)
  }

  lemma EntryHashIsStable(hash: TextHash)
    ensures Stable(ComputeEntryHash(hash))
  {
    forall prevHash, a, b ensures HashesAlike(ComputeEntryHash(hash), prevHash, a, b) {
      if Alike(a, b) {
        DeterministicJsonIsCanonical(a.payload, b.payload);
        assert TailOf(a) == TailOf(b);
        EntryHashOf(hash, prevHash, a);
        EntryHashOf(hash, prevHash, b);
      }
    }
  }

  // ----- what it means for a row to be sound

  /** The hash the row at `i` must point back to, when the hash before the first row is `start`. */
  function PrevAt(rows: seq<Row>, start: string, i: nat): string
    requires i <= |rows|
  {
    if i == 0 then start else rows[i - 1].entryHash
  }

  /** What is wrong with the row at `i` of a chain whose first number is `first`. */
  function FailureAt(digest: EntryDigest, rows: seq<Row>, start: string, first: int, i: nat): Option<Reason>
    requires i < |rows|
  {
    if rows[i].seqNo != first + i then Some(Gap(first + i))
    else if OrEmpty(rows[i].prevHash) != PrevAt(rows, start, i) then Some(PrevMismatch)
    else if digest(PrevAt(rows, start, i), rows[i]) != rows[i].entryHash then Some(HashMismatch)
    else None
  }

  /** A row fails for its number, for its link to the row before it, or for its own hash, in this order. */
  lemma FailureExactly(digest: EntryDigest, rows: seq<Row>, start: string, first: int, i: nat)
    requires i < |rows|
    ensures var failure, prevHash := FailureAt(digest, rows, start, first, i), PrevAt(rows, start, i);
            var numbered, linked, hashed :=
              rows[i].seqNo == first + i, OrEmpty(rows[i].prevHash) == prevHash,
              rows[i].entryHash == digest(prevHash, rows[i]);
            && (failure == None <==> numbered && linked && hashed)
            && (!numbered <==> failure == Some(Gap(first + i)))
            && (failure == Some(PrevMismatch) <==> numbered && !linked)
            && (failure == Some(HashMismatch) <==> numbered && linked && !hashed)
  {
  }

  ghost predicate SoundUpTo(digest: EntryDigest, rows: seq<Row>, start: string, first: int, n: nat)
    requires n <= |rows|
  {
    forall i :: 0 <= i < n ==> FailureAt(digest, rows, start, first, i) == None
  }

  ghost predicate Sound(digest: EntryDigest, rows: seq<Row>, start: string, first: int) {
    SoundUpTo(digest, rows, start, first, |rows|)
  }

  /** The verdict names the first row that fails, and nothing else. */
  ghost predicate FirstFailure(digest: EntryDigest, rows: seq<Row>, start: string, first: int, r: Verdict) {
    && r.checked <= |rows| && SoundUpTo(digest, rows, start, first, r.checked)
    && match r
       case Intact(checked) => checked == |rows|
       case Broken(at, reason, checked) =>
         checked < |rows| && at == rows[checked].seqNo && FailureAt(digest, rows, start, first, checked) == Some(reason)
  }

  /** There is only one such verdict, so every page size reports the same. */
  lemma VerdictUnique(digest: EntryDigest, rows: seq<Row>, start: string, first: int, q: Verdict, r: Verdict)
    requires FirstFailure(digest, rows, start, first, q) && FirstFailure(digest, rows, start, first, r)
    ensures q == r
  {
    forall i | 0 <= i < |rows| && FailureAt(digest, rows, start, first, i) != None
      ensures q.checked <= i && r.checked <= i
    {
    }
  }

  // ----- the table

  ghost predicate Ordered(rows: seq<Row>) {
    forall i, j :: 0 <= i < j < |rows| ==> rows[i].seqNo < rows[j].seqNo
  }

  function Within(row: Row, lo: int, hi: int): bool {
    lo <= row.seqNo <= hi
  }

  /** WHERE seq >= lo AND seq <= hi ORDER BY seq. */
  function Between(rows: seq<Row>, lo: int, hi: int): seq<Row> {
    if rows == [] then [] else
      var last := rows[|rows| - 1];
      Between(rows[..|rows| - 1], lo, hi) + (if Within(last, lo, hi) then [last] else [])
  }

  function LastSeq(rows: seq<Row>): int {
    if rows == [] then 0 else rows[|rows| - 1].seqNo
  }

  function LastHash(rows: seq<Row>): string {
    PrevAt(rows, "", |rows|)
  }

  /** An entry to append; `stored` is what its JSONB column hands back. */
  datatype Entry = Entry(eventType: string, actor: string, subjectId: Option<string>, payload: Json, stored: Json)

  /** The column keeps the payload up to the order of its keys. */
  ghost predicate Storable(e: Entry) {
    Proper(e.payload) && Proper(e.stored) && Meaning(e.stored) == Meaning(Stored(e.payload))
  }

  /** The row appended for `e`: the payload is hashed as written and kept as stored. */
  function NewRow(digest: EntryDigest, rows: seq<Row>, e: Entry): Row {
    var prevHash := LastHash(rows);
    var written := Row(LastSeq(rows) + 1, e.eventType, e.actor, e.subjectId, e.payload, "", None);
    written.(payload := e.stored, entryHash := digest(prevHash, written),
      prevHash := if prevHash == "" then None else Some(prevHash))
  }

  function AppendAll(digest: EntryDigest, rows: seq<Row>, entries: seq<Entry>): seq<Row> {
    if entries == [] then rows else
      var before := AppendAll(digest, rows, entries[..|entries| - 1]);
      before + [NewRow(digest, before, entries[|entries| - 1])]
  }

  lemma AppendOneMore(digest: EntryDigest, rows: seq<Row>, entries: seq<Entry>, n: nat)
    requires n < |entries|
    ensures var before := AppendAll(digest, rows, entries[..n]);
            AppendAll(digest, rows, entries[..n + 1]) == before + [NewRow(digest, before, entries[n])]
  {
    assert entries[..n + 1][..n] == entries[..n];
  }

  /** A row carries its entry as stored, counts on from the row before it and points back to it. */
  ghost predicate Carries(digest: EntryDigest, row: Row, e: Entry, seqNo: int, prevHash: string) {
    && row.eventType == e.eventType && row.actor == e.actor && row.subjectId == e.subjectId && row.payload == e.stored
    && row.seqNo == seqNo && OrEmpty(row.prevHash) == prevHash && (row.prevHash == None <==> prevHash == "")
    && row.entryHash == digest(prevHash, row.(payload := e.payload, entryHash := "", prevHash := None))
  }

  /** What is appended is one row an entry, in order, behind all that was there. */
  lemma {:induction false} RowsCarryEntries(digest: EntryDigest, rows: seq<Row>, entries: seq<Entry>, i: nat)
    requires i < |entries|
    ensures var after := AppendAll(digest, rows, entries);
            && |after| == |rows| + |entries| && rows <= after
            && Carries(digest, after[|rows| + i], entries[i], LastSeq(rows) + 1 + i, PrevAt(after, "", |rows| + i))
    decreases |entries|
  {
    var before := entries[..|entries| - 1];
    if i < |before| {
      RowsCarryEntries(digest, rows, before, i);
    } else if before != [] {
      RowsCarryEntries(digest, rows, before, |before| - 1);
    }
  }

  datatype AppendError = EventTypeAndActorRequired

  class AuditLog {
    const digest: EntryDigest
    var rows: seq<Row>

    constructor (digest: EntryDigest)
      ensures this.digest == digest && rows == []
    {
      this.digest, rows := digest, [];
    }

    method Append(e: Entry) returns (r: Result<Row, AppendError>)
      modifies this
      ensures r.Err? <==> e.eventType == "" || e.actor == ""
      ensures r.Ok? ==> r.value == NewRow(digest, old(rows), e)
      ensures r.Ok? ==> Carries(digest, r.value, e, LastSeq(old(rows)) + 1, LastHash(old(rows)))
      ensures rows == if r.Ok? then old(rows) + [NewRow(digest, old(rows), e)] else old(rows)
    {
      if e.eventType == "" || e.actor == "" {
        return Err(EventTypeAndActorRequired);
      }
      var row := NewRow(digest, rows, e);
      rows := rows + [row];
      r := Ok(row);
    }

    /** Falsy subjects and payloads are replaced; event type and actor are not checked here. */
    method AppendBatch(entries: seq<Entry>) returns (results: seq<Row>)
      modifies this
      ensures rows == AppendAll(digest, old(rows), Defaults(entries)) == old(rows) + results
      ensures |results| == |entries|
    {
      results := [];
      for i := 0 to |entries|
        invariant |results| == i && rows == old(rows) + results
        invariant rows == AppendAll(digest, old(rows), Defaults(entries)[..i])
      {
        var row := NewRow(digest, rows, Default(entries[i]));
        AppendOneMore(digest, old(rows), Defaults(entries), i);
        rows, results := rows + [row], results + [row];
      }
      assert Defaults(entries)[..|entries|] == Defaults(entries);
    }

    /** Page by page, until a short page. */
    method Verify(batchSize: nat) returns (r: Verdict)
      ensures batchSize > 0 ==> FirstFailure(digest, rows, "", 1, r)
      ensures batchSize == 0 ==> r == Intact(0)
    {
      var checked: nat, prevHash, expected, offset := 0, "", 1, 0;
      while true
        invariant offset == checked <= |rows| && SoundUpTo(digest, rows, "", 1, checked)
        invariant prevHash == PrevAt(rows, "", checked) && expected == 1 + checked
        invariant batchSize == 0 ==> checked == 0
        decreases |rows| - offset
      {
        var page := rows[offset..if offset + batchSize <= |rows| then offset + batchSize else |rows|];
        if |page| == 0 { break; }
        for i := 0 to |page|
          invariant checked == offset + i && SoundUpTo(digest, rows, "", 1, checked)
          invariant prevHash == PrevAt(rows, "", checked) && expected == 1 + checked
        {
          var row := page[i];
          assert row == rows[checked];
          if row.seqNo != expected { return Broken(row.seqNo, Gap(expected), checked); }
          if OrEmpty(row.prevHash) != prevHash { return Broken(row.seqNo, PrevMismatch, checked); }
          if digest(prevHash, row) != row.entryHash { return Broken(row.seqNo, HashMismatch, checked); }
          prevHash, expected, checked := row.entryHash, row.seqNo + 1, checked + 1;
        }
        offset := offset + |page|;
        if |page| < batchSize { break; }
      }
      r := Intact(checked);
    }

    /** The hash a range starts from; none when the row before it is missing. */
    method RangeStart(fromSeq: int) returns (start: Option<string>)
      ensures start == if StartMissing(rows, fromSeq) then None else Some(Predecessor(rows, fromSeq))
    {
      if fromSeq <= 1 { return Some(""); }
      var found := Between(rows, fromSeq - 1, fromSeq - 1);
      if |found| == 0 { return None; }
      start := Some(found[0].entryHash);
    }

    method VerifyRange(fromSeq: int, toSeq: int) returns (r: Verdict)
      ensures RangeVerdict(digest, rows, fromSeq, toSeq, r)
    {
      var start := RangeStart(fromSeq);
      if start.None? { return Broken(fromSeq - 1, NoPredecessor, 0); }
      var segment := Between(rows, fromSeq, toSeq);
      var checked, expected, prevHash := 0, fromSeq, start.value;
      for i := 0 to |segment|
        invariant checked == i && SoundUpTo(digest, segment, start.value, fromSeq, checked)
        invariant prevHash == PrevAt(segment, start.value, checked) && expected == fromSeq + checked
      {
        var row := segment[i];
        if row.seqNo != expected { return Broken(row.seqNo, Gap(expected), checked); }
        if OrEmpty(row.prevHash) != prevHash { return Broken(row.seqNo, PrevMismatch, checked); }
        if digest(prevHash, row) != row.entryHash { return Broken(row.seqNo, HashMismatch, checked); }
        prevHash, expected, checked := row.entryHash, row.seqNo + 1, checked + 1;
      }
      r := Intact(checked);
    }
  }

  predicate Falsy(v: Json) {
    v == Null || v == Bool(false) || v == Number("0") || v == Text("")
  }

  function Default(e: Entry): Entry {
    e.(subjectId := if e.subjectId == Some("") then None else e.subjectId,
       payload := if Falsy(e.payload) then Object(NoFields) else e.payload)
  }

  /** An empty subject becomes none and a payload without content the empty object; nothing else changes. */
  lemma DefaultExactly(e: Entry)
    ensures Default(e).subjectId == None <==> e.subjectId == None || e.subjectId == Some("")
    ensures Default(e).subjectId.Some? ==> Default(e).subjectId == e.subjectId
    ensures Default(e).payload ==
            if e.payload in {Null, Bool(false), Number("0"), Text("")} then Object(NoFields) else e.payload
    ensures Default(e) == e.(subjectId := Default(e).subjectId, payload := Default(e).payload)
  {
  }

  function Defaults(entries: seq<Entry>): (r: seq<Entry>)
    ensures |r| == |entries| && forall i :: 0 <= i < |r| ==> r[i] == Default(entries[i])
  {
    if entries == [] then [] else Defaults(entries[..|entries| - 1]) + [Default(entries[|entries| - 1])]
  }

  predicate StartMissing(rows: seq<Row>, fromSeq: int) {
    fromSeq > 1 && Between(rows, fromSeq - 1, fromSeq - 1) == []
  }

  ghost predicate RangeVerdict(digest: EntryDigest, rows: seq<Row>, fromSeq: int, toSeq: int, r: Verdict) {
    if StartMissing(rows, fromSeq) then r == Broken(fromSeq - 1, NoPredecessor, 0)
    else FirstFailure(digest, Between(rows, fromSeq, toSeq), Predecessor(rows, fromSeq), fromSeq, r)
  }

  /** The hash a range starts from. */
  function Predecessor(rows: seq<Row>, fromSeq: int): string {
    if fromSeq > 1 && Between(rows, fromSeq - 1, fromSeq - 1) != []
      then Between(rows, fromSeq - 1, fromSeq - 1)[0].entryHash else ""
  }

  ghost predicate RangePasses(digest: EntryDigest, rows: seq<Row>, fromSeq: int, toSeq: int) {
    && !StartMissing(rows, fromSeq)
    && Sound(digest, Between(rows, fromSeq, toSeq), Predecessor(rows, fromSeq), fromSeq)
  }

  // ----- appending

  /** Appending neither repairs nor breaks what was there before. */
  lemma AppendKeepsFailures(digest: EntryDigest, rows: seq<Row>, row: Row, i: nat)
    requires i < |rows|
    ensures FailureAt(digest, rows + [row], "", 1, i) == FailureAt(digest, rows, "", 1, i)
  {
    assert (rows + [row])[i] == rows[i];
    assert i > 0 ==> (rows + [row])[i - 1] == rows[i - 1];
  }

  lemma {:induction false} SoundEnds(digest: EntryDigest, rows: seq<Row>)
    requires Sound(digest, rows, "", 1)
    ensures LastSeq(rows) == |rows| && Ordered(rows)
  {
    forall i | 0 <= i < |rows| ensures rows[i].seqNo == 1 + i {
      assert FailureAt(digest, rows, "", 1, i) == None;
    }
  }

  lemma OnlyEmptyHasNoHash(digest: EntryDigest, rows: seq<Row>)
    requires Sound(digest, rows, "", 1)
    ensures LastHash(rows) == "" <==> rows == []
  {
    if rows != [] { assert FailureAt(digest, rows, "", 1, |rows| - 1) == None; }
  }

  /** A passing log passes after an append. */
  lemma AppendKeepsSound(digest: EntryDigest, rows: seq<Row>, e: Entry)
    requires Storable(e) && Stable(digest)
    ensures Sound(digest, rows + [NewRow(digest, rows, e)], "", 1) <==> Sound(digest, rows, "", 1)
  {
    var row := NewRow(digest, rows, e);
    var after := rows + [row];
    forall i | 0 <= i < |rows| ensures FailureAt(digest, after, "", 1, i) == FailureAt(digest, rows, "", 1, i) {
      AppendKeepsFailures(digest, rows, row, i);
    }
    if Sound(digest, rows, "", 1) {
      NewRowStands(digest, rows, e);
    } else {
      var i :| 0 <= i < |rows| && FailureAt(digest, rows, "", 1, i) != None;
      assert FailureAt(digest, after, "", 1, i) != None;
    }
  }

  lemma NewRowStands(digest: EntryDigest, rows: seq<Row>, e: Entry)
    requires Storable(e) && Stable(digest) && Sound(digest, rows, "", 1)
    ensures FailureAt(digest, rows + [NewRow(digest, rows, e)], "", 1, |rows|) == None
  {
    SoundEnds(digest, rows);
    OnlyEmptyHasNoHash(digest, rows);
    var prevHash := LastHash(rows);
    var written := Row(LastSeq(rows) + 1, e.eventType, e.actor, e.subjectId, e.payload, "", None);
    assert HashesAlike(digest, prevHash, written, NewRow(digest, rows, e));
    assert PrevAt(rows + [NewRow(digest, rows, e)], "", |rows|) == prevHash;
  }

  lemma {:induction false} AppendAllKeepsSound(digest: EntryDigest, rows: seq<Row>, entries: seq<Entry>)
    requires Stable(digest) && forall i :: 0 <= i < |entries| ==> Storable(entries[i])
    ensures Sound(digest, AppendAll(digest, rows, entries), "", 1) <==> Sound(digest, rows, "", 1)
  {
    if entries != [] {
      AppendAllKeepsSound(digest, rows, entries[..|entries| - 1]);
      AppendKeepsSound(digest, AppendAll(digest, rows, entries[..|entries| - 1]), entries[|entries| - 1]);
    }
  }

  // ----- ranges

  lemma {:induction false} BetweenIsSlice(rows: seq<Row>, lo: int, hi: int, a: nat, b: nat)
    requires a <= b <= |rows|
    requires forall i :: 0 <= i < |rows| ==> (Within(rows[i], lo, hi) <==> a <= i < b)
    ensures Between(rows, lo, hi) == rows[a..b]
  {
    if rows != [] {
      var n := |rows| - 1;
      assert Within(rows[n], lo, hi) <==> a <= n < b;
      forall i | 0 <= i < n ensures Within(rows[..n][i], lo, hi) <==> a <= i < b { assert rows[..n][i] == rows[i]; }
      if b == |rows| {
        if a == b {
          BetweenIsSlice(rows[..n], lo, hi, n, n);
        } else {
          BetweenIsSlice(rows[..n], lo, hi, a, n);
          assert rows[..n][a..n] + [rows[n]] == rows[a..b];
        }
      } else {
        BetweenIsSlice(rows[..n], lo, hi, a, b);
        assert rows[..n][a..b] == rows[a..b];
      }
    }
  }

  /** Where an ordered table is cut by a number. */
  lemma {:induction false} Cut(rows: seq<Row>, k: int) returns (m: nat)
    requires Ordered(rows)
    ensures m <= |rows|
    ensures forall i :: 0 <= i < |rows| ==> (rows[i].seqNo <= k <==> i < m)
  {
    if rows == [] || rows[|rows| - 1].seqNo <= k {
      m := |rows|;
    } else {
      m := Cut(rows[..|rows| - 1], k);
    }
  }

  lemma SliceFailure(digest: EntryDigest, rows: seq<Row>, a: nat, b: nat, start: string, first: int, i: nat)
    requires a <= b <= |rows| && i < b - a
    requires PrevAt(rows, "", a) == start && first == 1 + a
    ensures FailureAt(digest, rows[a..b], start, first, i) == FailureAt(digest, rows, "", 1, a + i)
  {
    assert rows[a..b][i] == rows[a + i];
    assert i > 0 ==> rows[a..b][i - 1] == rows[a + i - 1];
  }

  /** A stretch of a passing log passes as a range. */
  lemma SoundRange(digest: EntryDigest, rows: seq<Row>, lo: nat, hi: nat)
    requires Sound(digest, rows, "", 1) && 1 <= lo <= hi + 1 <= |rows| + 1
    ensures RangePasses(digest, rows, lo, hi)
  {
    forall i | 0 <= i < |rows| ensures rows[i].seqNo == 1 + i {
      assert FailureAt(digest, rows, "", 1, i) == None;
    }
    BetweenIsSlice(rows, lo, hi, lo - 1, hi);
    if lo > 1 { BetweenIsSlice(rows, lo - 1, lo - 1, lo - 2, lo - 1); }
    var segment, start := rows[lo - 1..hi], Predecessor(rows, lo);
    forall i | 0 <= i < |segment| ensures FailureAt(digest, segment, start, lo, i) == None {
      SliceFailure(digest, rows, lo - 1, hi, start, lo, i);
    }
  }

  lemma OneRow(rows: seq<Row>, k: int, m: nat)
    requires Ordered(rows) && m <= |rows|
    requires forall i :: 0 <= i < |rows| ==> (rows[i].seqNo <= k <==> i < m)
    ensures Between(rows, k, k) != [] ==> m > 0 && rows[m - 1].seqNo == k && Between(rows, k, k) == [rows[m - 1]]
  {
    if m > 0 && rows[m - 1].seqNo == k {
      BetweenIsSlice(rows, k, k, m - 1, m);
    } else {
      BetweenIsSlice(rows, k, k, m, m);
    }
  }

  /** The whole log passes exactly when both halves of any split pass and no row is numbered below one. */
  lemma SplitAnywhere(digest: EntryDigest, rows: seq<Row>, k: int)
    requires Ordered(rows) && 0 <= k <= LastSeq(rows)
    ensures Sound(digest, rows, "", 1) <==>
            (forall i :: 0 <= i < |rows| ==> rows[i].seqNo >= 1) && RangePasses(digest, rows, 1, k) &&
              RangePasses(digest, rows, k + 1, LastSeq(rows))
  {
    if Sound(digest, rows, "", 1) {
      SoundEnds(digest, rows);
      forall i | 0 <= i < |rows| ensures rows[i].seqNo >= 1 {
        assert FailureAt(digest, rows, "", 1, i) == None;
      }
      SoundRange(digest, rows, 1, k);
      SoundRange(digest, rows, k + 1, LastSeq(rows));
    }
    if (forall i :: 0 <= i < |rows| ==> rows[i].seqNo >= 1) && RangePasses(digest, rows, 1, k) &&
      RangePasses(digest, rows, k + 1, LastSeq(rows))
    {
      RangesMakeWhole(digest, rows, k);
    }
  }

  /** When the range up to `k` passes and row `k` exists, the first `k` rows are rows 1 to `k`. */
  lemma FirstPart(digest: EntryDigest, rows: seq<Row>, k: int, m: nat)
    requires Ordered(rows) && m <= |rows| && 0 <= k && forall i :: 0 <= i < |rows| ==> rows[i].seqNo >= 1
    requires forall i :: 0 <= i < |rows| ==> (rows[i].seqNo <= k <==> i < m)
    requires Sound(digest, rows[..m], "", 1) && (k >= 1 ==> Between(rows, k, k) != [])
    ensures SoundUpTo(digest, rows, "", 1, m) && m == k && Predecessor(rows, k + 1) == PrevAt(rows, "", m)
  {
    assert rows[0..m] == rows[..m];
    assert rows != [] ==> (rows[0].seqNo <= k <==> 0 < m);
    forall i | 0 <= i < m ensures FailureAt(digest, rows, "", 1, i) == None {
      SliceFailure(digest, rows, 0, m, "", 1, i);
    }
    if k >= 1 {
      OneRow(rows, k, m);
      assert FailureAt(digest, rows, "", 1, m - 1) == None;
    }
  }

  lemma SecondPart(digest: EntryDigest, rows: seq<Row>, m: nat)
    requires m <= |rows| && SoundUpTo(digest, rows, "", 1, m)
    requires Sound(digest, rows[m..], PrevAt(rows, "", m), m + 1)
    ensures Sound(digest, rows, "", 1)
  {
    assert rows[m..|rows|] == rows[m..];
    forall i | m <= i < |rows| ensures FailureAt(digest, rows, "", 1, i) == None {
      SliceFailure(digest, rows, m, |rows|, PrevAt(rows, "", m), m + 1, i - m);
    }
  }

  lemma RangesMakeWhole(digest: EntryDigest, rows: seq<Row>, k: int)
    requires Ordered(rows) && 0 <= k <= LastSeq(rows) && forall i :: 0 <= i < |rows| ==> rows[i].seqNo >= 1
    requires RangePasses(digest, rows, 1, k) && RangePasses(digest, rows, k + 1, LastSeq(rows))
    ensures Sound(digest, rows, "", 1)
  {
    var n := LastSeq(rows);
    var m := Cut(rows, k);
    BetweenIsSlice(rows, 1, k, 0, m);
    BetweenIsSlice(rows, k + 1, n, m, |rows|);
    assert rows[0..m] == rows[..m] && rows[m..|rows|] == rows[m..];
    FirstPart(digest, rows, k, m);
    SecondPart(digest, rows, m);
  }

  // ----- tamper evidence

  predicate NoBar(s: string) {
    '|' !in s
  }

  function UpToBar(s: string): string {
    if s == [] || s[0] == '|' then [] else [s[0]] + UpToBar(s[1..])
  }

  lemma {:induction false} BarEnds(x: string, y: string)
    requires NoBar(x)
    ensures UpToBar(x + "|" + y) == x
  {
    if x != [] {
      assert (x + "|" + y)[1..] == x[1..] + "|" + y;
      BarEnds(x[1..], y);
    }
  }

  lemma SplitAtBar(x: string, y: string, u: string, v: string)
    requires NoBar(x) && NoBar(u) && x + "|" + y == u + "|" + v
    ensures x == u && y == v
  {
    BarEnds(x, y);
    BarEnds(u, v);
    assert y == (x + "|" + y)[|x| + 1..] && v == (u + "|" + v)[|u| + 1..];
  }

  lemma SeqTextPlain(n: nat)
    ensures NoBar(SeqText(n))
  {
    var text := Decimal.Text(n);
    forall i | 0 <= i < |text| ensures text[i] != '|' {
      assert Decimal.IsDigit(text[i]);
    }
  }

  /** The hashed text gives back the previous hash, the number and the joined rest. */
  lemma HashInputDetermines(p: string, m: nat, x: string, q: string, n: nat, y: string)
    requires NoBar(p) && NoBar(q) && HashInput(p, m, x) == HashInput(q, n, y)
    ensures p == q && m == n && x == y
  {
    assert HashInput(p, m, x) == p + "|" + (SeqText(m) + "|" + x);
    assert HashInput(q, n, y) == q + "|" + (SeqText(n) + "|" + y);
    SplitAtBar(p, SeqText(m) + "|" + x, q, SeqText(n) + "|" + y);
    SeqTextPlain(m);
    SeqTextPlain(n);
    SplitAtBar(SeqText(m), x, SeqText(n), y);
    Decimal.TextInjective(m, n);
  }

  function InputAt(rows: seq<Row>, i: nat): string
    requires i < |rows|
  {
    HashInput(PrevAt(rows, "", i), rows[i].seqNo, TailOf(rows[i]))
  }

  /** Every text hashed in a log. */
  ghost function Inputs(rows: seq<Row>): set<string> {
    set i | 0 <= i < |rows| :: InputAt(rows, i)
  }

  /**
   Where the two rows hash alike, they are hashed after the same hash, under the same number, with
   the same fields.
   */
  ghost predicate Bound(digest: EntryDigest, a: seq<Row>, b: seq<Row>, i: nat, j: nat) {
    i < |a| && j < |b| && digest(PrevAt(a, "", i), a[i]) == digest(PrevAt(b, "", j), b[j]) ==>
      && PrevAt(a, "", i) == PrevAt(b, "", j) && a[i].seqNo == b[j].seqNo && SameFields(a[i], b[j])
  }

  ghost predicate AllBound(digest: EntryDigest, a: seq<Row>, b: seq<Row>) {
    forall i: nat, j: nat :: Bound(digest, a, b, i, j)
  }

  /** Passing logs are bound by SHA-256, as far as it has no collisions on their texts. */
  lemma HashesBind(hash: TextHash, a: seq<Row>, b: seq<Row>)
    requires Sound(ComputeEntryHash(hash), a, "", 1) && Sound(ComputeEntryHash(hash), b, "", 1)
    requires Bytes.CollisionFree<EntryHash, string>(hash, Inputs(a) + Inputs(b))
    ensures AllBound(ComputeEntryHash(hash), a, b)
  {
    var digest := ComputeEntryHash(hash);
    forall i: nat, j: nat ensures Bound(digest, a, b, i, j) {
      if i < |a| && j < |b| && digest(PrevAt(a, "", i), a[i]) == digest(PrevAt(b, "", j), b[j]) {
        SoundRow(digest, a, i);
        SoundRow(digest, b, j);
        EntryHashOf(hash, PrevAt(a, "", i), a[i]);
        EntryHashOf(hash, PrevAt(b, "", j), b[j]);
        assert InputAt(a, i) in Inputs(a) && InputAt(b, j) in Inputs(b);
        HashInputDetermines(PrevAt(a, "", i), 1 + i, TailOf(a[i]), PrevAt(b, "", j), 1 + j, TailOf(b[j]));
      }
    }
  }

  ghost predicate SameRow(a: Row, b: Row) {
    a.seqNo == b.seqNo && OrEmpty(a.prevHash) == OrEmpty(b.prevHash) && a.entryHash == b.entryHash && SameFields(a, b)
  }

  /** The joined event type, actor, subject and payload agree. */
  ghost predicate SameFields(a: Row, b: Row) {
    TailOf(a) == TailOf(b)
  }

  lemma SoundRow(digest: EntryDigest, rows: seq<Row>, i: nat)
    requires Sound(digest, rows, "", 1) && i < |rows|
    ensures rows[i].seqNo == 1 + i && rows[i].entryHash == digest(PrevAt(rows, "", i), rows[i])
    ensures OrEmpty(rows[i].prevHash) == PrevAt(rows, "", i) && NoBar(PrevAt(rows, "", i))
  {
    assert FailureAt(digest, rows, "", 1, i) == None;
    if i > 0 {
      assert FailureAt(digest, rows, "", 1, i - 1) == None;
      HashHasNoBar(digest(PrevAt(rows, "", i - 1), rows[i - 1]));
    }
  }

  lemma HashHasNoBar(h: EntryHash)
    ensures NoBar(h)
  {
    forall i | 0 <= i < |h| ensures h[i] != '|' { assert InBase64(h[i]); }
  }

  lemma SharedHashSharedRow(digest: EntryDigest, a: seq<Row>, b: seq<Row>, i: nat, j: nat)
    requires Sound(digest, a, "", 1) && Sound(digest, b, "", 1) && AllBound(digest, a, b)
    requires i < |a| && j < |b| && a[i].entryHash == b[j].entryHash
    ensures i == j && SameRow(a[i], b[j]) && PrevAt(a, "", i) == PrevAt(b, "", j)
  {
    SoundRow(digest, a, i);
    SoundRow(digest, b, j);
    assert Bound(digest, a, b, i, j);
  }

  /** Two passing logs that share one entry hash share everything up to it. */
  lemma {:induction false} SharedHashSharedPast(digest: EntryDigest, a: seq<Row>, b: seq<Row>, i: nat, j: nat, h: nat)
    requires Sound(digest, a, "", 1) && Sound(digest, b, "", 1) && AllBound(digest, a, b)
    requires i < |a| && j < |b| && a[i].entryHash == b[j].entryHash && h <= i
    ensures i == j && SameRow(a[h], b[h])
  {
    SharedHashSharedRow(digest, a, b, i, j);
    if h < i { SharedHashSharedPast(digest, a, b, i - 1, j - 1, h); }
  }

  /** If the logs meet in rows `i` and `j`, these are the same row, and so is each row before. */
  ghost predicate Meet(a: seq<Row>, b: seq<Row>, i: nat, j: nat, h: nat) {
    i < |a| && j < |b| && a[i].entryHash == b[j].entryHash && h <= i ==> i == j && SameRow(a[h], b[h])
  }

  lemma LogsMeet(digest: EntryDigest, a: seq<Row>, b: seq<Row>)
    requires Sound(digest, a, "", 1) && Sound(digest, b, "", 1) && AllBound(digest, a, b)
    ensures forall i: nat, j: nat, h: nat :: Meet(a, b, i, j, h)
  {
    forall i: nat, j: nat, h: nat ensures Meet(a, b, i, j, h) {
      if i < |a| && j < |b| && a[i].entryHash == b[j].entryHash && h <= i {
        SharedHashSharedPast(digest, a, b, i, j, h);
      }
    }
  }

  /** Tamper evidence: the last hash of a passing log fixes its length and every row. */
  lemma LastHashBindsLog(hash: TextHash, a: seq<Row>, b: seq<Row>)
    requires Sound(ComputeEntryHash(hash), a, "", 1) && Sound(ComputeEntryHash(hash), b, "", 1)
    requires Bytes.CollisionFree<EntryHash, string>(hash, Inputs(a) + Inputs(b))
    requires LastHash(a) == LastHash(b)
    ensures |a| == |b| && forall h :: 0 <= h < |a| ==> SameRow(a[h], b[h])
  {
    HashesBind(hash, a, b);
    LastMeet(ComputeEntryHash(hash), a, b);
  }

  lemma LastMeet(digest: EntryDigest, a: seq<Row>, b: seq<Row>)
    requires Sound(digest, a, "", 1) && Sound(digest, b, "", 1) && AllBound(digest, a, b) && LastHash(a) == LastHash(b)
    ensures |a| == |b| && forall h :: 0 <= h < |a| ==> SameRow(a[h], b[h])
  {
    OnlyEmptyHasNoHash(digest, a);
    OnlyEmptyHasNoHash(digest, b);
    LogsMeet(digest, a, b);
    if a != [] {
      var i, j := |a| - 1, |b| - 1;
      forall h: nat | h <= i ensures i == j && SameRow(a[h], b[h]) { assert Meet(a, b, i, j, h); }
      assert Meet(a, b, i, j, 0);
    }
  }

  // ----- what the joined text tells of the fields

  ghost predicate SameMeaning(a: Row, b: Row) {
    && a.eventType == b.eventType && a.actor == b.actor && OrEmpty(a.subjectId) == OrEmpty(b.subjectId)
    && Meaning(Stored(a.payload)) == Meaning(Stored(b.payload))
  }

  /** The texts before the payload hold no bar. */
  predicate Plain(row: Row) {
    NoBar(row.eventType) && NoBar(row.actor) && NoBar(OrEmpty(row.subjectId))
  }

  ghost predicate Tells(a: Row, b: Row) {
    Proper(b.payload) && SameFields(a, b) ==> SameMeaning(a, b)
  }

  /** Whatever row has the joined text of `row` has its fields, the payload up to key order. */
  ghost predicate Determined(row: Row) {
    forall b :: Tells(row, b)
  }

  function Front(row: Row): string {
    row.eventType + "|" + (row.actor + "|" + OrEmpty(row.subjectId))
  }

  function PayloadText(row: Row): string {
    Print(Stored(row.payload))
  }

  lemma TailShape(row: Row)
    ensures TailOf(row) == Front(row) + ("|" + PayloadText(row))
  {
    assert Print(Object(NoFields)) == "{" + "" + "}";
    assert DeterministicJson(row.payload) == PayloadText(row);
    JoinFour(row.eventType, row.actor, OrEmpty(row.subjectId), PayloadText(row));
  }

  lemma JoinFour(e: string, c: string, t: string, p: string)
    ensures e + "|" + c + "|" + t + "|" + p == e + "|" + (c + "|" + t) + ("|" + p)
  {
  }

  /**
   Of two ways to cut a text at a bar, the one with the longer front has the shorter rest, which
   ends the other rest after a bar.
   */
  lemma LaterCut(x: string, y: string, u: string, v: string)
    requires x + ("|" + y) == u + ("|" + v) && |x| < |u|
    ensures y == y[..|u| - |x| - 1] + ("|" + v)
  {
    var text := x + ("|" + y);
    assert y == text[|x| + 1..];
    assert "|" + v == text[|u|..];
    assert y[|u| - |x| - 1..] == text[|u|..];
  }

  lemma SameCut(x: string, y: string, u: string, v: string)
    requires x + ("|" + y) == u + ("|" + v) && |x| == |u|
    ensures x == u && y == v
  {
    var text := x + ("|" + y);
    assert x == text[..|x|] && u == text[..|u|];
    assert y == text[|x| + 1..] && v == text[|u| + 1..];
  }

  /** A payload's text starts at one place only. */
  lemma FrontsAgree(a: Row, b: Row)
    requires SameFields(a, b) && Proper(a.payload) && Proper(b.payload)
    ensures Front(a) == Front(b) && PayloadText(a) == PayloadText(b)
  {
    var p, q, u, v := PayloadText(a), PayloadText(b), Front(a), Front(b);
    TailShape(a);
    TailShape(b);
    if |u| < |v| {
      LaterCut(u, p, v, q);
      NoPrintEndsAnother(Stored(a.payload), Stored(b.payload), p[..|v| - |u| - 1]);
    } else if |v| < |u| {
      LaterCut(v, q, u, p);
      NoPrintEndsAnother(Stored(b.payload), Stored(a.payload), q[..|u| - |v| - 1]);
    } else {
      SameCut(u, p, v, q);
    }
  }

  function Bars(x: string): nat {
    if x == [] then 0 else (if x[0] == '|' then 1 else 0) + Bars(x[1..])
  }

  lemma {:induction false} BarsAdd(x: string, y: string)
    ensures Bars(x + y) == Bars(x) + Bars(y)
  {
    if x == [] {
      assert x + y == y;
    } else {
      assert x + y == [x[0]] + (x[1..] + y);
      BarsAdd(x[1..], y);
    }
  }

  lemma {:induction false} NoBarsExactly(x: string)
    ensures Bars(x) == 0 <==> NoBar(x)
  {
    if x != [] {
      NoBarsExactly(x[1..]);
      assert x == [x[0]] + x[1..];
    }
  }

  lemma BarsOfFront(row: Row)
    ensures Bars(Front(row)) == 2 + Bars(row.eventType) + Bars(row.actor) + Bars(OrEmpty(row.subjectId))
  {
    BarsAdd(row.eventType + "|", row.actor + "|" + OrEmpty(row.subjectId));
    BarsAdd(row.eventType, "|");
    BarsAdd(row.actor + "|", OrEmpty(row.subjectId));
    BarsAdd(row.actor, "|");
  }

  lemma PlainExactly(row: Row)
    ensures Plain(row) <==> Bars(Front(row)) == 2
  {
    BarsOfFront(row);
    NoBarsExactly(row.eventType);
    NoBarsExactly(row.actor);
    NoBarsExactly(OrEmpty(row.subjectId));
  }

  lemma PlainTells(a: Row, b: Row)
    requires Plain(a) && Proper(a.payload) && Proper(b.payload) && SameFields(a, b)
    ensures SameMeaning(a, b)
  {
    FrontsAgree(a, b);
    PlainExactly(a);
    PlainExactly(b);
    SplitAtBar(a.eventType, a.actor + "|" + OrEmpty(a.subjectId), b.eventType, b.actor + "|" + OrEmpty(b.subjectId));
    SplitAtBar(a.actor, OrEmpty(a.subjectId), b.actor, OrEmpty(b.subjectId));
    PrintIsCanonical(Stored(a.payload), Stored(b.payload));
  }

  function AfterBar(s: string): string {
    if s == [] then [] else if s[0] == '|' then s[1..] else AfterBar(s[1..])
  }

  lemma {:induction false} CutAtBar(s: string)
    requires !NoBar(s)
    ensures |UpToBar(s)| < |s| && s == UpToBar(s) + "|" + AfterBar(s)
  {
    assert s == [s[0]] + s[1..];
    if s[0] != '|' { CutAtBar(s[1..]); }
  }

  lemma EventBarMoves(x: string, y: string, c: string, t: string)
    ensures (x + "|" + y) + "|" + (c + "|" + t) == x + "|" + ((y + "|" + c) + "|" + t)
  {
  }

  lemma ActorBarMoves(e: string, x: string, y: string, t: string)
    ensures e + "|" + ((x + "|" + y) + "|" + t) == e + "|" + (x + "|" + (y + "|" + t))
  {
    assert (x + "|" + y) + "|" + t == x + "|" + (y + "|" + t);
  }

  lemma SubjectBarMoves(e: string, c: string, x: string, y: string)
    ensures e + "|" + (c + "|" + (x + "|" + y)) == (e + "|" + c) + "|" + (x + "|" + y)
  {
  }

  /** Another row with the same joined text: the boundary of a field moved to a bar. */
  function Twin(row: Row): Row
    requires !Plain(row)
  {
    var subject := OrEmpty(row.subjectId);
    if !NoBar(row.eventType) then
      row.(eventType := UpToBar(row.eventType), actor := AfterBar(row.eventType) + "|" + row.actor)
    else if !NoBar(row.actor) then
      row.(actor := UpToBar(row.actor), subjectId := Some(AfterBar(row.actor) + "|" + subject))
    else
      row.(eventType := row.eventType + "|" + row.actor, actor := UpToBar(subject),
        subjectId := Some(AfterBar(subject)))
  }

  lemma TwinSharesFront(row: Row)
    requires !Plain(row)
    ensures Front(Twin(row)) == Front(row) && !SameMeaning(row, Twin(row))
  {
    var e, c, t := row.eventType, row.actor, OrEmpty(row.subjectId);
    if !NoBar(e) {
      CutAtBar(e);
      EventBarMoves(UpToBar(e), AfterBar(e), c, t);
    } else if !NoBar(c) {
      CutAtBar(c);
      ActorBarMoves(e, UpToBar(c), AfterBar(c), t);
    } else {
      CutAtBar(t);
      SubjectBarMoves(e, c, UpToBar(t), AfterBar(t));
    }
  }

  lemma TwinBlurs(row: Row)
    requires !Plain(row)
    ensures SameFields(row, Twin(row)) && !SameMeaning(row, Twin(row))
  {
    TailShape(row);
    TailShape(Twin(row));
    TwinSharesFront(row);
  }

  /** The joined text fixes the fields of a row exactly when the texts before the payload hold no bar. */
  lemma TailDetermines(row: Row)
    requires Proper(row.payload)
    ensures Determined(row) <==> Plain(row)
  {
    if Plain(row) {
      forall b ensures Tells(row, b) {
        if Proper(b.payload) && SameFields(row, b) { PlainTells(row, b); }
      }
    } else {
      TwinBlurs(row);
      assert !Tells(row, Twin(row));
    }
  }

  /** In a log that passes, each row with a bar can be replaced by another row, and the log still passes. */
  lemma BarsBlurFields(hash: TextHash, rows: seq<Row>, start: string, first: int, i: nat)
    requires Sound(ComputeEntryHash(hash), rows, start, first) && i < |rows| && !Plain(rows[i])
    ensures Sound(ComputeEntryHash(hash), rows[i := Twin(rows[i])], start, first) &&
              !SameMeaning(rows[i], Twin(rows[i]))
  {
    var digest, after := ComputeEntryHash(hash), rows[i := Twin(rows[i])];
    TwinBlurs(rows[i]);
    forall j | 0 <= j < |after| ensures FailureAt(digest, after, start, first, j) == None {
      assert FailureAt(digest, rows, start, first, j) == None;
      assert PrevAt(after, start, j) == PrevAt(rows, start, j);
      EntryHashOf(hash, PrevAt(rows, start, j), rows[j]);
      EntryHashOf(hash, PrevAt(rows, start, j), after[j]);
    }
  }
}
