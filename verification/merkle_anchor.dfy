/**
 backend/src/audit/MerkleAnchor.js, the anchoring of the log, and the on-demand route of
 backend/src/routes/compliance.js. The table updates of one anchoring are separate statements,
 so it can stop between any two of them.
 */
module MerkleAnchor {
  import opened Bytes
  import opened Outcomes
  import opened AuditChain
  import opened AuditTree
  import opened JsonText
  import MerkleTree
  import OrderedTree
  import Utf8

  datatype Status = Pending | Submitted | Confirmed | Failed

  /** A merkle_anchors row. */
  datatype Anchor = Anchor(fromSeq: int, toSeq: int, entryCount: nat, merkleRoot: Digest, status: Status)

  datatype AnchorError = EmptyRange | NoEntries

  /** What the chain answers: no contract is configured, it takes the root, or it fails. */
  datatype Outcome = NoContract | Taken | Refused

  datatype Stop = Completes | BeforeUpdate | BeforeEntry

  /** One anchoring: the answer, where it stops, and the payload of its own log entry, as written and as stored. */
  datatype Attempt = Attempt(outcome: Outcome, stop: Stop, payload: Json, stored: Json)

  predicate Live(a: Anchor) {
    a.status == Submitted || a.status == Confirmed
  }

  function StatusAfter(outcome: Outcome): Status {
    match outcome
    case NoContract => Submitted
    case Taken => Confirmed
    case Refused => Failed
  }

  function Notice(attempt: Attempt): Entry {
    Entry(if attempt.outcome == Taken then "MERKLE_ANCHOR_CONFIRMED" else "MERKLE_ANCHOR_SUBMITTED", "system", None,
      attempt.payload, attempt.stored)
  }

  function EntryHashes(rows: seq<Row>): (hashes: seq<string>)
    ensures |hashes| == |rows| && forall i :: 0 <= i < |rows| ==> hashes[i] == rows[i].entryHash
  {
    seq(|rows|, i requires 0 <= i < |rows| => rows[i].entryHash)
  }

  /** COALESCE(MAX(to_seq), 0) over the submitted and confirmed anchors. */
  function LastAnchored(anchors: seq<Anchor>): int {
    if anchors == [] then 0 else
      var before, last := LastAnchored(anchors[..|anchors| - 1]), anchors[|anchors| - 1];
      if Live(last) && last.toSeq > before then last.toSeq else before
  }

  // ----- one anchoring, and runs of them

  datatype State = State(rows: seq<Row>, anchors: seq<Anchor>)

  function Fresh(g: Hashing, rows: seq<Row>, fromSeq: int, toSeq: int): Anchor {
    var hashes := EntryHashes(Between(rows, fromSeq, toSeq));
    Anchor(fromSeq, toSeq, |hashes|, RootOf(g, hashes), Pending)
  }

  function Anchored(g: Hashing, digest: EntryDigest, s: State, fromSeq: int, toSeq: int, attempt: Attempt): State {
    var anchor := Fresh(g, s.rows, fromSeq, toSeq);
    if attempt.stop == BeforeUpdate then s.(anchors := s.anchors + [anchor])
    else State(if attempt.stop == BeforeEntry then s.rows else s.rows + [NewRow(digest, s.rows, Notice(attempt))],
               s.anchors + [anchor.(status := StatusAfter(attempt.outcome))])
  }

  datatype Event = Append(entry: Entry) | Scheduled(elapsed: bool, attempt: Attempt) | OnDemand(attempt: Attempt)

  function Next(g: Hashing, digest: EntryDigest, interval: int, s: State, event: Event): State {
    var last, max := LastAnchored(s.anchors), LastSeq(s.rows);
    match event
    case Append(e) => if e.eventType == "" || e.actor == "" then s else s.(rows := s.rows + [NewRow(digest, s.rows, e)])
    case Scheduled(elapsed, attempt) =>
      if max <= last || (max - last < interval && !elapsed) then s else Anchored(g, digest, s, last + 1, max, attempt)
    case OnDemand(attempt) => if max <= last then s else Anchored(g, digest, s, last + 1, max, attempt)
  }

  function Run(g: Hashing, digest: EntryDigest, interval: int, events: seq<Event>): State {
    if events == [] then State([], []) else
      Next(g, digest, interval, Run(g, digest, interval, events[..|events| - 1]), events[|events| - 1])
  }

  lemma EventsAddUp(g: Hashing, digest: EntryDigest, interval: int, events: seq<Event>, event: Event)
    ensures Run(g, digest, interval, []) == State([], [])
    ensures Run(g, digest, interval, events + [event]) ==
              Next(g, digest, interval, Run(g, digest, interval, events), event)
  {
    assert (events + [event])[..|events|] == events;
  }

  // ----- the invariant

  ghost predicate Numbered(rows: seq<Row>) {
    forall i :: 0 <= i < |rows| ==> rows[i].seqNo == i + 1
  }

  /** Anchor `a` covers the rows after `after`, and its root is theirs. */
  ghost predicate Covers(g: Hashing, rows: seq<Row>, a: Anchor, after: int) {
    && 0 <= after < a.toSeq <= |rows| && a.fromSeq == after + 1 && a.entryCount == a.toSeq - after
    && a.merkleRoot == RootOf(g, EntryHashes(rows[after..a.toSeq]))
  }

  /** Each live anchor starts where the one before it ended. */
  ghost predicate Tiles(g: Hashing, rows: seq<Row>, anchors: seq<Anchor>) {
    anchors != [] ==>
      var before, last := anchors[..|anchors| - 1], anchors[|anchors| - 1];
      Tiles(g, rows, before) && (Live(last) ==> Covers(g, rows, last, LastAnchored(before)))
  }

  ghost predicate Good(g: Hashing, s: State) {
    Numbered(s.rows) && Tiles(g, s.rows, s.anchors)
  }

  lemma {:induction false} LastAnchoredInLog(g: Hashing, rows: seq<Row>, anchors: seq<Anchor>)
    requires Tiles(g, rows, anchors)
    ensures 0 <= LastAnchored(anchors) <= |rows|
  {
    if anchors != [] { LastAnchoredInLog(g, rows, anchors[..|anchors| - 1]); }
  }

  lemma NumberedRange(rows: seq<Row>, after: nat, toSeq: nat)
    requires Numbered(rows) && after <= toSeq <= |rows|
    ensures Between(rows, after + 1, toSeq) == rows[after..toSeq]
  {
    BetweenIsSlice(rows, after + 1, toSeq, after, toSeq);
  }

  lemma {:induction false} TilesGrow(g: Hashing, rows: seq<Row>, row: Row, anchors: seq<Anchor>)
    requires Tiles(g, rows, anchors)
    ensures Tiles(g, rows + [row], anchors)
  {
    if anchors != [] {
      var before, last := anchors[..|anchors| - 1], anchors[|anchors| - 1];
      TilesGrow(g, rows, row, before);
      if Live(last) {
        assert (rows + [row])[LastAnchored(before)..last.toSeq] == rows[LastAnchored(before)..last.toSeq];
      }
    }
  }

  lemma AppendKeepsGood(g: Hashing, digest: EntryDigest, s: State, e: Entry)
    requires Good(g, s)
    ensures Good(g, s.(rows := s.rows + [NewRow(digest, s.rows, e)]))
  {
    TilesGrow(g, s.rows, NewRow(digest, s.rows, e), s.anchors);
  }

  lemma NewAnchorTiles(g: Hashing, s: State, status: Status)
    requires Good(g, s) && LastAnchored(s.anchors) < LastSeq(s.rows)
    ensures Tiles(g, s.rows,
              s.anchors + [Fresh(g, s.rows, LastAnchored(s.anchors) + 1, LastSeq(s.rows)).(status := status)])
  {
    var after := LastAnchored(s.anchors);
    LastAnchoredInLog(g, s.rows, s.anchors);
    NumberedRange(s.rows, after, |s.rows|);
    var anchor := Fresh(g, s.rows, after + 1, LastSeq(s.rows)).(status := status);
    assert Covers(g, s.rows, anchor, after);
    assert (s.anchors + [anchor])[..|s.anchors|] == s.anchors;
  }

  lemma AnchoredKeepsGood(g: Hashing, digest: EntryDigest, s: State, attempt: Attempt)
    requires Good(g, s) && LastAnchored(s.anchors) < LastSeq(s.rows)
    ensures Good(g, Anchored(g, digest, s, LastAnchored(s.anchors) + 1, LastSeq(s.rows), attempt))
  {
    NewAnchorTiles(g, s, Pending);
    NewAnchorTiles(g, s, StatusAfter(attempt.outcome));
    if attempt.stop == Completes {
      var after := Anchored(g, digest, s, LastAnchored(s.anchors) + 1, LastSeq(s.rows), attempt);
      AppendKeepsGood(g, digest, State(s.rows, after.anchors), Notice(attempt));
    }
  }

  /** A check changes nothing, or anchors all that is not anchored yet. */
  ghost predicate Checked(g: Hashing, digest: EntryDigest, s: State, r: State, attempt: Attempt) {
    || r == s
    || (LastAnchored(s.anchors) < LastSeq(s.rows) &&
        r == Anchored(g, digest, s, LastAnchored(s.anchors) + 1, LastSeq(s.rows), attempt))
  }

  lemma CheckKeepsGood(g: Hashing, digest: EntryDigest, s: State, r: State, attempt: Attempt)
    requires Good(g, s) && Checked(g, digest, s, r, attempt)
    ensures Good(g, r)
  {
    if r != s { AnchoredKeepsGood(g, digest, s, attempt); }
  }

  lemma EventChecks(g: Hashing, digest: EntryDigest, interval: int, s: State, elapsed: bool, attempt: Attempt)
    ensures Checked(g, digest, s, Next(g, digest, interval, s, Scheduled(elapsed, attempt)), attempt)
    ensures Checked(g, digest, s, Next(g, digest, interval, s, OnDemand(attempt)), attempt)
  {
  }

  lemma NextKeepsGood(g: Hashing, digest: EntryDigest, interval: int, s: State, event: Event)
    requires Good(g, s)
    ensures Good(g, Next(g, digest, interval, s, event))
  {
    match event
    case Append(e) => AppendKeepsGood(g, digest, s, e);
    case Scheduled(elapsed, attempt) =>
      EventChecks(g, digest, interval, s, elapsed, attempt);
      CheckKeepsGood(g, digest, s, Next(g, digest, interval, s, event), attempt);
    case OnDemand(attempt) =>
      EventChecks(g, digest, interval, s, true, attempt);
      CheckKeepsGood(g, digest, s, Next(g, digest, interval, s, event), attempt);
  }

  /** Every run, with failed submissions and anchorings that stop halfway, keeps the tiling. */
  lemma {:induction false} RunKeepsTiling(g: Hashing, digest: EntryDigest, interval: int, events: seq<Event>)
    ensures Good(g, Run(g, digest, interval, events))
  {
    if events != [] {
      RunKeepsTiling(g, digest, interval, events[..|events| - 1]);
      NextKeepsGood(g, digest, interval, Run(g, digest, interval, events[..|events| - 1]), events[|events| - 1]);
    }
  }

  predicate Spans(a: Anchor, n: int) {
    Live(a) && a.fromSeq <= n <= a.toSeq
  }

  /** No gap: every number up to the last anchored one is in some live anchor. */
  lemma {:induction false} SomeAnchorSpans(g: Hashing, rows: seq<Row>, anchors: seq<Anchor>, n: int) returns (i: nat)
    requires Tiles(g, rows, anchors) && 1 <= n <= LastAnchored(anchors)
    ensures i < |anchors| && Spans(anchors[i], n)
  {
    var before := anchors[..|anchors| - 1];
    if n <= LastAnchored(before) {
      i := SomeAnchorSpans(g, rows, before, n);
    } else {
      i := |anchors| - 1;
    }
  }

  /** A live anchor stays within what is anchored, and covers its own rows. */
  lemma {:induction false} LiveAnchorCovers(g: Hashing, rows: seq<Row>, anchors: seq<Anchor>, i: nat)
    requires Tiles(g, rows, anchors) && i < |anchors| && Live(anchors[i])
    ensures anchors[i].toSeq <= LastAnchored(anchors) && Covers(g, rows, anchors[i], anchors[i].fromSeq - 1)
  {
    var before := anchors[..|anchors| - 1];
    if i < |before| {
      LiveAnchorCovers(g, rows, before, i);
      assert before[i] == anchors[i];
    }
  }

  /** No overlap: a number is in one live anchor only. */
  lemma {:induction false} OneAnchorSpans(g: Hashing, rows: seq<Row>, anchors: seq<Anchor>, i: nat, j: nat, n: int)
    requires Tiles(g, rows, anchors) && i < j < |anchors| && Spans(anchors[i], n)
    ensures !Spans(anchors[j], n)
  {
    var before, last := anchors[..|anchors| - 1], anchors[|anchors| - 1];
    assert before[i] == anchors[i];
    if j < |before| {
      OneAnchorSpans(g, rows, before, i, j, n);
    } else {
      LiveAnchorCovers(g, rows, before, i);
    }
  }

  /** The live anchors tile 1 to the last anchored number: each number in exactly one, and none beyond. */
  lemma AnchorsTile(g: Hashing, digest: EntryDigest, interval: int, events: seq<Event>, n: int)
    ensures var s := Run(g, digest, interval, events);
            && (1 <= n <= LastAnchored(s.anchors) <==> exists i :: 0 <= i < |s.anchors| && Spans(s.anchors[i], n))
            && (forall i, j :: 0 <= i < j < |s.anchors| && Spans(s.anchors[i], n) ==> !Spans(s.anchors[j], n))
  {
    RunKeepsTiling(g, digest, interval, events);
    var s := Run(g, digest, interval, events);
    if 1 <= n <= LastAnchored(s.anchors) { var i := SomeAnchorSpans(g, s.rows, s.anchors, n); }
    if i :| 0 <= i < |s.anchors| && Spans(s.anchors[i], n) { LiveAnchorCovers(g, s.rows, s.anchors, i); }
    forall i, j | 0 <= i < j < |s.anchors| && Spans(s.anchors[i], n) ensures !Spans(s.anchors[j], n) {
      OneAnchorSpans(g, s.rows, s.anchors, i, j, n);
    }
  }

  // ----- the service

  datatype Inclusion = Inclusion(anchor: Anchor, leafIndex: int, proof: seq<Step>)

  class MerkleAnchor {
    const g: Hashing
    const log: AuditLog
    const entryInterval: int
    const timeInterval: int
    var anchors: seq<Anchor>
    var lastAnchorTime: int

    ghost function Now(): State
      reads this, log
    {
      State(log.rows, anchors)
    }

    constructor (g: Hashing, log: AuditLog, entryInterval: int, timeInterval: int, now: int)
      ensures this.g == g && this.log == log && this.entryInterval == entryInterval && this.timeInterval == timeInterval
      ensures anchors == [] && lastAnchorTime == now
    {
      this.g, this.log, this.entryInterval, this.timeInterval := g, log, entryInterval, timeInterval;
      anchors, lastAnchorTime := [], now;
    }

    method AnchorNow(fromSeq: int, toSeq: int, attempt: Attempt, now: int) returns (r: Result<Anchor, AnchorError>)
      modifies this, log
      ensures r.Err? <==> fromSeq > toSeq || Between(old(log.rows), fromSeq, toSeq) == []
      ensures r == Err(EmptyRange) <==> fromSeq > toSeq
      ensures r.Ok? ==> |anchors| == |old(anchors)| + 1 && r.value == anchors[|old(anchors)|]
      ensures Now() == if r.Err? then old(Now()) else Anchored(g, log.digest, old(Now()), fromSeq, toSeq, attempt)
      ensures lastAnchorTime == if r.Err? || attempt.stop == BeforeUpdate then old(lastAnchorTime) else now
    {
      if fromSeq > toSeq { return Err(EmptyRange); }
      var found := Between(log.rows, fromSeq, toSeq);
      if |found| == 0 { return Err(NoEntries); }
      var hashes := EntryHashes(found);
      var merkleRoot := ComputeMerkleRoot(g, hashes);
      var anchor := Anchor(fromSeq, toSeq, |hashes|, merkleRoot, Pending);
      anchors := anchors + [anchor];
      if attempt.stop == BeforeUpdate { return Ok(anchor); }
      anchor := anchor.(status := StatusAfter(attempt.outcome));
      anchors := anchors[|anchors| - 1 := anchor];
      lastAnchorTime := now;
      if attempt.stop == BeforeEntry { return Ok(anchor); }
      var _ := log.Append(Notice(attempt));
      r := Ok(anchor);
    }

    method MaybeAnchor(attempt: Attempt, now: int)
      requires Good(g, Now())
      modifies this, log
      ensures Now() ==
                Next(g, log.digest, entryInterval, old(Now()),
                Scheduled(now - old(lastAnchorTime) >= timeInterval, attempt))
    {
      var lastAnchoredSeq, maxSeq := LastAnchored(anchors), LastSeq(log.rows);
      if maxSeq <= lastAnchoredSeq { return; }
      if maxSeq - lastAnchoredSeq < entryInterval && now - lastAnchorTime < timeInterval { return; }
      SomethingToAnchor(g, Now());
      var _ := AnchorNow(lastAnchoredSeq + 1, maxSeq, attempt, now);
    }

    method AnchorOnDemand(attempt: Attempt, now: int)
      requires Good(g, Now())
      modifies this, log
      ensures Now() == Next(g, log.digest, entryInterval, old(Now()), OnDemand(attempt))
    {
      var lastAnchoredSeq, maxSeq := LastAnchored(anchors), LastSeq(log.rows);
      if maxSeq <= lastAnchoredSeq { return; }
      SomethingToAnchor(g, Now());
      var _ := AnchorNow(lastAnchoredSeq + 1, maxSeq, attempt, now);
    }

    /** The live anchor with the smallest end that covers the number. */
    method FindAnchor(n: int) returns (best: Option<Anchor>)
      ensures best.None? <==> forall i :: 0 <= i < |anchors| ==> !Spans(anchors[i], n)
      ensures best.Some? ==> best.value in anchors && Spans(best.value, n)
      ensures best.Some? ==> forall i :: 0 <= i < |anchors| && Spans(anchors[i], n) ==>
                best.value.toSeq <= anchors[i].toSeq
    {
      best := None;
      for i := 0 to |anchors|
        invariant best.None? ==> forall j :: 0 <= j < i ==> !Spans(anchors[j], n)
        invariant best.Some? ==> best.value in anchors && Spans(best.value, n)
        invariant best.Some? ==> forall j :: 0 <= j < i && Spans(anchors[j], n) ==> best.value.toSeq <= anchors[j].toSeq
      {
        if Spans(anchors[i], n) && (best.None? || anchors[i].toSeq < best.value.toSeq) { best := Some(anchors[i]); }
      }
    }

    /** That anchor, and the path of the number's entry inside it. */
    method ProveInclusion(n: int) returns (r: Option<Inclusion>)
      requires Good(g, Now())
      ensures r.Some? <==> 1 <= n <= LastAnchored(anchors)
      ensures r.Some? ==> r.value.anchor in anchors && Spans(r.value.anchor, n) && n <= |log.rows|
      ensures r.Some? ==> forall i :: 0 <= i < |anchors| && Spans(anchors[i], n) ==>
                r.value.anchor.toSeq <= anchors[i].toSeq
      ensures r.Some? ==> PathInside(g, log.rows, n, r.value)
      ensures r.Some? ==> Accepts(g, log.rows[n - 1].entryHash, r.value.proof, r.value.anchor.merkleRoot)
    {
      var best := FindAnchor(n);
      if 1 <= n <= LastAnchored(anchors) {
        var i := SomeAnchorSpans(g, log.rows, anchors, n);
      }
      if best.None? { return None; }
      var anchor := best.value;
      AnchorHashes(g, Now(), anchor, n);
      var hashes := EntryHashes(Between(log.rows, anchor.fromSeq, anchor.toSeq));
      var leafIndex := n - anchor.fromSeq;
      var proof := GenerateMerkleProof(g, hashes, leafIndex);
      InclusionVerifies(g, hashes, leafIndex, proof, log.rows[n - 1].entryHash, anchor.merkleRoot);
      r := Some(Inclusion(anchor, leafIndex, proof));
    }
  }

  /** The position counts from the start of the anchor, and the proof is the whole path from there. */
  ghost predicate PathInside(g: Hashing, rows: seq<Row>, n: int, inclusion: Inclusion) {
    var hashes := EntryHashes(Between(rows, inclusion.anchor.fromSeq, inclusion.anchor.toSeq));
    && inclusion.leafIndex == n - inclusion.anchor.fromSeq >= 0
    && |inclusion.proof| == MerkleTree.Height(|hashes|)
    && IsSidedPath(g.sha, LeavesOf(g, hashes), inclusion.leafIndex, inclusion.proof)
  }

  lemma SomethingToAnchor(g: Hashing, s: State)
    requires Good(g, s) && LastAnchored(s.anchors) < LastSeq(s.rows)
    ensures Between(s.rows, LastAnchored(s.anchors) + 1, LastSeq(s.rows)) != []
  {
    LastAnchoredInLog(g, s.rows, s.anchors);
    NumberedRange(s.rows, LastAnchored(s.anchors), |s.rows|);
  }

  /** The hashes an anchor in the table covers, found again through its range. */
  lemma AnchorHashes(g: Hashing, s: State, anchor: Anchor, n: int)
    requires Good(g, s) && anchor in s.anchors && Spans(anchor, n)
    ensures 1 <= n <= LastAnchored(s.anchors) && n <= |s.rows|
    ensures var hashes := EntryHashes(Between(s.rows, anchor.fromSeq, anchor.toSeq));
            && 0 <= n - anchor.fromSeq < |hashes| && hashes[n - anchor.fromSeq] == s.rows[n - 1].entryHash
            && anchor.merkleRoot == RootOf(g, hashes)
  {
    var i :| 0 <= i < |s.anchors| && s.anchors[i] == anchor;
    LiveAnchorCovers(g, s.rows, s.anchors, i);
    LastAnchoredInLog(g, s.rows, s.anchors);
    NumberedRange(s.rows, anchor.fromSeq - 1, anchor.toSeq);
  }

  lemma InclusionVerifies(
    g: Hashing, entryHashes: seq<string>, index: nat, proof: seq<Step>, entryHash: string, root: Digest)
    requires index < |entryHashes| && entryHash == entryHashes[index] && root == RootOf(g, entryHashes)
    requires |proof| == MerkleTree.Height(|entryHashes|) && IsSidedPath(g.sha, LeavesOf(g, entryHashes), index, proof)
    ensures Accepts(g, entryHash, proof, root)
  {
    SidedProofComplete(g, entryHashes, index, proof);
  }

  /** An entry hash is too short to be read as a pair. */
  lemma EntryHashIsNoPair(h: EntryHash)
    ensures |Utf8.Encode(h)| == 44 && !AsLongAsPair(Utf8.Encode(h))
  {
    forall i | 0 <= i < |h| ensures (h[i] as int) < 0x80 { assert InBase64(h[i]); }
    Utf8.AsciiLength(h);
  }

  // ----- which siblings a verifier has to refuse

  /** What is missing of an entry hash after the 32 bytes of a digest. */
  const COMPLETION_BYTES := 12

  predicate Avoids(proof: seq<Step>, widths: set<nat>) {
    forall k :: 0 <= k < |proof| ==> |proof[k].sibling| !in widths
  }

  predicate AllBase64(hashes: seq<string>) {
    forall i :: 0 <= i < |hashes| ==> IsBase64(hashes[i])
  }

  /** If siblings of the given widths are refused, what is accepted is an entry of the list. */
  ghost predicate Convinces(widths: set<nat>, sha: Hash, hashes: seq<string>, entryHash: EntryHash, proof: seq<Step>) {
    && hashes != [] && AllBase64(hashes) && Avoids(proof, widths)
    && CollisionFree<Digest, seq<byte>>(sha, InclusionMessages(Hashing(sha, Utf8.Encode), hashes, entryHash, proof))
    && Accepts(Hashing(sha, Utf8.Encode), entryHash, proof, RootOf(Hashing(sha, Utf8.Encode), hashes))
    ==> |proof| == MerkleTree.Height(|hashes|) && entryHash in hashes
  }

  ghost predicate AlwaysConvinces(widths: set<nat>) {
    forall sha: Hash, hashes, entryHash: EntryHash, proof :: Convinces(widths, sha, hashes, entryHash, proof)
  }

  lemma AvoidedConvinces(widths: set<nat>, sha: Hash, hashes: seq<string>, entryHash: EntryHash, proof: seq<Step>)
    requires COMPLETION_BYTES in widths
    ensures Convinces(widths, sha, hashes, entryHash, proof)
  {
    var g := Hashing(sha, Utf8.Encode);
    if && hashes != [] && AllBase64(hashes) && Avoids(proof, widths)
       && CollisionFree<Digest, seq<byte>>(sha, InclusionMessages(g, hashes, entryHash, proof))
       && Accepts(g, entryHash, proof, RootOf(g, hashes)) {
      Utf8.EncodeIsFaithful();
      EntryHashIsNoPair(entryHash);
      forall k, j | 0 <= k < |proof| && 0 <= j < |hashes|
        ensures HASH_BYTES + |proof[k].sibling| != |LeafTexts(Utf8.Encode, hashes)[j]|
      {
        EntryHashIsNoPair(hashes[j]);
      }
      SidedProofSound(g, hashes, entryHash, proof);
    }
  }

  /** A base64 text of one letter only. */
  function Uniform(c: char): EntryHash
    requires InBase64(c)
  {
    var text := seq(44, _ => c);
    assert forall i :: 0 <= i < |text| ==> InBase64(text[i]);
    text
  }

  lemma UniformDiffers()
    ensures Uniform('A') != Uniform('B') && Utf8.Encode(Uniform('A')) != Utf8.Encode(Uniform('B'))
    ensures |Utf8.Encode(Uniform('A'))| == 44 && Utf8.Encode(Uniform('A'))[..HASH_BYTES] != NO_ENTRIES
  {
    assert Uniform('A')[0] != Uniform('B')[0];
    if Utf8.Encode(Uniform('A')) == Utf8.Encode(Uniform('B')) { Utf8.EncodeInjective(Uniform('A'), Uniform('B')); }
    EntryHashIsNoPair(Uniform('A'));
    assert Utf8.Encode(Uniform('A'))[0] == 'A' as int;
    assert Utf8.Encode(Uniform('A'))[..HASH_BYTES][0] == 'A' as int && NO_ENTRIES[0] == 0;
  }

  /** With a sibling of 12 bytes, one entry hash passes for another. */
  lemma TwelveBytesDeceive(widths: set<nat>) returns (sha: Hash, proof: seq<Step>)
    requires COMPLETION_BYTES !in widths
    ensures !Convinces(widths, sha, [Uniform('A')], Uniform('B'), proof)
  {
    var entry, other := Uniform('A'), Uniform('B');
    UniformDiffers();
    CompletionIsAccepted(Utf8.Encode, entry, other);
    sha, proof := Into(Utf8.Encode(other), Utf8.Encode(entry)), [Completion(Utf8.Encode(entry))];
    assert AllBase64([entry]) && Avoids(proof, widths);
  }

  /** Siblings of 12 bytes are the ones to refuse: with them an absent entry hash can pass, without them none does. */
  lemma TwelveBytesExactly(widths: set<nat>)
    ensures AlwaysConvinces(widths) <==> COMPLETION_BYTES in widths
  {
    if COMPLETION_BYTES in widths {
      forall sha: Hash, hashes, entryHash: EntryHash, proof ensures Convinces(widths, sha, hashes, entryHash, proof) {
        AvoidedConvinces(widths, sha, hashes, entryHash, proof);
      }
    } else {
      var sha, proof := TwelveBytesDeceive(widths);
    }
  }

  lemma {:induction false} RunHashesAreBase64(g: Hashing, digest: EntryDigest, interval: int, events: seq<Event>)
    ensures AllBase64(EntryHashes(Run(g, digest, interval, events).rows))
  {
    if events != [] {
      RunHashesAreBase64(g, digest, interval, events[..|events| - 1]);
    }
  }

  lemma SpanIsBase64(rows: seq<Row>, from: nat, to: nat)
    requires AllBase64(EntryHashes(rows)) && from <= to <= |rows|
    ensures AllBase64(EntryHashes(rows[from..to]))
  {
    forall i | 0 <= i < to - from ensures IsBase64(rows[from..to][i].entryHash) {
      assert IsBase64(EntryHashes(rows)[from + i]);
    }
  }

  predicate HasHash(rows: seq<Row>, n: int, entryHash: string) {
    0 < n <= |rows| && rows[n - 1].entryHash == entryHash
  }

  ghost predicate InRange(rows: seq<Row>, fromSeq: int, toSeq: int, entryHash: string) {
    exists n :: fromSeq <= n <= toSeq && HasHash(rows, n, entryHash)
  }

  lemma MemberOfSpan(rows: seq<Row>, from: nat, to: nat, entryHash: string)
    requires from <= to <= |rows| && entryHash in EntryHashes(rows[from..to])
    ensures InRange(rows, from + 1, to, entryHash)
  {
    var k :| 0 <= k < to - from && EntryHashes(rows[from..to])[k] == entryHash;
    assert HasHash(rows, from + 1 + k, entryHash);
  }

  ghost predicate Presented(g: Hashing, hashes: seq<string>, root: Digest, entryHash: string, proof: seq<Step>) {
    && Accepts(g, entryHash, proof, root)
    && CollisionFree<Digest, seq<byte>>(g.sha, InclusionMessages(g, hashes, entryHash, proof))
  }

  lemma AcceptedIsInRange(g: Hashing, s: State, i: nat, entryHash: EntryHash, proof: seq<Step>)
    requires g.utf8 == Utf8.Encode && Avoids(proof, {COMPLETION_BYTES})
    requires Good(g, s) && AllBase64(EntryHashes(s.rows)) && i < |s.anchors| && Live(s.anchors[i])
    requires var a := s.anchors[i];
               Presented(g, EntryHashes(Between(s.rows, a.fromSeq, a.toSeq)), a.merkleRoot, entryHash, proof)
    ensures InRange(s.rows, s.anchors[i].fromSeq, s.anchors[i].toSeq, entryHash)
  {
    var a := s.anchors[i];
    LiveAnchorCovers(g, s.rows, s.anchors, i);
    NumberedRange(s.rows, a.fromSeq - 1, a.toSeq);
    SpanIsBase64(s.rows, a.fromSeq - 1, a.toSeq);
    AvoidedConvinces({COMPLETION_BYTES}, g.sha, EntryHashes(s.rows[a.fromSeq - 1..a.toSeq]), entryHash, proof);
    MemberOfSpan(s.rows, a.fromSeq - 1, a.toSeq, entryHash);
  }

  /**
   In every run, an entry hash that is accepted against the stored root of a live anchor is the hash
   of a row in that anchor's range, unless the proof holds a sibling of 12 bytes.
   */
  lemma AcceptedIsAnchored(
    g: Hashing, digest: EntryDigest, interval: int, events: seq<Event>, i: nat, entryHash: EntryHash,
    proof: seq<Step>)
    requires g.utf8 == Utf8.Encode && Avoids(proof, {COMPLETION_BYTES})
    requires i < |Run(g, digest, interval, events).anchors| && Live(Run(g, digest, interval, events).anchors[i])
    requires var s := Run(g, digest, interval, events);
             var a := s.anchors[i];
             Presented(g, EntryHashes(Between(s.rows, a.fromSeq, a.toSeq)), a.merkleRoot, entryHash, proof)
    ensures var s := Run(g, digest, interval, events);
            InRange(s.rows, s.anchors[i].fromSeq, s.anchors[i].toSeq, entryHash)
  {
    RunKeepsTiling(g, digest, interval, events);
    RunHashesAreBase64(g, digest, interval, events);
    AcceptedIsInRange(g, Run(g, digest, interval, events), i, entryHash, proof);
  }

  // ----- what an anchor fixes

  /** Every message hashed in the tree over rows `from` to `to`. */
  ghost function SpanMessages(g: Hashing, rows: seq<Row>, from: nat, to: nat): set<seq<byte>>
    requires from <= to <= |rows|
  {
    MerkleTree.TreeMessages<Digest, seq<byte>>(g.sha, Joined, LeafTexts(g.utf8, EntryHashes(rows[from..to])))
  }

  lemma LastInSpan(rows: seq<Row>, from: nat, to: nat)
    requires from < to <= |rows|
    ensures EntryHashes(rows[from..to])[to - from - 1] == rows[to - 1].entryHash
  {
  }

  lemma SameRootSameLastHash(g: Hashing, a: seq<Row>, b: seq<Row>, i: nat, m: nat, j: nat, n: nat)
    requires Utf8.Faithful(g.utf8) && i < m <= |a| && j < n <= |b| && m - i == n - j
    requires RootOf(g, EntryHashes(a[i..m])) == RootOf(g, EntryHashes(b[j..n]))
    requires CollisionFree<Digest, seq<byte>>(g.sha, SpanMessages(g, a, i, m) + SpanMessages(g, b, j, n))
    ensures a[m - 1].entryHash == b[n - 1].entryHash
  {
    LastInSpan(a, i, m);
    LastInSpan(b, j, n);
    RootBindsEntries(g, EntryHashes(a[i..m]), EntryHashes(b[j..n]));
  }

  /** The root over `n` rows from `from` on. */
  ghost predicate IsSpanRoot(g: Hashing, rows: seq<Row>, from: nat, n: nat, root: Digest) {
    from + n <= |rows| && root == RootOf(g, EntryHashes(rows[from..from + n]))
  }

  lemma SameSpanRootSameLastHash(g: Hashing, a: seq<Row>, b: seq<Row>, i: nat, j: nat, n: nat, root: Digest)
    requires Utf8.Faithful(g.utf8) && n > 0 && IsSpanRoot(g, a, i, n, root) && IsSpanRoot(g, b, j, n, root)
    requires CollisionFree<Digest, seq<byte>>(g.sha, SpanMessages(g, a, i, i + n) + SpanMessages(g, b, j, j + n))
    ensures a[i + n - 1].entryHash == b[j + n - 1].entryHash
  {
    SameRootSameLastHash(g, a, b, i, i + n, j, j + n);
  }

  /**
   Two passing logs with one root over as many rows agree on every row up to the last one covered,
   wherever in the two logs the rows were taken from.
   */
  lemma RootBindsHistory(
    g: Hashing, hash: TextHash, a: seq<Row>, b: seq<Row>, i: nat, j: nat, n: nat, root: Digest, h: nat)
    requires Sound(ComputeEntryHash(hash), a, "", 1) && Sound(ComputeEntryHash(hash), b, "", 1)
    requires Utf8.Faithful(g.utf8) && n > 0 && IsSpanRoot(g, a, i, n, root) && IsSpanRoot(g, b, j, n, root) && h < i + n
    requires CollisionFree<Digest, seq<byte>>(g.sha, SpanMessages(g, a, i, i + n) + SpanMessages(g, b, j, j + n))
    requires CollisionFree<EntryHash, string>(hash, Inputs(a) + Inputs(b))
    ensures i == j && SameRow(a[h], b[h])
  {
    SameSpanRootSameLastHash(g, a, b, i, j, n, root);
    HashesBind(hash, a, b);
    LogsMeet(ComputeEntryHash(hash), a, b);
    assert Meet(a, b, i + n - 1, j + n - 1, h);
  }

  /** `a` is such a root, over the rows of its own range. */
  ghost predicate IsOwnRoot(g: Hashing, rows: seq<Row>, a: Anchor) {
    a.fromSeq >= 1 && a.entryCount == a.toSeq - a.fromSeq + 1 > 0 &&
      IsSpanRoot(g, rows, a.fromSeq - 1, a.entryCount, a.merkleRoot)
  }

  lemma CoversIsOwnRoot(g: Hashing, rows: seq<Row>, a: Anchor)
    requires Covers(g, rows, a, a.fromSeq - 1)
    ensures IsOwnRoot(g, rows, a)
  {
    assert a.fromSeq - 1 + a.entryCount == a.toSeq;
  }

  /** Every live anchor of every run. */
  lemma AnchorIsOwnRoot(g: Hashing, digest: EntryDigest, interval: int, events: seq<Event>, i: nat)
    requires i < |Run(g, digest, interval, events).anchors| && Live(Run(g, digest, interval, events).anchors[i])
    ensures IsOwnRoot(g, Run(g, digest, interval, events).rows, Run(g, digest, interval, events).anchors[i])
  {
    RunKeepsTiling(g, digest, interval, events);
    LiveIsOwnRoot(g, Run(g, digest, interval, events), i);
  }

  lemma LiveIsOwnRoot(g: Hashing, s: State, i: nat)
    requires Good(g, s) && i < |s.anchors| && Live(s.anchors[i])
    ensures IsOwnRoot(g, s.rows, s.anchors[i])
  {
    LiveAnchorCovers(g, s.rows, s.anchors, i);
    CoversIsOwnRoot(g, s.rows, s.anchors[i]);
  }

  // ----- verifying an anchor against the log

  /** AuditChainVerifier.js, verifyAnchor: does the range of the log still hash to the root? */
  method VerifyAnchor(g: Hashing, rows: seq<Row>, fromSeq: int, toSeq: int, merkleRoot: Digest)
    returns (valid: bool, computedRoot: Digest)
    ensures computedRoot == RootOf(g, EntryHashes(Between(rows, fromSeq, toSeq)))
    ensures valid <==> AnchorHolds(g, rows, fromSeq, toSeq, merkleRoot)
  {
    computedRoot := ComputeMerkleRoot(g, EntryHashes(Between(rows, fromSeq, toSeq)));
    valid := computedRoot == merkleRoot;
  }

  predicate AnchorHolds(g: Hashing, rows: seq<Row>, fromSeq: int, toSeq: int, merkleRoot: Digest) {
    RootOf(g, EntryHashes(Between(rows, fromSeq, toSeq))) == merkleRoot
  }

  /** In every run, every live anchor verifies against the log, then and after any later append. */
  lemma LiveAnchorHolds(g: Hashing, digest: EntryDigest, interval: int, events: seq<Event>, i: nat)
    requires i < |Run(g, digest, interval, events).anchors| && Live(Run(g, digest, interval, events).anchors[i])
    ensures var s := Run(g, digest, interval, events);
            AnchorHolds(g, s.rows, s.anchors[i].fromSeq, s.anchors[i].toSeq, s.anchors[i].merkleRoot)
  {
    var s := Run(g, digest, interval, events);
    RunKeepsTiling(g, digest, interval, events);
    LiveAnchorCovers(g, s.rows, s.anchors, i);
    NumberedRange(s.rows, s.anchors[i].fromSeq - 1, s.anchors[i].toSeq);
  }

  /** The rows that a range finds in a log: as far as the log reaches. */
  lemma RangeOfSound(digest: EntryDigest, rows: seq<Row>, after: nat, toSeq: nat) returns (m: nat)
    requires Sound(digest, rows, "", 1) && after < toSeq && Between(rows, after + 1, toSeq) != []
    ensures after < m <= toSeq && m <= |rows| && (m < toSeq ==> m == |rows|)
    ensures Between(rows, after + 1, toSeq) == rows[after..m]
  {
    forall i | 0 <= i < |rows| ensures rows[i].seqNo == i + 1 { SoundRow(digest, rows, i); }
    m := if toSeq <= |rows| then toSeq else |rows|;
    if after < m {
      BetweenIsSlice(rows, after + 1, toSeq, after, m);
    } else {
      BetweenIsSlice(rows, after + 1, toSeq, |rows|, |rows|);
    }
  }

  /** A passing log never has one entry hash twice. */
  lemma HashesDiffer(hash: TextHash, rows: seq<Row>, from: nat, to: nat)
    requires Sound(ComputeEntryHash(hash), rows, "", 1) && from <= to <= |rows|
    requires CollisionFree<EntryHash, string>(hash, Inputs(rows))
    ensures OrderedTree.Distinct(EntryHashes(rows[from..to]))
  {
    HashesBind(hash, rows, rows);
    forall i, j | 0 <= i < j < to - from ensures rows[from..to][i].entryHash != rows[from..to][j].entryHash {
      if rows[from + i].entryHash == rows[from + j].entryHash {
        SharedHashSharedRow(ComputeEntryHash(hash), rows, rows, from + i, from + j);
      }
    }
  }

  lemma SoundHashIsNoPair(digest: EntryDigest, rows: seq<Row>, from: nat, to: nat)
    requires Sound(digest, rows, "", 1) && from <= to <= |rows|
    ensures forall i :: 0 <= i < to - from ==> !AsLongAsPair(Utf8.Encode(EntryHashes(rows[from..to])[i]))
  {
    forall i | 0 <= i < to - from ensures !AsLongAsPair(Utf8.Encode(EntryHashes(rows[from..to])[i])) {
      OneHashIsNoPair(digest, rows, from + i, EntryHashes(rows[from..to])[i]);
    }
  }

  lemma OneHashIsNoPair(digest: EntryDigest, rows: seq<Row>, i: nat, entryHash: string)
    requires Sound(digest, rows, "", 1) && i < |rows| && entryHash == rows[i].entryHash
    ensures !AsLongAsPair(Utf8.Encode(entryHash))
  {
    SoundRow(digest, rows, i);
    EntryHashIsNoPair(digest(PrevAt(rows, "", i), rows[i]));
  }

  /** Every message hashed in the tree over a range. */
  ghost function RangeMessages(g: Hashing, rows: seq<Row>, fromSeq: int, toSeq: int): set<seq<byte>> {
    MerkleTree.TreeMessages<Digest, seq<byte>>(
      g.sha, Joined, LeafTexts(g.utf8, EntryHashes(Between(rows, fromSeq, toSeq))))
  }

  /** Two passing logs with one root over a span each have spans of one length: no hash is in a log twice. */
  lemma SameRootSameSpan(
    g: Hashing, hash: TextHash, a: seq<Row>, b: seq<Row>, from: nat, m: nat, n: nat)
    requires Sound(ComputeEntryHash(hash), a, "", 1) && Sound(ComputeEntryHash(hash), b, "", 1)
    requires g.utf8 == Utf8.Encode && from < m <= |a| && from < n <= |b|
    requires RootOf(g, EntryHashes(a[from..m])) == RootOf(g, EntryHashes(b[from..n]))
    requires CollisionFree<Digest, seq<byte>>(g.sha, SpanMessages(g, a, from, m) + SpanMessages(g, b, from, n))
    requires CollisionFree<EntryHash, string>(hash, Inputs(a) + Inputs(b))
    ensures m == n
  {
    Utf8.EncodeIsFaithful();
    HashesDiffer(hash, a, from, m);
    HashesDiffer(hash, b, from, n);
    SoundHashIsNoPair(ComputeEntryHash(hash), a, from, m);
    SoundHashIsNoPair(ComputeEntryHash(hash), b, from, n);
    RootBindsDistinct(g, EntryHashes(a[from..m]), EntryHashes(b[from..n]));
  }

  /** The root that a range of the log has, when the range is not empty. */
  ghost predicate RangeHasRoot(g: Hashing, rows: seq<Row>, from: nat, m: nat, root: Digest) {
    from < m <= |rows| && RootOf(g, EntryHashes(rows[from..m])) == root
  }

  lemma SameRootSameEnd(g: Hashing, hash: TextHash, a: seq<Row>, b: seq<Row>, from: nat, m: nat, n: nat, root: Digest)
    requires Sound(ComputeEntryHash(hash), a, "", 1) && Sound(ComputeEntryHash(hash), b, "", 1)
    requires g.utf8 == Utf8.Encode && RangeHasRoot(g, a, from, m, root) && RangeHasRoot(g, b, from, n, root)
    requires CollisionFree<Digest, seq<byte>>(g.sha, SpanMessages(g, a, from, m) + SpanMessages(g, b, from, n))
    requires CollisionFree<EntryHash, string>(hash, Inputs(a) + Inputs(b))
    ensures m == n
  {
    SameRootSameSpan(g, hash, a, b, from, m, n);
  }

  /** A log that passes and verifies against an anchor whose root is not the one of no rows reaches its end. */
  lemma VerifiedAnchorReaches(
    g: Hashing, hash: TextHash, anchored: seq<Row>, log: seq<Row>, after: nat, to: nat, root: Digest)
    requires Sound(ComputeEntryHash(hash), anchored, "", 1) && Sound(ComputeEntryHash(hash), log, "", 1)
    requires g.utf8 == Utf8.Encode && after < to <= |anchored| && root != NO_ENTRIES
    requires AnchorHolds(g, anchored, after + 1, to, root) && AnchorHolds(g, log, after + 1, to, root)
    requires CollisionFree<Digest, seq<byte>>(g.sha,
               RangeMessages(g, anchored, after + 1, to) + RangeMessages(g, log, after + 1, to))
    requires CollisionFree<EntryHash, string>(hash, Inputs(anchored) + Inputs(log))
    ensures to <= |log|
  {
    var k := RangeOfSound(ComputeEntryHash(hash), anchored, after, to);
    var m := RangeOfSound(ComputeEntryHash(hash), log, after, to);
    SameRootSameEnd(g, hash, anchored, log, after, k, m, root);
  }

  /**
   Such a log is, up to there, the log that was anchored. The anchor covers the `n` rows after number
   `after`.
   */
  lemma VerifiedAnchorBinds(
    g: Hashing, hash: TextHash, anchored: seq<Row>, log: seq<Row>, after: nat, n: nat, root: Digest, h: nat)
    requires Sound(ComputeEntryHash(hash), anchored, "", 1) && Sound(ComputeEntryHash(hash), log, "", 1)
    requires Utf8.Faithful(g.utf8) && n > 0 && after + n <= |anchored| && after + n <= |log| && h < after + n
    requires AnchorHolds(g, anchored, after + 1, after + n, root) && AnchorHolds(g, log, after + 1, after + n, root)
    requires CollisionFree<Digest, seq<byte>>(g.sha,
               SpanMessages(g, anchored, after, after + n) + SpanMessages(g, log, after, after + n))
    requires CollisionFree<EntryHash, string>(hash, Inputs(anchored) + Inputs(log))
    ensures SameRow(anchored[h], log[h])
  {
    HoldsIsSpanRoot(g, ComputeEntryHash(hash), anchored, after, n, root);
    HoldsIsSpanRoot(g, ComputeEntryHash(hash), log, after, n, root);
    RootBindsHistory(g, hash, anchored, log, after, after, n, root, h);
  }

  lemma HoldsIsSpanRoot(g: Hashing, digest: EntryDigest, rows: seq<Row>, after: nat, n: nat, root: Digest)
    requires Sound(digest, rows, "", 1) && after + n <= |rows| && AnchorHolds(g, rows, after + 1, after + n, root)
    ensures IsSpanRoot(g, rows, after, n, root)
  {
    forall i | 0 <= i < |rows| ensures rows[i].seqNo == i + 1 { SoundRow(digest, rows, i); }
    NumberedRange(rows, after, after + n);
  }
}
