/**
 backend/src/protocol/MeteringEngine.js and backend/src/attestation/AttestationArchive.js over the
 tables of attestationRepository.js, for one stream: every statement there is keyed by the stream,
 and metering holds the stream's row lock. So does the settler of BatchSettler.js when it resets the
 stream's used calls.
 */
module Metering {
  import opened Bytes
  import opened Outcomes
  import opened AttestationCanonical
  import opened MerkleTree
  import opened MerkleBatchBuilder
  import opened AttestationVerifier

  datatype Stream = Stream(active: bool, callsRemaining: int, callsUsed: int)

  /** An attestation_leaves row; rows are kept in the order of their unique call index. */
  datatype Leaf = Leaf(att: Attestation, batchRef: Option<nat>)

  /** An attestation_batches row; its id is its position. */
  datatype BatchRow = BatchRow(
    seller: string, merkleRoot: Digest, callCount: nat, firstCallIndex: int, lastCallIndex: int,
    batchSignature: seq<byte>)

  datatype Tables = Tables(stream: Option<Stream>, used: seq<Used>, leaves: seq<Leaf>, batches: seq<BatchRow>)

  /** What the signature check and the archive need to know of the world. */
  datatype World = World(rules: Rules, sha: Hash, streamId: Number)

  predicate AreNumbers(f: Fields) {
    AsNumber(f.streamId) == f.streamId && AsNumber(f.callIndex) == f.callIndex && AsNumber(f.timestamp) == f.timestamp
  }

  /** An attestation read from the JSON of a request. */
  type Posted = att: Attestation | AreNumbers(att.fields)
    witness Attestation(Fields(0, 0, Filled(0), Filled(0), 0, Filled(0)), [], "")

  function Index(att: Attestation): int {
    att.fields.callIndex
  }

  // ----- queries

  function Wire(leaves: seq<Leaf>): (atts: seq<Attestation>)
    ensures |atts| == |leaves| && forall i {:trigger atts[i]} :: 0 <= i < |atts| ==> atts[i] == leaves[i].att
  {
    seq(|leaves|, i requires 0 <= i < |leaves| => leaves[i].att)
  }

  /** call_index BETWEEN lo AND hi. */
  function Ranged(atts: seq<Attestation>, lo: int, hi: int): seq<Attestation> {
    if atts == [] then [] else
      var last := atts[|atts| - 1];
      Ranged(atts[..|atts| - 1], lo, hi) + (if lo <= Index(last) <= hi then [last] else [])
  }

  /** The leaves whose batch is `ref`: with `None`, the un-batched tail. */
  function Held(leaves: seq<Leaf>, ref: Option<nat>): seq<Attestation> {
    if leaves == [] then [] else
      var last := leaves[|leaves| - 1];
      Held(leaves[..|leaves| - 1], ref) + (if last.batchRef == ref then [last.att] else [])
  }

  /** INSERT ... ON CONFLICT (stream_id, call_index) DO NOTHING. */
  function RecordLeaf(leaves: seq<Leaf>, att: Attestation): seq<Leaf> {
    if leaves == [] || Index(leaves[|leaves| - 1].att) < Index(att) then leaves + [Leaf(att, None)]
    else if Index(leaves[|leaves| - 1].att) == Index(att) then leaves
    else RecordLeaf(leaves[..|leaves| - 1], att) + [leaves[|leaves| - 1]]
  }

  function AttachOne(leaf: Leaf, id: nat, lo: int, hi: int): Leaf {
    if leaf.batchRef.None? && lo <= Index(leaf.att) <= hi then leaf.(batchRef := Some(id)) else leaf
  }

  /** UPDATE ... SET batch_ref = id WHERE batch_ref IS NULL AND call_index BETWEEN lo AND hi. */
  function Attach(leaves: seq<Leaf>, id: nat, lo: int, hi: int): (after: seq<Leaf>)
    ensures |after| == |leaves| && forall i :: 0 <= i < |leaves| ==> after[i] == AttachOne(leaves[i], id, lo, hi)
  {
    seq(|leaves|, i requires 0 <= i < |leaves| => AttachOne(leaves[i], id, lo, hi))
  }

  // ----- metering one call

  /** `signer` is the key of the stream token, or the stream's recipient. */
  datatype Call = Call(attestation: Option<Posted>, signer: string, now: int, enforced: bool)

  datatype MeterError =
    | AttestationMissing
    | StreamNotFound
    | StreamNotActive
    | StreamExhausted
    | AttestationRejected(reason: Reason)
    | EncodingError

  function Billed(s: Stream): Stream {
    s.(callsRemaining := s.callsRemaining - 1, callsUsed := s.callsUsed + 1)
  }

  /** The transaction: on an error nothing of it remains. */
  function Meter(w: World, t: Tables, call: Call): Result<Tables, MeterError> {
    if call.attestation.None? && call.enforced then Err(AttestationMissing)
    else if t.stream.None? then Err(StreamNotFound)
    else if !t.stream.value.active then Err(StreamNotActive)
    else if t.stream.value.callsRemaining <= 0 then Err(StreamExhausted)
    else if call.attestation.None? then Ok(t.(stream := Some(Billed(t.stream.value))))
    else
      var att := call.attestation.value;
      var (outcome, used) := Accept(w.rules, t.used, att, Expectation(call.signer, Some(w.streamId), call.now));
      match outcome
      case Rejected(reason) => Err(AttestationRejected(reason))
      case Thrown => Err(EncodingError)
      case Passed =>
        Ok(t.(used := used, leaves := RecordLeaf(t.leaves, att.(signer := call.signer)),
          stream := Some(Billed(t.stream.value))))
  }

  /** What an error says of the call is true. */
  predicate Refuses(w: World, t: Tables, call: Call, e: MeterError) {
    match e
    case AttestationMissing => call.enforced && call.attestation.None?
    case StreamNotFound => t.stream.None?
    case StreamNotActive => t.stream.Some? && !t.stream.value.active
    case StreamExhausted => t.stream.Some? && t.stream.value.callsRemaining <= 0
    case AttestationRejected(reason) =>
      call.attestation.Some? &&
        Accept(w.rules, t.used, call.attestation.value, Expectation(call.signer, Some(w.streamId), call.now)).0 ==
          Rejected(reason)
    case EncodingError =>
      call.attestation.Some? && WellShaped(call.attestation.value) && !Encodable(call.attestation.value.fields)
  }

  /**
   A call is metered exactly when an attestation comes with it or none is enforced, the stream is
   active and has calls left, and the attestation is accepted; it costs one call and touches no batch.
   */
  lemma MeterExactly(w: World, t: Tables, call: Call)
    ensures var r := Meter(w, t, call);
            && (r.Ok? <==>
                 && (call.attestation.Some? || !call.enforced)
                 && t.stream.Some? && t.stream.value.active && t.stream.value.callsRemaining > 0
                 && (call.attestation.Some? ==>
                       Accept(w.rules, t.used, call.attestation.value,
                         Expectation(call.signer, Some(w.streamId), call.now)).0 == Passed))
            && (r.Err? ==> Refuses(w, t, call, r.error))
            && (r.Ok? ==>
                  && r.value.stream.Some? && r.value.stream.value.active && r.value.batches == t.batches
                  && r.value.stream.value.callsRemaining + 1 == t.stream.value.callsRemaining
                  && r.value.stream.value.callsUsed == t.stream.value.callsUsed + 1
                  && (call.attestation.None? ==> r.value.leaves == t.leaves && r.value.used == t.used))
  {
    if call.attestation.Some? {
      var wanted := Expectation(call.signer, Some(w.streamId), call.now);
      CheckExactly(w.rules, call.attestation.value, wanted);
      AcceptedExactly(w.rules, t.used, call.attestation.value, wanted);
    }
  }

  ghost predicate InOrder(leaves: seq<Leaf>) {
    forall i, j :: 0 <= i < j < |leaves| ==> Index(leaves[i].att) < Index(leaves[j].att)
  }

  ghost predicate IndexTaken(leaves: seq<Leaf>, index: int) {
    exists i :: 0 <= i < |leaves| && Index(leaves[i].att) == index
  }

  /** `after` has the leaves of `before` and one more. */
  ghost predicate Adds(before: seq<Leaf>, after: seq<Leaf>, leaf: Leaf) {
    |after| == |before| + 1 && forall l :: l in after <==> l in before || l == leaf
  }

  /** INSERT ... DO NOTHING keeps the order, every leaf there is, and the new one unless its index is taken. */
  lemma {:induction false} RecordLeafInserts(leaves: seq<Leaf>, att: Attestation)
    requires InOrder(leaves)
    ensures InOrder(RecordLeaf(leaves, att))
    ensures if IndexTaken(leaves, Index(att)) then RecordLeaf(leaves, att) == leaves
            else Adds(leaves, RecordLeaf(leaves, att), Leaf(att, None))
  {
    if leaves != [] {
      var before, last := leaves[..|leaves| - 1], leaves[|leaves| - 1];
      assert leaves == before + [last];
      if Index(att) < Index(last.att) {
        RecordLeafInserts(before, att);
        TakenBeforeLast(before, Index(att), last);
        LastStaysLast(before, att, last);
      } else {
        AtLast(leaves, att);
      }
    } else {
      assert Adds([], [Leaf(att, None)], Leaf(att, None));
    }
  }

  lemma AtLast(leaves: seq<Leaf>, att: Attestation)
    requires InOrder(leaves) && leaves != [] && Index(leaves[|leaves| - 1].att) <= Index(att)
    ensures InOrder(RecordLeaf(leaves, att))
    ensures if IndexTaken(leaves, Index(att)) then RecordLeaf(leaves, att) == leaves
            else Adds(leaves, RecordLeaf(leaves, att), Leaf(att, None))
  {
    var last := |leaves| - 1;
    if Index(leaves[last].att) == Index(att) { assert IndexTaken(leaves, Index(att)); }
  }

  lemma TakenBeforeLast(before: seq<Leaf>, index: int, last: Leaf)
    requires index < Index(last.att)
    ensures IndexTaken(before + [last], index) <==> IndexTaken(before, index)
  {
    var leaves := before + [last];
    if i :| 0 <= i < |leaves| && Index(leaves[i].att) == index { assert before[i] == leaves[i]; }
    if i :| 0 <= i < |before| && Index(before[i].att) == index { assert leaves[i] == before[i]; }
  }

  lemma LastStaysLast(before: seq<Leaf>, att: Attestation, last: Leaf)
    requires InOrder(before + [last]) && Index(att) < Index(last.att) && InOrder(RecordLeaf(before, att))
    requires RecordLeaf(before, att) == before || Adds(before, RecordLeaf(before, att), Leaf(att, None))
    ensures InOrder(RecordLeaf(before, att) + [last])
    ensures Adds(before, RecordLeaf(before, att), Leaf(att, None)) ==>
              Adds(before + [last], RecordLeaf(before, att) + [last], Leaf(att, None))
  {
    var after := RecordLeaf(before, att);
    forall i | 0 <= i < |after| ensures Index(after[i].att) < Index(last.att) {
      assert after[i] in after;
      if after[i] in before {
        var j :| 0 <= j < |before| && before[j] == after[i];
        assert (before + [last])[j] == before[j] && (before + [last])[|before|] == last;
      }
    }
  }

  // ----- preparing and committing a batch

  /** The next index, in JavaScript numbers. */
  predicate Follows(previous: Attestation, next: Attestation) {
    Index(next) == AsNumber(Index(previous) + 1)
  }

  /** The end of the contiguous run that starts before position `i`. */
  function RunEnd(atts: seq<Attestation>, i: nat): (end: nat)
    requires 0 < i <= |atts|
    ensures i <= end <= |atts|
    ensures forall j :: i <= j < end ==> Follows(atts[j - 1], atts[j])
    ensures end < |atts| ==> !Follows(atts[end - 1], atts[end])
    decreases |atts| - i
  {
    if i < |atts| && Follows(atts[i - 1], atts[i]) then RunEnd(atts, i + 1) else i
  }

  function Min(m: nat, n: nat): nat {
    if m <= n then m else n
  }

  function Pending(t: Tables, maxSize: nat): seq<Attestation> {
    var tail := Held(t.leaves, None);
    tail[..Min(maxSize, |tail|)]
  }

  /**
   Nothing to do; the error of an empty tail with no minimum, or of a run that does not build; or
   the run to put in a batch.
   */
  datatype Offer = Nothing | Failing | Offer(run: seq<Attestation>)

  function OfferOf(t: Tables, maxSize: nat, minSize: int): Offer {
    var pending := Pending(t, maxSize);
    if |pending| < minSize then Nothing
    else if pending == [] then Failing
    else
      var run := pending[..RunEnd(pending, 1)];
      if |run| < minSize then Nothing else if Buildable(run) then Offer(run) else Failing
  }

  /** `n` is as far as the tail goes on without a gap, and no further than `maxSize`. */
  ghost predicate LongestFront(tail: seq<Attestation>, maxSize: nat, n: nat) {
    && n <= |tail| && n <= maxSize && (forall j :: 0 < j < n ==> Follows(tail[j - 1], tail[j]))
    && (n == |tail| || n == maxSize || (n > 0 && !Follows(tail[n - 1], tail[n])))
  }

  lemma FrontOfTail(t: Tables, maxSize: nat) returns (n: nat)
    ensures var tail, pending := Held(t.leaves, None), Pending(t, maxSize);
            && LongestFront(tail, maxSize, n) && n <= |pending| && pending[..n] == tail[..n]
            && (if pending == [] then n == 0 else n > 0 && n == RunEnd(pending, 1))
  {
    var tail, pending := Held(t.leaves, None), Pending(t, maxSize);
    n := if pending == [] then 0 else RunEnd(pending, 1);
  }

  lemma OneLongestFront(tail: seq<Attestation>, maxSize: nat, m: nat, n: nat)
    requires LongestFront(tail, maxSize, m) && LongestFront(tail, maxSize, n)
    ensures m == n
  {
  }

  /** The offer is the longest front of the un-batched tail, if that is long enough and builds. */
  lemma OfferExactly(t: Tables, maxSize: nat, minSize: int, n: nat)
    requires LongestFront(Held(t.leaves, None), maxSize, n)
    ensures OfferOf(t, maxSize, minSize) ==
              if n < minSize then Nothing
              else if n == 0 || !Buildable(Held(t.leaves, None)[..n]) then Failing
              else Offer(Held(t.leaves, None)[..n])
  {
    var m := FrontOfTail(t, maxSize);
    OneLongestFront(Held(t.leaves, None), maxSize, m, n);
  }

  predicate CommitmentSigned(w: World, root: Digest, callCount: nat, seller: string, signature: seq<byte>) {
    && IsU64(w.streamId) && IsU64(callCount)
    && VerifySignatureRaw(w.rules, BatchCommitmentMessage(w.streamId, root, callCount), signature, seller)
  }

  function RowFor(sha: Hash, run: seq<Attestation>, seller: string, signature: seq<byte>): BatchRow
    requires Buildable(run)
  {
    BatchRow(seller, BatchRoot(sha, run), |run|, IndexNumber(run[0]), LastIndex(IndexNumber(run[0]), |run|), signature)
  }

  /** The CHECK constraints of attestation_batches. */
  predicate RowAllowed(row: BatchRow) {
    row.callCount > 0 && 0 <= row.firstCallIndex && row.lastCallIndex - row.firstCallIndex + 1 == row.callCount
  }

  /** Inserting the batch and claiming its leaves are two statements: `attached` tells whether the second ran. */
  function Commit(
    w: World, t: Tables, run: seq<Attestation>, seller: string, signature: seq<byte>, attached: bool): Option<Tables>
    requires Buildable(run)
  {
    var row := RowFor(w.sha, run, seller, signature);
    if !CommitmentSigned(w, row.merkleRoot, row.callCount, seller, signature) || !RowAllowed(row) then None
    else Some(t.(batches := t.batches + [row],
                 leaves :=
                   if attached then Attach(t.leaves, |t.batches|, row.firstCallIndex, row.lastCallIndex) else t.leaves))
  }

  /**
   A batch is stored exactly when the seller signed root and count of the run, and the table takes its
   row; of the leaves only unclaimed ones in range are claimed, and only by the second statement.
   */
  lemma CommitExactly(
    w: World, t: Tables, run: seq<Attestation>, seller: string, signature: seq<byte>, attached: bool)
    requires Buildable(run)
    ensures var r, row := Commit(w, t, run, seller, signature, attached), RowFor(w.sha, run, seller, signature);
            && (r.Some? <==>
                 && CommitmentSigned(w, BatchRoot(w.sha, run), |run|, seller, signature)
                 && 0 <= row.firstCallIndex && row.lastCallIndex == row.firstCallIndex + |run| - 1)
            && row.merkleRoot == BatchRoot(w.sha, run) && row.callCount == |run| && row.seller == seller
            && row.firstCallIndex == IndexNumber(run[0]) && row.batchSignature == signature
            && (r.Some? ==>
                 && r.value == t.(batches := t.batches + [row], leaves := r.value.leaves)
                 && (!attached ==> r.value.leaves == t.leaves)
                 && |r.value.leaves| == |t.leaves|
                 && (attached ==> forall i :: 0 <= i < |t.leaves| ==>
                       var leaf := t.leaves[i];
                       r.value.leaves[i] ==
                         if leaf.batchRef == None && row.firstCallIndex <= Index(leaf.att) <= row.lastCallIndex
                           then Leaf(leaf.att, Some(|t.batches|)) else leaf))
  {
  }

  // ----- runs

  /**
   `offers` lists every run handed out so far, so a commit may use a stale one. The last two count
   the calls metered so far, and those of them that the settler has taken off the stream's row.
   */
  datatype State = State(tables: Tables, offers: seq<seq<Attestation>>, metered: nat, settled: int)

  const CALLS_PER_SETTLEMENT := 25

  /** The settler resets calls_used once enough calls are due; a forced settlement does not wait for them. */
  datatype Event =
    | MeterCall(call: Call)
    | SettleStream(forced: bool)
    | Prepare(maxSize: nat, minSize: int)
    | CommitOffer(offer: nat, seller: string, signature: seq<byte>, attached: bool)

  predicate Due(stream: Stream, forced: bool) {
    if forced then stream.active else stream.callsUsed >= CALLS_PER_SETTLEMENT
  }

  function Next(w: World, s: State, event: Event): State {
    match event
    case MeterCall(call) =>
      var r := Meter(w, s.tables, call);
      if r.Ok? then s.(tables := r.value, metered := s.metered + 1) else s
    case SettleStream(forced) =>
      if s.tables.stream.Some? && Due(s.tables.stream.value, forced) then
        var stream := s.tables.stream.value;
        s.(tables := s.tables.(stream := Some(stream.(callsUsed := 0))), settled := s.settled + stream.callsUsed)
      else s
    case Prepare(maxSize, minSize) =>
      var offer := OfferOf(s.tables, maxSize, minSize);
      if offer.Offer? then s.(offers := s.offers + [offer.run]) else s
    case CommitOffer(k, seller, signature, attached) =>
      if k < |s.offers| && Buildable(s.offers[k]) then
        var r := Commit(w, s.tables, s.offers[k], seller, signature, attached);
        if r.Some? then s.(tables := r.value) else s
      else s
  }

  function Run(w: World, stream: Option<Stream>, events: seq<Event>): State {
    if events == [] then State(Tables(stream, [], [], []), [], 0, 0) else
      Next(w, Run(w, stream, events[..|events| - 1]), events[|events| - 1])
  }

  /** The used calls are settled exactly when enough are due, or by force on an active stream, and all of them. */
  lemma SettlesWhenDue(w: World, s: State, forced: bool)
    ensures var r := Next(w, s, SettleStream(forced));
            if s.tables.stream.Some? && (if forced then s.tables.stream.value.active
                                         else s.tables.stream.value.callsUsed >= 25) then
              && r.tables.stream == Some(s.tables.stream.value.(callsUsed := 0))
              && r.settled == s.settled + s.tables.stream.value.callsUsed
              && r == s.(tables := s.tables.(stream := r.tables.stream), settled := r.settled)
            else r == s
  {
  }

  // ----- the invariant

  ghost predicate Ascending(atts: seq<Attestation>) {
    forall i, j :: 0 <= i < j < |atts| ==> Index(atts[i]) < Index(atts[j])
  }

  ghost predicate NoncesDiffer(used: seq<Used>) {
    forall i, j :: 0 <= i < j < |used| ==> used[i].nonce != used[j].nonce
  }

  /** One used nonce a leaf, in the same order. */
  ghost predicate UsedByLeaves(used: seq<Used>, atts: seq<Attestation>) {
    |used| == |atts| && forall i :: 0 <= i < |used| ==> used[i] == Used(atts[i].fields.nonce, Index(atts[i]))
  }

  /** What every archived attestation satisfied when it was metered. */
  predicate Metered(w: World, att: Attestation) {
    && WellShaped(att) && Encodable(att.fields) && AreNumbers(att.fields) && att.fields.streamId == w.streamId
    && (att.signer != "" ==> VerifySignatureRaw(w.rules, SigningMessage(att.fields), att.signature, att.signer))
  }

  /** A run that builds, of metered leaves in the order of the archive. */
  ghost predicate Offered(w: World, atts: seq<Attestation>, run: seq<Attestation>) {
    Buildable(run) && Ascending(run) && forall i :: 0 <= i < |run| ==> run[i] in atts && Metered(w, run[i])
  }

  /** A run of metered leaves without a gap: all that the archive holds from its first index to its last. */
  ghost predicate Archived(atts: seq<Attestation>, run: seq<Attestation>) {
    && Buildable(run) && Index(run[0]) == IndexNumber(run[0]) && Consecutive(run, Index(run[0]))
    && Ranged(atts, Index(run[0]), Index(run[0]) + |run| - 1) == run
  }

  ghost predicate BatchStands(w: World, atts: seq<Attestation>, row: BatchRow) {
    var run := Ranged(atts, row.firstCallIndex, row.lastCallIndex);
    && Archived(atts, run) && row == RowFor(w.sha, run, row.seller, row.batchSignature) && RowAllowed(row)
    && CommitmentSigned(w, row.merkleRoot, row.callCount, row.seller, row.batchSignature)
  }

  /** A leaf is claimed only by a batch whose range it lies in. */
  predicate ClaimedInRange(leaf: Leaf, batches: seq<BatchRow>) {
    leaf.batchRef.Some? ==>
      && leaf.batchRef.value < |batches|
      && batches[leaf.batchRef.value].firstCallIndex <= Index(leaf.att) <= batches[leaf.batchRef.value].lastCallIndex
  }

  ghost predicate GoodLeaves(w: World, t: Tables) {
    var atts := Wire(t.leaves);
    Ascending(atts) && NoncesDiffer(t.used) && UsedByLeaves(t.used, atts) &&
      forall i :: 0 <= i < |atts| ==> Metered(w, atts[i])
  }

  ghost predicate GoodBatches(w: World, t: Tables) {
    && (forall k :: 0 <= k < |t.batches| ==> BatchStands(w, Wire(t.leaves), t.batches[k]))
    && (forall i :: 0 <= i < |t.leaves| ==> ClaimedInRange(t.leaves[i], t.batches))
  }

  ghost predicate GoodOffers(w: World, s: State) {
    forall k :: 0 <= k < |s.offers| ==> Offered(w, Wire(s.tables.leaves), s.offers[k])
  }

  ghost predicate Good(w: World, s: State) {
    GoodLeaves(w, s.tables) && GoodBatches(w, s.tables) && GoodOffers(w, s)
  }

  // ----- ranges of an ascending list

  lemma {:induction false} RangedOutside(atts: seq<Attestation>, lo: int, hi: int)
    requires forall i :: 0 <= i < |atts| ==> !(lo <= Index(atts[i]) <= hi)
    ensures Ranged(atts, lo, hi) == []
  {
    if atts != [] { RangedOutside(atts[..|atts| - 1], lo, hi); }
  }

  lemma {:induction false} RangedMembers(atts: seq<Attestation>, lo: int, hi: int, x: Attestation)
    ensures x in Ranged(atts, lo, hi) <==> x in atts && lo <= Index(x) <= hi
  {
    if atts != [] {
      RangedMembers(atts[..|atts| - 1], lo, hi, x);
      assert atts == atts[..|atts| - 1] + [atts[|atts| - 1]];
    }
  }

  lemma RangedAppend(atts: seq<Attestation>, att: Attestation, lo: int, hi: int)
    ensures Ranged(atts + [att], lo, hi) == Ranged(atts, lo, hi) + (if lo <= Index(att) <= hi then [att] else [])
  {
    assert (atts + [att])[..|atts|] == atts;
  }

  /** Only indices up to `m` count when no index exceeds it. */
  lemma {:induction false} RangedTighter(atts: seq<Attestation>, lo: int, hi: int, m: int)
    requires m <= hi && forall i :: 0 <= i < |atts| ==> Index(atts[i]) <= m
    ensures Ranged(atts, lo, hi) == Ranged(atts, lo, m)
  {
    if atts != [] { RangedTighter(atts[..|atts| - 1], lo, hi, m); }
  }

  ghost predicate Consecutive(run: seq<Attestation>, first: int) {
    forall i :: 0 <= i < |run| ==> Index(run[i]) == first + i
  }

  /** A consecutive run of members is the whole range it spans: indices are unique. */
  lemma {:induction false} ConsecutiveIsRange(atts: seq<Attestation>, run: seq<Attestation>, first: int)
    requires Ascending(atts) && Consecutive(run, first) && forall i :: 0 <= i < |run| ==> run[i] in atts
    ensures Ranged(atts, first, first + |run| - 1) == run
  {
    if run == [] {
      RangedOutside(atts, first, first - 1);
    } else {
      var n, m := |atts| - 1, |run| - 1;
      assert run[m] in atts;
      var before := atts[..n];
      if Index(atts[n]) > first + m {
        forall i | 0 <= i < |run| ensures run[i] in before { assert run[i] in atts; }
        ConsecutiveIsRange(before, run, first);
      } else {
        assert run[m] == atts[n];
        forall i | 0 <= i < m ensures run[..m][i] in before { assert run[i] in atts; }
        ConsecutiveIsRange(before, run[..m], first);
        RangedTighter(before, first, first + m, first + m - 1);
      }
    }
  }

  // ----- metering keeps the invariant

  lemma WireGrows(leaves: seq<Leaf>, att: Attestation)
    ensures Wire(leaves + [Leaf(att, None)]) == Wire(leaves) + [att]
  {
  }

  lemma NewestLeaf(w: World, t: Tables, att: Attestation)
    requires GoodLeaves(w, t) && Above(t.used, Index(att))
    ensures RecordLeaf(t.leaves, att) == t.leaves + [Leaf(att, None)]
    ensures forall i :: 0 <= i < |t.leaves| ==> Index(t.leaves[i].att) < Index(att)
  {
    var atts := Wire(t.leaves);
    forall i | 0 <= i < |t.leaves| ensures Index(t.leaves[i].att) < Index(att) {
      assert t.used[i] == Used(atts[i].fields.nonce, Index(atts[i]));
    }
  }

  lemma ArchivedGrows(atts: seq<Attestation>, run: seq<Attestation>, att: Attestation)
    requires Archived(atts, run) && forall i :: 0 <= i < |atts| ==> Index(atts[i]) < Index(att)
    ensures Archived(atts + [att], run)
  {
    var lo, hi := Index(run[0]), Index(run[0]) + |run| - 1;
    RangedAppend(atts, att, lo, hi);
    RangedMembers(atts, lo, hi, run[|run| - 1]);
  }

  lemma BatchGrows(w: World, atts: seq<Attestation>, row: BatchRow, att: Attestation)
    requires BatchStands(w, atts, row) && forall i :: 0 <= i < |atts| ==> Index(atts[i]) < Index(att)
    ensures BatchStands(w, atts + [att], row)
  {
    var run := Ranged(atts, row.firstCallIndex, row.lastCallIndex);
    ArchivedGrows(atts, run, att);
  }

  /** What a metered attestation adds, and that it satisfied the rules. */
  lemma MeteredCall(w: World, t: Tables, call: Call)
    requires GoodLeaves(w, t) && Meter(w, t, call).Ok? && call.attestation.Some?
    ensures var att, after := call.attestation.value.(signer := call.signer), Meter(w, t, call).value;
            && after.leaves == t.leaves + [Leaf(att, None)] &&
                 after.used == t.used + [Used(att.fields.nonce, Index(att))]
            && !NonceUsed(t.used, att.fields.nonce) && Metered(w, att)
            && (forall i :: 0 <= i < |t.leaves| ==> Index(t.leaves[i].att) < Index(att))
  {
    var att := call.attestation.value;
    AcceptedExactly(w.rules, t.used, att, Expectation(call.signer, Some(w.streamId), call.now));
    NewestLeaf(w, t, att.(signer := call.signer));
  }

  lemma MeterKeepsLeaves(w: World, t: Tables, call: Call)
    requires GoodLeaves(w, t) && Meter(w, t, call).Ok?
    ensures GoodLeaves(w, Meter(w, t, call).value)
  {
    if call.attestation.Some? {
      var att := call.attestation.value.(signer := call.signer);
      MeteredCall(w, t, call);
      WireGrows(t.leaves, att);
    }
  }

  lemma MeterKeepsBatches(w: World, t: Tables, call: Call)
    requires GoodLeaves(w, t) && GoodBatches(w, t) && Meter(w, t, call).Ok?
    ensures GoodBatches(w, Meter(w, t, call).value)
  {
    if call.attestation.Some? {
      var att, atts := call.attestation.value.(signer := call.signer), Wire(t.leaves);
      MeteredCall(w, t, call);
      WireGrows(t.leaves, att);
      forall k | 0 <= k < |t.batches| ensures BatchStands(w, atts + [att], t.batches[k]) {
        BatchGrows(w, atts, t.batches[k], att);
      }
    }
  }

  lemma MeterKeepsOffers(w: World, s: State, call: Call)
    requires GoodLeaves(w, s.tables) && GoodOffers(w, s) && Meter(w, s.tables, call).Ok?
    ensures GoodOffers(w, s.(tables := Meter(w, s.tables, call).value))
  {
    if call.attestation.Some? {
      var att, atts := call.attestation.value.(signer := call.signer), Wire(s.tables.leaves);
      MeteredCall(w, s.tables, call);
      WireGrows(s.tables.leaves, att);
      forall k | 0 <= k < |s.offers| ensures Offered(w, atts + [att], s.offers[k]) {
        assert Offered(w, atts, s.offers[k]);
      }
    }
  }

  lemma MeterKeepsGood(w: World, s: State, call: Call)
    requires Good(w, s) && Meter(w, s.tables, call).Ok?
    ensures Good(w, s.(tables := Meter(w, s.tables, call).value))
  {
    MeterKeepsLeaves(w, s.tables, call);
    MeterKeepsBatches(w, s.tables, call);
    MeterKeepsOffers(w, s, call);
  }

  // ----- preparing keeps the invariant

  lemma {:induction false} HeldMembers(leaves: seq<Leaf>, ref: Option<nat>)
    ensures forall i :: 0 <= i < |Held(leaves, ref)| ==> Held(leaves, ref)[i] in Wire(leaves)
  {
    if leaves != [] {
      HeldMembers(leaves[..|leaves| - 1], ref);
      assert Wire(leaves) == Wire(leaves[..|leaves| - 1]) + [leaves[|leaves| - 1].att];
    }
  }

  lemma {:induction false} HeldAscends(leaves: seq<Leaf>, ref: Option<nat>)
    requires Ascending(Wire(leaves))
    ensures Ascending(Held(leaves, ref))
  {
    if leaves != [] {
      var before, last := leaves[..|leaves| - 1], leaves[|leaves| - 1];
      assert Wire(leaves) == Wire(before) + [last.att];
      forall i, j | 0 <= i < j < |before| ensures Index(Wire(before)[i]) < Index(Wire(before)[j]) {
        assert Wire(leaves)[i] == Wire(before)[i] && Wire(leaves)[j] == Wire(before)[j];
      }
      HeldAscends(before, ref);
      HeldMembers(before, ref);
      forall i | 0 <= i < |Held(before, ref)| ensures Index(Held(before, ref)[i]) < Index(last.att) {
        var j :| 0 <= j < |before| && Wire(before)[j] == Held(before, ref)[i];
        assert Wire(leaves)[j] == Wire(before)[j] && Wire(leaves)[|before|] == last.att;
      }
    }
  }

  /** What is held for `ref` is what the leaves with that reference carry. */
  lemma {:induction false} HeldExactly(leaves: seq<Leaf>, ref: Option<nat>, att: Attestation)
    ensures att in Held(leaves, ref) <==> Leaf(att, ref) in leaves
  {
    if leaves != [] {
      HeldExactly(leaves[..|leaves| - 1], ref, att);
      assert leaves == leaves[..|leaves| - 1] + [leaves[|leaves| - 1]];
    }
  }

  lemma HeldIsMetered(w: World, t: Tables, ref: Option<nat>, i: nat)
    requires GoodLeaves(w, t) && i < |Held(t.leaves, ref)|
    ensures Held(t.leaves, ref)[i] in Wire(t.leaves) && Metered(w, Held(t.leaves, ref)[i])
  {
    HeldMembers(t.leaves, ref);
    var atts := Wire(t.leaves);
    var j :| 0 <= j < |atts| && atts[j] == Held(t.leaves, ref)[i];
  }

  /** The columns of a batch row that a run would get are within the constraints of the table. */
  predicate RunAllowed(run: seq<Attestation>) {
    run != [] && 0 <= IndexNumber(run[0]) && LastIndex(IndexNumber(run[0]), |run|) - IndexNumber(run[0]) + 1 == |run|
  }

  lemma {:induction false} AscendingSpreads(run: seq<Attestation>, i: nat, j: nat)
    requires Ascending(run) && i <= j < |run|
    ensures Index(run[j]) - Index(run[i]) >= j - i
  {
    if i < j {
      AscendingSpreads(run, i, j - 1);
      assert Index(run[j - 1]) < Index(run[j]);
    }
  }

  lemma LastOfAllowed(run: seq<Attestation>)
    requires Buildable(run) && RunAllowed(run) && Index(run[0]) == IndexNumber(run[0])
    ensures IndexNumber(run[|run| - 1]) == Index(run[0]) + |run| - 1
  {
    AsNumberTwice(AsNumber(Index(run[0]) + |run|) - 1);
    assert InRun(run, |run| - 1);
  }

  /**
   The count of a row that the table takes leaves no room for a gap: the last index of the run is
   the one counted, and the indices before it are all different.
   */
  lemma AllowedIsConsecutive(w: World, atts: seq<Attestation>, run: seq<Attestation>)
    requires Offered(w, atts, run) && RunAllowed(run)
    ensures Index(run[0]) == IndexNumber(run[0]) && Consecutive(run, Index(run[0]))
  {
    var n, first := |run|, Index(run[0]);
    assert Metered(w, run[0]) && Metered(w, run[n - 1]);
    LastOfAllowed(run);
    forall i | 0 <= i < n ensures Index(run[i]) == first + i {
      AscendingSpreads(run, 0, i);
      AscendingSpreads(run, i, n - 1);
    }
  }

  lemma AllowedIsArchived(w: World, atts: seq<Attestation>, run: seq<Attestation>)
    requires Ascending(atts) && Offered(w, atts, run) && RunAllowed(run)
    ensures Archived(atts, run)
  {
    AllowedIsConsecutive(w, atts, run);
    ConsecutiveIsRange(atts, run, Index(run[0]));
  }

  lemma OfferIsHeld(w: World, t: Tables, maxSize: nat, minSize: int)
    requires GoodLeaves(w, t) && OfferOf(t, maxSize, minSize).Offer?
    ensures Offered(w, Wire(t.leaves), OfferOf(t, maxSize, minSize).run)
  {
    var run, tail := OfferOf(t, maxSize, minSize).run, Held(t.leaves, None);
    HeldAscends(t.leaves, None);
    forall i | 0 <= i < |run| ensures run[i] == tail[i] && run[i] in Wire(t.leaves) && Metered(w, run[i]) {
      HeldIsMetered(w, t, None, i);
    }
    assert run == tail[..|run|];
  }

  /**
   What is offered builds, and consists of metered leaves in their order. If a batch table takes it,
   as it does below 2^53, then it is all that the archive holds from its first index to its last.
   */
  lemma OfferIsArchived(w: World, t: Tables, maxSize: nat, minSize: int)
    requires GoodLeaves(w, t) && OfferOf(t, maxSize, minSize).Offer?
    ensures var run := OfferOf(t, maxSize, minSize).run;
            && Offered(w, Wire(t.leaves), run)
            && (RunAllowed(run) ==> Archived(Wire(t.leaves), run))
            && (EndsBy(run, TWO_TO_THE_53 - 1) ==> RunAllowed(run))
  {
    OfferIsHeld(w, t, maxSize, minSize);
    var run := OfferOf(t, maxSize, minSize).run;
    assert Metered(w, run[0]);
    if RunAllowed(run) { AllowedIsArchived(w, Wire(t.leaves), run); }
  }

  // ----- committing keeps the invariant

  lemma ClaimsStayInRange(leaves: seq<Leaf>, batches: seq<BatchRow>, row: BatchRow, attached: bool)
    requires forall i :: 0 <= i < |leaves| ==> ClaimedInRange(leaves[i], batches)
    ensures var after := if attached then Attach(leaves, |batches|, row.firstCallIndex, row.lastCallIndex) else leaves;
            Wire(after) == Wire(leaves) && forall i :: 0 <= i < |after| ==> ClaimedInRange(after[i], batches + [row])
  {
    var after := if attached then Attach(leaves, |batches|, row.firstCallIndex, row.lastCallIndex) else leaves;
    forall i | 0 <= i < |after| ensures ClaimedInRange(after[i], batches + [row]) {
      assert ClaimedInRange(leaves[i], batches);
    }
  }

  lemma RowStands(w: World, atts: seq<Attestation>, run: seq<Attestation>, seller: string, signature: seq<byte>)
    requires Ascending(atts) && Offered(w, atts, run) && RowAllowed(RowFor(w.sha, run, seller, signature))
    requires CommitmentSigned(w, BatchRoot(w.sha, run), |run|, seller, signature)
    ensures BatchStands(w, atts, RowFor(w.sha, run, seller, signature))
  {
    AllowedIsArchived(w, atts, run);
  }

  lemma CommitKeepsGood(w: World, s: State, k: nat, seller: string, signature: seq<byte>, attached: bool)
    requires Good(w, s) && k < |s.offers| && Buildable(s.offers[k])
    requires Commit(w, s.tables, s.offers[k], seller, signature, attached).Some?
    ensures Good(w, s.(tables := Commit(w, s.tables, s.offers[k], seller, signature, attached).value))
  {
    var row := RowFor(w.sha, s.offers[k], seller, signature);
    ClaimsStayInRange(s.tables.leaves, s.tables.batches, row, attached);
    RowStands(w, Wire(s.tables.leaves), s.offers[k], seller, signature);
  }

  /** Every run, with rejected calls, stale offers and commits that stop halfway. */
  lemma {:induction false} RunKeepsGood(w: World, stream: Option<Stream>, events: seq<Event>)
    ensures Good(w, Run(w, stream, events))
  {
    if events != [] {
      var before, event := events[..|events| - 1], events[|events| - 1];
      RunKeepsGood(w, stream, before);
      var s := Run(w, stream, before);
      match event
      case MeterCall(call) => if Meter(w, s.tables, call).Ok? { MeterKeepsGood(w, s, call); }
      case SettleStream(forced) =>
      case Prepare(maxSize, minSize) =>
        if OfferOf(s.tables, maxSize, minSize).Offer? { OfferIsArchived(w, s.tables, maxSize, minSize); }
      case CommitOffer(k, seller, signature, attached) =>
        if k < |s.offers| && Buildable(s.offers[k]) &&
          Commit(w, s.tables, s.offers[k], seller, signature, attached).Some?
        {
          CommitKeepsGood(w, s, k, seller, signature, attached);
        }
    }
  }
}
