/**
 backend/src/attestation/AttestationArchive.js and the metering transaction, as operations on the
 tables of one stream, with what holds in every run of them.
 */
module AttestationArchive {
  import opened Bytes
  import opened Outcomes
  import opened AttestationCanonical
  import opened MerkleTree
  import opened MerkleBatchBuilder
  import opened AttestationVerifier
  import opened Metering

  // ----- runs

  function CallsRemaining(s: Option<Stream>): int {
    if s.None? then 0 else s.value.callsRemaining
  }

  function CallsUsed(s: Option<Stream>): int {
    if s.None? then 0 else s.value.callsUsed
  }

  predicate Enforced(event: Event) {
    event.MeterCall? ==> event.call.enforced
  }

  ghost predicate AllEnforced(events: seq<Event>) {
    forall i :: 0 <= i < |events| ==> Enforced(events[i])
  }

  /** What the stream's row and the archive know of `n` calls that were metered, `m` of them settled. */
  ghost predicate Accounted(stream: Option<Stream>, t: Tables, n: nat, m: int, enforced: bool) {
    && (t.stream.Some? <==> stream.Some?)
    && CallsRemaining(t.stream) + n == CallsRemaining(stream)
    && CallsUsed(t.stream) + m == CallsUsed(stream) + n
    && |t.leaves| == |t.used| <= n && (enforced ==> |t.leaves| == n)
    && (CallsRemaining(stream) >= 0 ==> CallsRemaining(t.stream) >= 0)
  }

  lemma NextAccounts(w: World, stream: Option<Stream>, s: State, event: Event, enforced: bool)
    requires Good(w, s) && Accounted(stream, s.tables, s.metered, s.settled, enforced) && (enforced ==> Enforced(event))
    ensures var after := Next(w, s, event);
            Accounted(stream, after.tables, after.metered, after.settled, enforced)
  {
    if event.MeterCall? && Meter(w, s.tables, event.call).Ok? && event.call.attestation.Some? {
      MeteredCall(w, s.tables, event.call);
    }
  }

  /**
   No call is lost or made up, whenever the settler resets the row: each metered call is taken off
   the calls remaining, each is either used or settled, and with attestations enforced each is
   backed by exactly one archived leaf.
   */
  lemma {:induction false} RunConserves(w: World, stream: Option<Stream>, events: seq<Event>)
    ensures var s := Run(w, stream, events);
            Accounted(stream, s.tables, s.metered, s.settled, AllEnforced(events))
  {
    if events != [] {
      var before, event := events[..|events| - 1], events[|events| - 1];
      RunKeepsGood(w, stream, before);
      RunConserves(w, stream, before);
      assert AllEnforced(events) ==> AllEnforced(before) && Enforced(event);
      NextAccounts(w, stream, Run(w, stream, before), event, AllEnforced(events));
    }
  }

  /** In every run, indices strictly increase, no nonce repeats, and every leaf still verifies under its signer. */
  lemma LeavesNeverRepeat(w: World, stream: Option<Stream>, events: seq<Event>, i: nat, j: nat)
    requires i < j < |Run(w, stream, events).tables.leaves|
    ensures var leaves := Run(w, stream, events).tables.leaves;
            && Index(leaves[i].att) < Index(leaves[j].att)
            && leaves[i].att.fields.nonce != leaves[j].att.fields.nonce
            && Metered(w, leaves[i].att) && Metered(w, leaves[j].att)
  {
    RunKeepsGood(w, stream, events);
    var t := Run(w, stream, events).tables;
    var atts := Wire(t.leaves);
    assert t.used[i] == Used(atts[i].fields.nonce, Index(atts[i])) &&
      t.used[j] == Used(atts[j].fields.nonce, Index(atts[j]));
    assert Index(atts[i]) < Index(atts[j]) && Metered(w, atts[i]) && Metered(w, atts[j]);
  }

  /** `later` has every leaf of `leaves`, unchanged but for batches claimed since. */
  ghost predicate Extends(leaves: seq<Leaf>, later: seq<Leaf>) {
    |leaves| <= |later| &&
      forall i ::
      0 <= i < |leaves| ==> later[i].att == leaves[i].att && (leaves[i].batchRef.Some? ==> later[i] == leaves[i])
  }

  lemma MeterExtends(w: World, t: Tables, call: Call)
    requires GoodLeaves(w, t) && Meter(w, t, call).Ok?
    ensures Extends(t.leaves, Meter(w, t, call).value.leaves) && Meter(w, t, call).value.batches == t.batches
  {
    if call.attestation.Some? { MeteredCall(w, t, call); }
  }

  lemma CommitExtends(w: World, t: Tables, run: seq<Attestation>, seller: string, signature: seq<byte>, attached: bool)
    requires Buildable(run) && Commit(w, t, run, seller, signature, attached).Some?
    ensures var after := Commit(w, t, run, seller, signature, attached).value;
            Extends(t.leaves, after.leaves) && t.batches <= after.batches
  {
  }

  lemma NextExtends(w: World, s: State, event: Event)
    requires Good(w, s)
    ensures Extends(s.tables.leaves, Next(w, s, event).tables.leaves)
    ensures s.tables.batches <= Next(w, s, event).tables.batches
  {
    match event
    case MeterCall(call) => if Meter(w, s.tables, call).Ok? { MeterExtends(w, s.tables, call); }
    case SettleStream(forced) =>
    case Prepare(maxSize, minSize) =>
    case CommitOffer(k, seller, signature, attached) =>
      if k < |s.offers| && Buildable(s.offers[k]) && Commit(w, s.tables, s.offers[k], seller, signature, attached).Some?
      {
        CommitExtends(w, s.tables, s.offers[k], seller, signature, attached);
      }
  }

  /** Once archived, a leaf stays; once claimed, it stays with its batch. */
  lemma {:induction false} RunExtends(w: World, stream: Option<Stream>, events: seq<Event>, n: nat)
    requires n <= |events|
    ensures Extends(Run(w, stream, events[..n]).tables.leaves, Run(w, stream, events).tables.leaves)
    ensures Run(w, stream, events[..n]).tables.batches <= Run(w, stream, events).tables.batches
  {
    if n == |events| {
      assert events[..n] == events;
    } else {
      var before := events[..|events| - 1];
      RunExtends(w, stream, before, n);
      assert before[..n] == events[..n];
      RunKeepsGood(w, stream, before);
      NextExtends(w, Run(w, stream, before), events[|events| - 1]);
    }
  }

  // ----- complete batches

  predicate InRow(leaf: Leaf, row: BatchRow) {
    row.firstCallIndex <= Index(leaf.att) <= row.lastCallIndex
  }

  /** The batch holds every leaf of its range. */
  ghost predicate Complete(t: Tables, id: nat)
    requires id < |t.batches|
  {
    forall i :: 0 <= i < |t.leaves| && InRow(t.leaves[i], t.batches[id]) ==> t.leaves[i].batchRef == Some(id)
  }

  /** A committed batch is complete exactly when no other batch had claimed any of its leaves. */
  lemma CompleteExactly(w: World, s: State, k: nat, seller: string, signature: seq<byte>)
    requires Good(w, s) && k < |s.offers| && Buildable(s.offers[k]) &&
               Commit(w, s.tables, s.offers[k], seller, signature, true).Some?
    ensures var row := RowFor(w.sha, s.offers[k], seller, signature);
            Complete(Commit(w, s.tables, s.offers[k], seller, signature, true).value, |s.tables.batches|) <==>
            forall i ::
              0 <= i < |s.tables.leaves| && InRow(s.tables.leaves[i], row) ==> s.tables.leaves[i].batchRef.None?
  {
    var t, row, id := s.tables, RowFor(w.sha, s.offers[k], seller, signature), |s.tables.batches|;
    var after := Commit(w, t, s.offers[k], seller, signature, true).value;
    assert after.batches[id] == row;
    forall i | 0 <= i < |t.leaves| && InRow(t.leaves[i], row)
      ensures after.leaves[i].batchRef == Some(id) <==> t.leaves[i].batchRef.None?
    {
      assert after.leaves[i] == AttachOne(t.leaves[i], id, row.firstCallIndex, row.lastCallIndex);
      assert ClaimedInRange(t.leaves[i], t.batches);
    }
    if Complete(after, id) {
      forall i | 0 <= i < |t.leaves| && InRow(t.leaves[i], row) ensures t.leaves[i].batchRef.None? {
        assert InRow(after.leaves[i], after.batches[id]);
      }
    }
  }

  /**
   An offer committed twice, both times with the seller's one signature, leaves a second batch over
   the same calls that is not complete.
   */
  lemma SameOfferTwice(w: World, s: State, k: nat, seller: string, signature: seq<byte>)
    requires Good(w, s) && k < |s.offers| && Buildable(s.offers[k]) &&
               Commit(w, s.tables, s.offers[k], seller, signature, true).Some?
    ensures var once, n := Commit(w, s.tables, s.offers[k], seller, signature, true).value, |s.tables.batches|;
            var twice := Commit(w, once, s.offers[k], seller, signature, true);
            && twice.Some? && twice.value.batches[n] == twice.value.batches[n + 1] && !Complete(twice.value, n + 1)
  {
    var n, row := |s.tables.batches|, RowFor(w.sha, s.offers[k], seller, signature);
    var once := Commit(w, s.tables, s.offers[k], seller, signature, true).value;
    var i := FirstLeafClaimed(w, s, k, seller, signature);
    var twice := Commit(w, once, s.offers[k], seller, signature, true).value;
    assert twice.leaves[i] == AttachOne(once.leaves[i], n + 1, row.firstCallIndex, row.lastCallIndex);
    assert InRow(twice.leaves[i], twice.batches[n + 1]) && twice.leaves[i].batchRef != Some(n + 1);
  }

  lemma FirstLeafClaimed(w: World, s: State, k: nat, seller: string, signature: seq<byte>) returns (i: nat)
    requires Good(w, s) && k < |s.offers| && Buildable(s.offers[k]) &&
               Commit(w, s.tables, s.offers[k], seller, signature, true).Some?
    ensures var once, n := Commit(w, s.tables, s.offers[k], seller, signature, true).value, |s.tables.batches|;
            && i < |once.leaves| && InRow(once.leaves[i], RowFor(w.sha, s.offers[k], seller, signature))
            && once.leaves[i].batchRef.Some? && once.leaves[i].batchRef.value <= n
  {
    var n, row := |s.tables.batches|, RowFor(w.sha, s.offers[k], seller, signature);
    CommitKeepsGood(w, s, k, seller, signature, true);
    var once := Commit(w, s.tables, s.offers[k], seller, signature, true).value;
    assert once.batches[n] == row && BatchStands(w, Wire(once.leaves), row);
    i := LeafInBatch(w, once, n, row.firstCallIndex);
    assert ClaimedInRange(s.tables.leaves[i], s.tables.batches);
    assert once.leaves[i] == AttachOne(s.tables.leaves[i], n, row.firstCallIndex, row.lastCallIndex);
  }

  /** Two complete batches never overlap: their ranges are disjoint. */
  lemma CompleteBatchesDisjoint(w: World, s: State, x: nat, y: nat, n: int)
    requires Good(w, s) && x < |s.tables.batches| && y < |s.tables.batches| && x != y
    requires Complete(s.tables, x) && Complete(s.tables, y)
    ensures !(s.tables.batches[x].firstCallIndex <= n <= s.tables.batches[x].lastCallIndex &&
              s.tables.batches[y].firstCallIndex <= n <= s.tables.batches[y].lastCallIndex)
  {
    var a, b := s.tables.batches[x], s.tables.batches[y];
    if a.firstCallIndex <= n <= a.lastCallIndex && b.firstCallIndex <= n <= b.lastCallIndex {
      var i := LeafInBatch(w, s.tables, x, n);
      assert InRow(s.tables.leaves[i], a) && InRow(s.tables.leaves[i], b);
    }
  }

  /** Every index a batch commits to is archived. */
  lemma LeafInBatch(w: World, t: Tables, id: nat, n: int) returns (i: nat)
    requires id < |t.batches| && BatchStands(w, Wire(t.leaves), t.batches[id])
    requires t.batches[id].firstCallIndex <= n <= t.batches[id].lastCallIndex
    ensures i < |t.leaves| && Index(t.leaves[i].att) == n
  {
    var row, atts := t.batches[id], Wire(t.leaves);
    var run := Ranged(atts, row.firstCallIndex, row.lastCallIndex);
    RangedMembers(atts, row.firstCallIndex, row.lastCallIndex, run[n - row.firstCallIndex]);
    i :| 0 <= i < |atts| && atts[i] == run[n - row.firstCallIndex];
  }

  /** The leaves on record for a batch, counted: all of its range exactly when the batch is complete. */
  lemma {:induction false} HeldWithinRange(leaves: seq<Leaf>, id: nat, lo: int, hi: int)
    requires forall i :: 0 <= i < |leaves| && leaves[i].batchRef == Some(id) ==> lo <= Index(leaves[i].att) <= hi
    ensures |Held(leaves, Some(id))| <= |Ranged(Wire(leaves), lo, hi)|
    ensures |Held(leaves, Some(id))| == |Ranged(Wire(leaves), lo, hi)| <==>
            forall i :: 0 <= i < |leaves| && lo <= Index(leaves[i].att) <= hi ==> leaves[i].batchRef == Some(id)
    ensures |Held(leaves, Some(id))| == |Ranged(Wire(leaves), lo, hi)| ==>
              Held(leaves, Some(id)) == Ranged(Wire(leaves), lo, hi)
  {
    if leaves != [] {
      var before := leaves[..|leaves| - 1];
      HeldWithinRange(before, id, lo, hi);
      assert Wire(leaves)[..|leaves| - 1] == Wire(before);
      assert forall i :: 0 <= i < |before| ==> before[i] == leaves[i];
    }
  }

  lemma CompleteMeansAllHeld(w: World, t: Tables, id: nat)
    requires GoodBatches(w, t) && id < |t.batches|
    ensures |Held(t.leaves, Some(id))| == t.batches[id].callCount <==> Complete(t, id)
    ensures Complete(t, id) ==>
              Held(t.leaves, Some(id)) ==
              Ranged(Wire(t.leaves), t.batches[id].firstCallIndex, t.batches[id].lastCallIndex)
  {
    var row := t.batches[id];
    assert BatchStands(w, Wire(t.leaves), row);
    forall i | 0 <= i < |t.leaves| && t.leaves[i].batchRef == Some(id)
      ensures row.firstCallIndex <= Index(t.leaves[i].att) <= row.lastCallIndex
    {
      assert ClaimedInRange(t.leaves[i], t.batches);
    }
    HeldWithinRange(t.leaves, id, row.firstCallIndex, row.lastCallIndex);
  }

  // ----- the service

  datatype Verdict =
    | NotFound
    | Incomplete
    | Audited(
        rootMatches: bool, commitmentValid: bool, results: seq<Outcome>, firstInvalid: Option<nat>,
        disputableCallIndex: Option<int>)

  predicate Accepted(v: Verdict) {
    v.Audited? && v.rootMatches && v.commitmentValid && v.firstInvalid.None?
  }

  /** The call that a challenge should name, in JavaScript numbers. */
  function Disputable(row: BatchRow, firstInvalid: Option<nat>): Option<int> {
    match firstInvalid
    case None => None
    case Some(k) => Some(AsNumber(row.firstCallIndex + k))
  }

  datatype ProofAnswer = ProofAnswer(
    attestation: Attestation, proof: seq<Digest>, root: Digest, rootMatches: bool, position: nat, voidableCalls: int,
    verdict: Outcome)

  datatype Answer = Absent | ThrownError | Found(answer: ProofAnswer)

  /** The index below the first, in JavaScript numbers. */
  function StartOf(row: BatchRow): int {
    AsNumber(row.firstCallIndex - 1)
  }

  function Position(row: BatchRow, callIndex: int): int {
    AsNumber(AsNumber(callIndex) - row.firstCallIndex)
  }

  /** What the buyer's audit of a batch establishes when it accepts. */
  ghost predicate AuditPasses(w: World, row: BatchRow, atts: seq<Attestation>, sellerKey: string, now: int) {
    var wanted := AuditExpectation(w, row, sellerKey, now);
    && |atts| == row.callCount && Buildable(atts) && BatchRoot(w.sha, atts) == row.merkleRoot
    && CommitmentSigned(w, row.merkleRoot, row.callCount, wanted.signer, row.batchSignature)
    && SetStands(w.rules, atts, wanted, Some(StartOf(row)), |atts|)
  }

  function AuditExpectation(w: World, row: BatchRow, key: string, now: int): Expectation {
    Expectation(if key != "" then key else row.seller, Some(w.streamId), now)
  }

  /** What passes an audit was signed, root and every call, by the key the buyer names, or by the seller on record. */
  lemma AcceptedUnderKey(w: World, row: BatchRow, atts: seq<Attestation>, sellerKey: string, now: int)
    requires AuditPasses(w, row, atts, sellerKey, now)
    ensures var signer := if sellerKey == "" then row.seller else sellerKey;
            && CommitmentSigned(w, row.merkleRoot, row.callCount, signer, row.batchSignature)
            && (signer != "" ==> forall i :: 0 <= i < |atts| ==>
                  && Encodable(atts[i].fields)
                  && VerifySignatureRaw(w.rules, SigningMessage(atts[i].fields), atts[i].signature, signer)
                  && StreamNumber(atts[i]) == AsNumber(w.streamId))
  {
    var wanted := AuditExpectation(w, row, sellerKey, now);
    if wanted.signer != "" {
      forall i | 0 <= i < |atts|
        ensures Encodable(atts[i].fields) && StreamNumber(atts[i]) == AsNumber(w.streamId)
        ensures VerifySignatureRaw(w.rules, SigningMessage(atts[i].fields), atts[i].signature, wanted.signer)
      {
        assert StandsAt(w.rules, atts, wanted, Some(StartOf(row)), i);
        CheckExactly(w.rules, atts[i], wanted);
      }
    }
  }

  method ContiguousFront(pending: seq<Attestation>) returns (contiguous: seq<Attestation>)
    requires pending != []
    ensures contiguous == pending[..RunEnd(pending, 1)]
  {
    contiguous := [pending[0]];
    var i := 1;
    while i < |pending|
      invariant 1 <= i <= |pending| && contiguous == pending[..i]
      invariant RunEnd(pending, 1) == RunEnd(pending, i)
    {
      if !Follows(contiguous[|contiguous| - 1], pending[i]) { return; }
      contiguous := contiguous + [pending[i]];
      i := i + 1;
    }
  }

  class StreamLedger {
    const w: World
    var tables: Tables

    constructor (w: World, stream: Option<Stream>)
      ensures this.w == w && tables == Tables(stream, [], [], [])
    {
      this.w, tables := w, Tables(stream, [], [], []);
    }

    method MeterOne(call: Call) returns (r: Result<int, MeterError>)
      modifies this
      ensures match Meter(w, old(tables), call)
              case Ok(after) => tables == after && r == Ok(after.stream.value.callsRemaining)
              case Err(e) => tables == old(tables) && r == Err(e)
    {
      if call.attestation.None? && call.enforced { return Err(AttestationMissing); }
      if tables.stream.None? { return Err(StreamNotFound); }
      var stream := tables.stream.value;
      if !stream.active { return Err(StreamNotActive); }
      if stream.callsRemaining <= 0 { return Err(StreamExhausted); }
      if call.attestation.Some? {
        var att := call.attestation.value;
        var (outcome, used) := Accept(w.rules, tables.used, att, Expectation(call.signer, Some(w.streamId), call.now));
        if outcome.Rejected? { return Err(AttestationRejected(outcome.reason)); }
        if outcome.Thrown? { return Err(EncodingError); }
        tables := tables.(used := used);
        tables := tables.(leaves := RecordLeaf(tables.leaves, att.(signer := call.signer)));
      }
      tables := tables.(stream := Some(Billed(stream)));
      r := Ok(stream.callsRemaining - 1);
    }

    /** Cuts the un-batched tail at the first gap and builds the tree over what comes before. */
    method PrepareBatch(maxSize: nat, minSize: int) returns (r: Option<Batch>, thrown: bool)
      ensures match OfferOf(tables, maxSize, minSize)
              case Nothing => r.None? && !thrown
              case Failing => r.None? && thrown
              case Offer(run) => !thrown && r.Some? && r.value.attestations == run && BuiltBatch(w.sha, r.value)
    {
      var pending := Pending(tables, maxSize);
      if |pending| < minSize { return None, false; }
      if |pending| == 0 { return None, true; }
      var contiguous := ContiguousFront(pending);
      if |contiguous| < minSize { return None, false; }
      var built := Build(w.sha, contiguous);
      if built.Err? { return None, true; }
      r, thrown := Some(built.value), false;
    }

    /**
     The row of `tree` is inserted and its leaves claimed, unless the seller's signature does not
     verify or the table refuses the row.
     */
    method CommitBatch(tree: Batch, seller: string, signature: seq<byte>, attached: bool) returns (id: Option<nat>)
      requires BuiltBatch(w.sha, tree)
      modifies this
      ensures match Commit(w, old(tables), tree.attestations, seller, signature, attached)
              case None => tables == old(tables) && id == None
              case Some(after) => tables == after && id == Some(|old(tables).batches|)
    {
      if !CommitmentSigned(w, tree.root, tree.callCount, seller, signature) { return None; }
      var batch, row :=
        |tables.batches|,
        BatchRow(seller, tree.root, tree.callCount, tree.firstCallIndex, tree.lastCallIndex, signature);
      if !RowAllowed(row) { return None; }
      tables := tables.(batches := tables.batches + [row]);
      if attached {
        tables := tables.(leaves := Attach(tables.leaves, batch, tree.firstCallIndex, tree.lastCallIndex));
      }
      id := Some(batch);
    }

    /** What a buyer finds out about a batch from its leaves alone. */
    method Audit(id: nat, sellerKey: string, now: int) returns (v: Verdict)
      ensures v == NotFound <==> id >= |tables.batches|
      ensures id < |tables.batches| ==>
                var row, atts := tables.batches[id], Held(tables.leaves, Some(id));
                && (v == Incomplete <==> |atts| != row.callCount)
                && (Accepted(v) <==> AuditPasses(w, row, atts, sellerKey, now))
      ensures v.Audited? ==>
                var row, atts := tables.batches[id], Held(tables.leaves, Some(id));
                var wanted := AuditExpectation(w, row, sellerKey, now);
                && |v.results| == |atts| && v.disputableCallIndex == Disputable(row, v.firstInvalid)
                && (v.rootMatches <==> Buildable(atts) && BatchRoot(w.sha, atts) == row.merkleRoot)
                && (v.commitmentValid <==>
                    CommitmentSigned(w, row.merkleRoot, row.callCount, wanted.signer, row.batchSignature))
                && Reports(w.rules, atts, wanted, Some(StartOf(row)), v.results, v.firstInvalid, |atts|)
    {
      if id >= |tables.batches| { return NotFound; }
      var row, atts := tables.batches[id], Held(tables.leaves, Some(id));
      var wanted := AuditExpectation(w, row, sellerKey, now);
      if |atts| != row.callCount { return Incomplete; }
      var results, firstInvalid := CheckSet(w.rules, atts, wanted, Some(StartOf(row)));
      var built := Build(w.sha, atts);
      var rootMatches := built.Ok? && built.value.root == row.merkleRoot;
      v := Audited(rootMatches, CommitmentSigned(w, row.merkleRoot, row.callCount, wanted.signer, row.batchSignature),
        results, firstInvalid, Disputable(row, firstInvalid));
    }

    /** What a buyer submits to dispute one call. */
    method GetProof(id: nat, callIndex: int, now: int) returns (r: Answer)
      ensures r == Absent <==>
                id >= |tables.batches| || !(0 <= Position(tables.batches[id], callIndex) < tables.batches[id].callCount)
      ensures r.Found? ==>
                var row, atts, a := tables.batches[id], Held(tables.leaves, Some(id)), r.answer;
                && Buildable(atts) && a.position == Position(row, callIndex) && a.position < |atts|
                && a.attestation == atts[a.position] && a.root == BatchRoot(w.sha, atts)
                && (a.rootMatches <==> a.root == row.merkleRoot)
                && VerifyProof(w.sha, a.attestation.fields, a.proof, a.root)
                && a.voidableCalls == row.callCount - a.position
                && a.verdict == Check(w.rules, a.attestation, AuditExpectation(w, row, "", now))
      ensures r == ThrownError ==>
                !Buildable(Held(tables.leaves, Some(id))) ||
                |Held(tables.leaves, Some(id))| != tables.batches[id].callCount
    {
      if id >= |tables.batches| { return Absent; }
      var row := tables.batches[id];
      var position := Position(row, callIndex);
      if position < 0 || position >= row.callCount { return Absent; }
      var atts := Held(tables.leaves, Some(id));
      var built := Build(w.sha, atts);
      if built.Err? { return ThrownError; }
      var tree := built.value;
      var proof := ProofForPosition(w.sha, tree, position);
      if proof.None? { return ThrownError; }
      ProofComplete(w.sha, tree, position, proof.value);
      r := Found(ProofAnswer(atts[position], proof.value, tree.root, tree.root == row.merkleRoot, position,
        row.callCount - position,
                             Check(w.rules, atts[position], AuditExpectation(w, row, "", now))));
    }
  }

  // ----- what the archive answers in every run

  /** A complete batch rebuilds its committed root. */
  lemma CompleteBatchRebuilds(w: World, t: Tables, id: nat)
    requires GoodBatches(w, t) && id < |t.batches| && Complete(t, id)
    ensures var row, atts := t.batches[id], Held(t.leaves, Some(id));
            && Buildable(atts) && |atts| == row.callCount && BatchRoot(w.sha, atts) == row.merkleRoot
            && Consecutive(atts, row.firstCallIndex) && row.lastCallIndex == row.firstCallIndex + row.callCount - 1
  {
    CompleteMeansAllHeld(w, t, id);
    assert BatchStands(w, Wire(t.leaves), t.batches[id]);
  }

  /** The leaves from one position to the end of a run. */
  lemma SuffixOfRun(run: seq<Attestation>, first: int, p: nat)
    requires Consecutive(run, first) && p < |run|
    ensures Ranged(run, first + p, first + |run| - 1) == run[p..]
  {
    var suffix := run[p..];
    assert Ascending(run);
    forall i | 0 <= i < |suffix|
      ensures Index(suffix[i]) == first + p + i && suffix[i] in run
    {
      assert suffix[i] == run[p + i];
    }
    ConsecutiveIsRange(run, suffix, first + p);
  }

  lemma FromDisputedCall(run: seq<Attestation>, first: int, last: int, n: int)
    requires Consecutive(run, first) && first <= n <= last == first + |run| - 1
    ensures Index(run[n - first]) == n && |Ranged(run, n, last)| == |run| - (n - first)
  {
    SuffixOfRun(run, first, n - first);
  }

  /** The position of a call of a batch is exact, although it is computed in JavaScript numbers. */
  lemma PositionIsExact(w: World, t: Tables, id: nat, n: int)
    requires GoodLeaves(w, t) && id < |t.batches| && BatchStands(w, Wire(t.leaves), t.batches[id])
    requires t.batches[id].firstCallIndex <= n <= t.batches[id].lastCallIndex
    ensures Position(t.batches[id], n) == n - t.batches[id].firstCallIndex
  {
    IndexIsNumber(w, t, id, n);
    if n > t.batches[id].firstCallIndex {
      IndexIsNumber(w, t, id, n - 1);
      NeighboursAreSmall(n);
    }
  }

  lemma IndexIsNumber(w: World, t: Tables, id: nat, n: int)
    requires GoodLeaves(w, t) && id < |t.batches| && BatchStands(w, Wire(t.leaves), t.batches[id])
    requires t.batches[id].firstCallIndex <= n <= t.batches[id].lastCallIndex
    ensures AsNumber(n) == n
  {
    var i := LeafInBatch(w, t, id, n);
    assert Metered(w, Wire(t.leaves)[i]);
  }

  /**
   In a complete batch each call is in its place, and the voidable calls are the batch's leaves
   from the disputed one on.
   */
  lemma CompleteBatchAnswers(w: World, t: Tables, id: nat, n: int)
    requires GoodLeaves(w, t) && GoodBatches(w, t) && id < |t.batches| && Complete(t, id)
    requires t.batches[id].firstCallIndex <= n <= t.batches[id].lastCallIndex
    ensures var row, atts, p := t.batches[id], Held(t.leaves, Some(id)), Position(t.batches[id], n);
            && 0 <= p < |atts| && Index(atts[p]) == n
            && |Ranged(atts, n, row.lastCallIndex)| == row.callCount - p
  {
    CompleteBatchRebuilds(w, t, id);
    assert BatchStands(w, Wire(t.leaves), t.batches[id]);
    PositionIsExact(w, t, id, n);
    FromDisputedCall(Held(t.leaves, Some(id)), t.batches[id].firstCallIndex, t.batches[id].lastCallIndex, n);
  }

  /** In a complete batch, the call that an audit names for dispute is the one at the position that failed. */
  lemma CompleteBatchNamesCall(w: World, t: Tables, id: nat, k: nat)
    requires GoodLeaves(w, t) && GoodBatches(w, t) && id < |t.batches| && Complete(t, id)
    requires k < t.batches[id].callCount
    ensures k < |Held(t.leaves, Some(id))|
    ensures Disputable(t.batches[id], Some(k)) == Some(Index(Held(t.leaves, Some(id))[k]))
  {
    RowStandsIn(w, t, id);
    CallIsNamed(w, t, id, t.batches[id].firstCallIndex + k);
    CompleteBatchAnswers(w, t, id, t.batches[id].firstCallIndex + k);
  }

  lemma RowStandsIn(w: World, t: Tables, id: nat)
    requires GoodBatches(w, t) && id < |t.batches|
    ensures var row := t.batches[id];
            BatchStands(w, Wire(t.leaves), row) && row.lastCallIndex == row.firstCallIndex + row.callCount - 1
  {
    assert BatchStands(w, Wire(t.leaves), t.batches[id]);
  }

  lemma CallIsNamed(w: World, t: Tables, id: nat, n: int)
    requires GoodLeaves(w, t) && id < |t.batches| && BatchStands(w, Wire(t.leaves), t.batches[id])
    requires t.batches[id].firstCallIndex <= n <= t.batches[id].lastCallIndex
    ensures Disputable(t.batches[id], Some(n - t.batches[id].firstCallIndex)) == Some(n)
    ensures Position(t.batches[id], n) == n - t.batches[id].firstCallIndex
  {
    IndexIsNumber(w, t, id, n);
    PositionIsExact(w, t, id, n);
  }

  lemma CompleteSetStands(w: World, t: Tables, id: nat, now: int)
    requires GoodLeaves(w, t) && id < |t.batches| && t.batches[id].seller != ""
    requires Held(t.leaves, Some(id)) != [] && Consecutive(Held(t.leaves, Some(id)), t.batches[id].firstCallIndex)
    requires forall i ::
               0 <= i < |Held(t.leaves, Some(id))| ==>
               Acceptable(w, Held(t.leaves, Some(id))[i], t.batches[id].seller, now)
    ensures var row, atts := t.batches[id], Held(t.leaves, Some(id));
            SetStands(w.rules, atts, AuditExpectation(w, row, "", now), Some(StartOf(row)), |atts|) <==>
            StartOf(row) < row.firstCallIndex
  {
    var row, atts := t.batches[id], Held(t.leaves, Some(id));
    var wanted, start := AuditExpectation(w, row, "", now), Some(StartOf(row));
    HeldStands(w, t, id, now, 0);
    if StartOf(row) < row.firstCallIndex {
      forall i | 0 <= i < |atts| ensures StandsAt(w.rules, atts, wanted, start, i) { HeldStands(w, t, id, now, i); }
    }
  }

  /**
   A complete batch passes the whole audit of a buyer who expects its seller, once no leaf is dated
   ahead of the buyer's clock, exactly when the index below its first is another number. Up to
   2^53 it always is.
   */
  lemma CompleteBatchPassesAudit(w: World, s: State, id: nat, now: int)
    requires Good(w, s) && id < |s.tables.batches| && Complete(s.tables, id) && s.tables.batches[id].seller != ""
    requires forall i :: 0 <= i < |Held(s.tables.leaves, Some(id))| ==>
               Acceptable(w, Held(s.tables.leaves, Some(id))[i], s.tables.batches[id].seller, now)
    ensures var row, atts := s.tables.batches[id], Held(s.tables.leaves, Some(id));
            && (AuditPasses(w, row, atts, "", now) <==> StartOf(row) < row.firstCallIndex)
            && (row.firstCallIndex <= TWO_TO_THE_53 ==> StartOf(row) < row.firstCallIndex)
  {
    CompleteBatchRebuilds(w, s.tables, id);
    CompleteSetStands(w, s.tables, id, now);
    assert BatchStands(w, Wire(s.tables.leaves), s.tables.batches[id]);
  }

  predicate Acceptable(w: World, att: Attestation, seller: string, now: int) {
    && att.signer == seller
    && (w.rules.maxClockSkewSeconds > 0 ==>
         Drift(att, Expectation(seller, Some(w.streamId), now)) <= w.rules.maxClockSkewSeconds)
  }

  lemma HeldStands(w: World, t: Tables, id: nat, now: int, i: nat)
    requires GoodLeaves(w, t) && id < |t.batches| && t.batches[id].seller != ""
    requires i < |Held(t.leaves, Some(id))| && Acceptable(w, Held(t.leaves, Some(id))[i], t.batches[id].seller, now)
    requires Consecutive(Held(t.leaves, Some(id)), t.batches[id].firstCallIndex)
    ensures var row, atts := t.batches[id], Held(t.leaves, Some(id));
            StandsAt(w.rules, atts, AuditExpectation(w, row, "", now), Some(StartOf(row)), i) <==>
            i > 0 || StartOf(row) < row.firstCallIndex
  {
    var atts := Held(t.leaves, Some(id));
    var p := LeafPosition(w, t, id, atts[i]);
    forall j | 0 <= j < i ensures atts[j].fields.nonce != atts[i].fields.nonce {
      var q := LeafPosition(w, t, id, atts[j]);
      DifferentNonces(w, t, p, q);
    }
    if i > 0 { var q := LeafPosition(w, t, id, atts[i - 1]); }
  }

  lemma LeafPosition(w: World, t: Tables, id: nat, att: Attestation) returns (p: nat)
    requires GoodLeaves(w, t) && att in Held(t.leaves, Some(id))
    ensures p < |t.leaves| && t.leaves[p].att == att && Metered(w, att)
  {
    HeldMembers(t.leaves, Some(id));
    var atts := Wire(t.leaves);
    p :| 0 <= p < |atts| && atts[p] == att;
  }

  lemma DifferentNonces(w: World, t: Tables, p: nat, q: nat)
    requires GoodLeaves(w, t) && p < |t.leaves| && q < |t.leaves| && Index(t.leaves[p].att) != Index(t.leaves[q].att)
    ensures t.leaves[p].att.fields.nonce != t.leaves[q].att.fields.nonce
  {
    var atts := Wire(t.leaves);
    assert t.used[p] == Used(atts[p].fields.nonce, Index(atts[p])) &&
      t.used[q] == Used(atts[q].fields.nonce, Index(atts[q]));
    if p < q { assert t.used[p].nonce != t.used[q].nonce; } else { assert t.used[q].nonce != t.used[p].nonce; }
  }

  /** The rows of the archive that the seller's signature on a batch covers. */
  ghost function Committed(w: World, s: State, id: nat): (run: seq<Attestation>)
    requires Good(w, s) && id < |s.tables.batches|
    ensures Archived(Wire(s.tables.leaves), run) && BatchRoot(w.sha, run) == s.tables.batches[id].merkleRoot
  {
    var row := s.tables.batches[id];
    assert BatchStands(w, Wire(s.tables.leaves), row);
    Ranged(Wire(s.tables.leaves), row.firstCallIndex, row.lastCallIndex)
  }

  lemma CommittedRises(w: World, s: State, id: nat)
    requires Good(w, s) && id < |s.tables.batches|
    ensures Rising(Committed(w, s, id))
  {
    var row, atts, run := s.tables.batches[id], Wire(s.tables.leaves), Committed(w, s, id);
    forall i | 0 <= i < |run| ensures IndexNumber(run[i]) == Index(run[i]) {
      RangedMembers(atts, row.firstCallIndex, row.lastCallIndex, run[i]);
      var j :| 0 <= j < |atts| && atts[j] == run[i];
      assert Metered(w, atts[j]);
    }
  }

  lemma {:induction false} StandingRises(
    rules: Rules, atts: seq<Attestation>, wanted: Expectation, start: Option<int>, i: nat, j: nat)
    requires SetStands(rules, atts, wanted, start, |atts|) && i < j < |atts|
    ensures IndexNumber(atts[i]) < IndexNumber(atts[j])
  {
    assert StandsAt(rules, atts, wanted, start, j);
    if i < j - 1 { StandingRises(rules, atts, wanted, start, i, j - 1); }
  }

  /**
   The archive is not trusted: whatever it serves for a batch on record, at any index, if the audit
   accepts it then it is what the seller committed to.
   */
  lemma AuditCatchesTampering(w: World, s: State, id: nat, served: seq<Attestation>, sellerKey: string, now: int)
    requires Good(w, s) && id < |s.tables.batches| && AuditPasses(w, s.tables.batches[id], served, sellerKey, now)
    requires CollisionFree<Digest, seq<byte>>(w.sha,
               BatchMessages(w.sha, Committed(w, s, id)) + BatchMessages(w.sha, served))
    ensures SameRun(Committed(w, s, id), served)
  {
    var row := s.tables.batches[id];
    CommittedRises(w, s, id);
    forall i, j | 0 <= i < j < |served| ensures IndexNumber(served[i]) < IndexNumber(served[j]) {
      StandingRises(w.rules, served, AuditExpectation(w, row, sellerKey, now), Some(StartOf(row)), i, j);
    }
    RootBindsRising(w.sha, Committed(w, s, id), served);
  }

  lemma HeldRises(w: World, t: Tables, id: nat)
    requires GoodLeaves(w, t)
    ensures Rising(Held(t.leaves, Some(id)))
  {
    var atts := Held(t.leaves, Some(id));
    HeldAscends(t.leaves, Some(id));
    forall i | 0 <= i < |atts| ensures IndexNumber(atts[i]) == Index(atts[i]) { HeldIsMetered(w, t, Some(id), i); }
  }

  /**
   What a proof of one call says of its batch: the root recomputed from the leaves on record is the
   committed one exactly when the batch is complete.
   */
  lemma RootMatchesExactly(w: World, s: State, id: nat)
    requires Good(w, s) && id < |s.tables.batches| && Buildable(Held(s.tables.leaves, Some(id)))
    requires CollisionFree<Digest, seq<byte>>(w.sha,
               BatchMessages(w.sha, Committed(w, s, id)) + BatchMessages(w.sha, Held(s.tables.leaves, Some(id))))
    ensures BatchRoot(w.sha, Held(s.tables.leaves, Some(id))) == s.tables.batches[id].merkleRoot <==>
            Complete(s.tables, id)
  {
    var held := Held(s.tables.leaves, Some(id));
    if Complete(s.tables, id) { CompleteBatchRebuilds(w, s.tables, id); }
    if BatchRoot(w.sha, held) == s.tables.batches[id].merkleRoot {
      CommittedRises(w, s, id);
      HeldRises(w, s.tables, id);
      RootBindsRising(w.sha, Committed(w, s, id), held);
      CompleteMeansAllHeld(w, s.tables, id);
    }
  }
}
