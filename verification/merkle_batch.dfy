/**
 backend/src/attestation/MerkleBatchBuilder.js: one 32-byte root for a run of attestations.

 A level with an odd number of nodes pairs its last node with itself, and a pair is hashed in
 byte order, so neither the length nor the order of the leaves is visible in the tree. The
 contiguity check of `Build` puts both back, as far as it can tell call indices apart. It compares
 them as JavaScript numbers, so that is up to 2^53: see `RootBindsBatch` and `RootBindsExactly`.
 */
module MerkleBatchBuilder {
  import opened Bytes
  import opened Outcomes
  import opened AttestationCanonical
  import opened MerkleTree

  datatype Attestation = Attestation(fields: Fields, signature: seq<byte>, signer: string)

  datatype Batch = Batch(
    streamId: int,
    root: Digest,
    callCount: nat,
    firstCallIndex: int,
    lastCallIndex: int,
    leaves: seq<Digest>,
    levels: seq<seq<Digest>>,
    attestations: seq<Attestation>)

  datatype BuildError = Empty | MixedStreams(position: nat) | NotContiguous(position: nat) | BadField(position: nat)

  // ----- building

  method NextLevel(sha: Hash, ghost leaves: seq<Digest>, ghost k: nat, current: seq<Digest>) returns (next: seq<Digest>)
    requires IsLevel<Digest, seq<byte>>(sha, InternalMessage, leaves, k, current)
    ensures IsLevel<Digest, seq<byte>>(sha, InternalMessage, leaves, k + 1, next)
  {
    next := [];
    var i := 0;
    while i < |current|
      invariant 0 <= i <= |current| + 1 && i % 2 == 0 && |next| == i / 2
      invariant forall j :: 0 <= j < |next| ==> next[j] == Node(sha, InternalMessage, leaves, k + 1, j)
    {
      var left := current[i];
      // Without a right neighbour, the last node stands on both sides.
      var right := if i + 1 < |current| then current[i + 1] else current[i];
      assert NodeMessage(sha, InternalMessage, leaves, k + 1, i / 2) == InternalMessage(left, right);
      next := next + [HashInternal(sha, left, right)];
      i := i + 2;
    }
  }

  /** The levels from the leaves up; the last one holds the root alone. */
  method BuildLevels(sha: Hash, leaves: seq<Digest>) returns (levels: seq<seq<Digest>>)
    requires leaves != []
    ensures |levels| == Height(|leaves|) + 1
    ensures forall k :: 0 <= k < |levels| ==> IsLevel<Digest, seq<byte>>(sha, InternalMessage, leaves, k, levels[k])
    ensures levels[|levels| - 1] == [Root(sha, InternalMessage, leaves)]
  {
    levels := [leaves];
    var current := leaves;
    while |current| > 1
      invariant |levels| >= 1 && current == levels[|levels| - 1] && current != []
      invariant forall k :: 0 <= k < |levels| ==> IsLevel<Digest, seq<byte>>(sha, InternalMessage, leaves, k, levels[k])
      invariant Height(|leaves|) == |levels| - 1 + Height(|current|)
      decreases |current|
    {
      var next := NextLevel(sha, leaves, |levels| - 1, current);
      levels := levels + [next];
      current := next;
    }
    WidthAtTop(|leaves|);
  }

  function StreamNumber(att: Attestation): int {
    AsNumber(att.fields.streamId)
  }

  function IndexNumber(att: Attestation): int {
    AsNumber(att.fields.callIndex)
  }

  predicate InRun(atts: seq<Attestation>, i: nat)
    requires i < |atts|
  {
    && StreamNumber(atts[i]) == StreamNumber(atts[0])
    && IndexNumber(atts[i]) == AsNumber(IndexNumber(atts[0]) + i)
  }

  /** One stream, contiguous call indices, every field within its width. */
  predicate Buildable(atts: seq<Attestation>) {
    && atts != []
    && (forall i :: 0 <= i < |atts| ==> InRun(atts, i))
    && AllEncodable(atts)
  }

  predicate AllEncodable(atts: seq<Attestation>) {
    forall i :: 0 <= i < |atts| ==> Encodable(atts[i].fields)
  }

  function LeafMessages(atts: seq<Attestation>): (messages: seq<seq<byte>>)
    requires AllEncodable(atts)
    ensures |messages| == |atts|
    ensures forall i :: 0 <= i < |atts| ==> messages[i] == SigningMessage(atts[i].fields)
  {
    seq(|atts|, i requires 0 <= i < |atts| => SigningMessage(atts[i].fields))
  }

  function Leaves(sha: Hash, atts: seq<Attestation>): seq<Digest>
    requires AllEncodable(atts)
  {
    Hashed(sha, LeafMessages(atts))
  }

  function BatchRoot(sha: Hash, atts: seq<Attestation>): Digest
    requires Buildable(atts)
  {
    Root(sha, InternalMessage, Leaves(sha, atts))
  }

  /** firstCallIndex + length - 1, in JavaScript numbers. */
  function LastIndex(firstCallIndex: int, callCount: nat): int {
    AsNumber(AsNumber(firstCallIndex + callCount) - 1)
  }

  /** `batch` is what `Build` returns for its attestations. */
  ghost predicate BuiltBatch(sha: Hash, batch: Batch) {
    && Buildable(batch.attestations)
    && batch.leaves == Leaves(sha, batch.attestations)
    && batch.root == BatchRoot(sha, batch.attestations)
    && batch.callCount == |batch.attestations|
    && batch.streamId == StreamNumber(batch.attestations[0])
    && batch.firstCallIndex == IndexNumber(batch.attestations[0])
    && batch.lastCallIndex == LastIndex(batch.firstCallIndex, batch.callCount)
    && |batch.levels| == Height(batch.callCount) + 1
    && (forall k ::
         0 <= k < |batch.levels| ==> IsLevel<Digest, seq<byte>>(sha, InternalMessage, batch.leaves, k, batch.levels[k]))
  }

  /** Why `Build` refuses, naming the first position that breaks the run. */
  ghost predicate Refusal(atts: seq<Attestation>, error: BuildError) {
    match error
    case Empty => atts == []
    case MixedStreams(p) =>
      p < |atts| && StreamNumber(atts[p]) != StreamNumber(atts[0]) && forall i :: 0 <= i < p ==> InRun(atts, i)
    case NotContiguous(p) =>
      && p < |atts| && StreamNumber(atts[p]) == StreamNumber(atts[0])
      && IndexNumber(atts[p]) != AsNumber(IndexNumber(atts[0]) + p) && forall i :: 0 <= i < p ==> InRun(atts, i)
    case BadField(p) =>
      p < |atts| && !Encodable(atts[p].fields) && (forall i :: 0 <= i < |atts| ==> InRun(atts, i)) &&
        AllEncodable(atts[..p])
  }

  method Build(sha: Hash, atts: seq<Attestation>) returns (r: Result<Batch, BuildError>)
    ensures r.Ok? <==> Buildable(atts)
    ensures r.Ok? ==> r.value.attestations == atts && BuiltBatch(sha, r.value)
    ensures r.Err? ==> Refusal(atts, r.error)
  {
    if |atts| == 0 { return Err(Empty); }
    var streamId := StreamNumber(atts[0]);
    var firstCallIndex := IndexNumber(atts[0]);
    for i := 0 to |atts|
      invariant forall j :: 0 <= j < i ==> InRun(atts, j)
    {
      if StreamNumber(atts[i]) != streamId {
        assert !InRun(atts, i);
        return Err(MixedStreams(i));
      }
      if IndexNumber(atts[i]) != AsNumber(firstCallIndex + i) {
        assert !InRun(atts, i);
        return Err(NotContiguous(i));
      }
    }
    var leaves: seq<Digest> := [];
    for i := 0 to |atts|
      invariant |leaves| == i
      invariant forall j :: 0 <= j < i ==> Encodable(atts[j].fields) && leaves[j] == LeafHash(sha, atts[j].fields)
    {
      if !Encodable(atts[i].fields) { return Err(BadField(i)); }
      leaves := leaves + [LeafHash(sha, atts[i].fields)];
    }
    assert leaves == Leaves(sha, atts);
    var levels := BuildLevels(sha, leaves);
    var lastCallIndex := LastIndex(firstCallIndex, |atts|);
    r := Ok(Batch(streamId, levels[|levels| - 1][0], |atts|, firstCallIndex, lastCallIndex, leaves, levels, atts));
  }

  // ----- proofs

  lemma PathExtends(sha: Hash, leaves: seq<Digest>, position: nat, proof: seq<Digest>, level: seq<Digest>)
    requires IsPath<Digest, seq<byte>>(sha, InternalMessage, leaves, position, proof)
    requires IsLevel<Digest, seq<byte>>(sha, InternalMessage, leaves, |proof|, level)
    ensures PositionAt(position, |proof|) < |level|
    ensures var sibling := level[SiblingOf(|level|, PositionAt(position, |proof|))];
            IsPath<Digest, seq<byte>>(sha, InternalMessage, leaves, position, proof + [sibling])
  {
    PositionInWidth(|leaves|, position, |proof|);
  }

  method ProofForPosition(ghost sha: Hash, batch: Batch, position: int) returns (r: Option<seq<Digest>>)
    requires BuiltBatch(sha, batch)
    ensures r.Some? <==> 0 <= position < batch.callCount
    ensures r.Some? ==>
              |r.value| == Height(batch.callCount) && IsPath(sha, InternalMessage, batch.leaves, position, r.value)
  {
    if position < 0 || position >= batch.callCount { return None; }
    var proof: seq<Digest> := [];
    var index := position;
    for level := 0 to |batch.levels| - 1
      invariant index == PositionAt(position, level) && |proof| == level
      invariant IsPath(sha, InternalMessage, batch.leaves, position, proof)
    {
      var nodes := batch.levels[level];
      PathExtends(sha, batch.leaves, position, proof, nodes);
      var isRightChild := index % 2 == 1;
      var siblingIndex := if isRightChild then index - 1 else index + 1;
      // A node without a neighbour is its own sibling.
      proof := proof + [if siblingIndex < |nodes| then nodes[siblingIndex] else nodes[index]];
      index := index / 2;
    }
    r := Some(proof);
  }

  predicate AllDigests(proof: seq<seq<byte>>) {
    forall i :: 0 <= i < |proof| ==> |proof[i]| == HASH_BYTES
  }

  /** The walk from a leaf up a list of siblings; `None` is the error thrown for a sibling of the wrong width. */
  method RootFromProof(sha: Hash, leaf: Digest, proof: seq<seq<byte>>) returns (r: Option<Digest>)
    ensures r ==
              if AllDigests(proof) then Some(Walk<Digest, seq<byte>>(sha, InternalMessage, leaf, proof, |proof|))
              else None
  {
    var node := leaf;
    for i := 0 to |proof|
      invariant AllDigests(proof[..i]) && node == Walk<Digest, seq<byte>>(sha, InternalMessage, leaf, proof[..i], i)
    {
      if |proof[i]| != HASH_BYTES { return None; }
      assert AllDigests(proof[..i + 1]);
      WalkPrefix(sha, leaf, proof[..i + 1], proof[..i], i);
      node := HashInternal(sha, node, proof[i]);
      assert node == sha(StepMessage<Digest, seq<byte>>(sha, InternalMessage, leaf, proof[..i + 1], i + 1));
    }
    assert proof[..|proof|] == proof;
    r := Some(node);
  }

  lemma {:induction false} WalkPrefix(sha: Hash, leaf: Digest, proof: seq<Digest>, prefix: seq<Digest>, m: nat)
    requires prefix <= proof && m <= |prefix|
    ensures Walk<Digest, seq<byte>>(sha, InternalMessage, leaf, proof, m) ==
              Walk<Digest, seq<byte>>(sha, InternalMessage, leaf, prefix, m)
  {
    if m > 0 { WalkPrefix(sha, leaf, proof, prefix, m - 1); }
  }

  predicate VerifyProof(sha: Hash, f: Fields, proof: seq<seq<byte>>, root: seq<byte>) {
    && Encodable(f) && AllDigests(proof)
    && Walk<Digest, seq<byte>>(sha, InternalMessage, LeafHash(sha, f), proof, |proof|) == root
  }

  // ----- completeness and soundness of proofs

  lemma PairsAreUnordered()
    ensures Unordered<Digest, seq<byte>>(InternalMessage)
  {
    forall a: Digest, b: Digest, c: Digest, d: Digest
      ensures ComparesUnordered<Digest, seq<byte>>(InternalMessage, a, b, c, d)
    {
      InternalMessageDetermines(a, b, c, d);
    }
  }

  /** Leaf messages carry another domain tag than the messages of pairs. */
  lemma LeafIsNoPair(f: Fields, a: Digest, b: Digest)
    requires Encodable(f)
    ensures SigningMessage(f) != InternalMessage(a, b)
  {
    assert SigningMessage(f)[0] != InternalMessage(a, b)[0];
  }

  lemma LeavesAreNoPairs(atts: seq<Attestation>)
    requires AllEncodable(atts)
    ensures NoPair<Digest, seq<byte>>(InternalMessage, Elements(LeafMessages(atts)))
  {
    forall a: Digest, b: Digest, i | 0 <= i < |atts| ensures LeafMessages(atts)[i] != InternalMessage(a, b) {
      LeafIsNoPair(atts[i].fields, a, b);
    }
  }

  lemma StartIsNoPair(f: Fields)
    requires Encodable(f)
    ensures NoPair<Digest, seq<byte>>(InternalMessage, {SigningMessage(f)})
  {
    forall a: Digest, b: Digest ensures InternalMessage(a, b) !in {SigningMessage(f)} {
      LeafIsNoPair(f, a, b);
    }
  }

  /** Every message hashed in building a batch. */
  ghost function BatchMessages(sha: Hash, atts: seq<Attestation>): set<seq<byte>>
    requires AllEncodable(atts)
  {
    TreeMessages(sha, InternalMessage, LeafMessages(atts))
  }

  /** Every message hashed in checking a proof. */
  ghost function ProofMessages(sha: Hash, f: Fields, proof: seq<seq<byte>>): set<seq<byte>>
    requires Encodable(f) && AllDigests(proof)
  {
    WalkMessages<Digest, seq<byte>>(sha, InternalMessage, SigningMessage(f), proof)
  }

  /** Every position of every batch has a proof, as returned by `ProofForPosition`, that verifies. */
  lemma ProofComplete(sha: Hash, batch: Batch, position: nat, proof: seq<Digest>)
    requires BuiltBatch(sha, batch)
    requires |proof| == Height(batch.callCount) && IsPath(sha, InternalMessage, batch.leaves, position, proof)
    ensures VerifyProof(sha, batch.attestations[position].fields, proof, batch.root)
  {
    PairsAreUnordered();
    OwnWalk<Digest, seq<byte>>(sha, InternalMessage, LeafMessages(batch.attestations), position, proof);
  }

  lemma WalkFromMember(sha: Hash, atts: seq<Attestation>, f: Fields, proof: seq<Digest>)
    requires Buildable(atts) && VerifyProof(sha, f, proof, BatchRoot(sha, atts))
    requires CollisionFree<Digest, seq<byte>>(sha, BatchMessages(sha, atts) + ProofMessages(sha, f, proof))
    ensures |proof| == Height(|atts|) && SigningMessage(f) in LeafMessages(atts)
  {
    PairsAreUnordered();
    LeavesAreNoPairs(atts);
    StartIsNoPair(f);
    WalkSound<Digest, seq<byte>>(sha, InternalMessage, LeafMessages(atts), SigningMessage(f), proof);
  }

  lemma MemberWithMessage(atts: seq<Attestation>, f: Fields) returns (p: nat)
    requires AllEncodable(atts) && Encodable(f) && SigningMessage(f) in LeafMessages(atts)
    ensures p < |atts| && atts[p].fields == f
  {
    p :| 0 <= p < |atts| && LeafMessages(atts)[p] == SigningMessage(f);
    SigningMessageInjective(f, atts[p].fields);
  }

  /** Only members have a proof, and every proof is as long as the tree is high. */
  lemma ProofSound(sha: Hash, atts: seq<Attestation>, f: Fields, proof: seq<seq<byte>>)
    requires Buildable(atts) && VerifyProof(sha, f, proof, BatchRoot(sha, atts))
    requires CollisionFree<Digest, seq<byte>>(sha, BatchMessages(sha, atts) + ProofMessages(sha, f, proof))
    ensures |proof| == Height(|atts|)
    ensures exists p :: 0 <= p < |atts| && atts[p].fields == f
  {
    WalkFromMember(sha, atts, f, proof);
    var p := MemberWithMessage(atts, f);
  }

  // ----- the root alone binds the batch

  lemma SameRootSameMessages(sha: Hash, a: seq<Attestation>, b: seq<Attestation>)
    requires Buildable(a) && Buildable(b)
    requires BatchRoot(sha, a) == BatchRoot(sha, b)
    requires CollisionFree<Digest, seq<byte>>(sha, BatchMessages(sha, a) + BatchMessages(sha, b))
    ensures forall i :: 0 <= i < |a| ==> LeafMessages(a)[i] in LeafMessages(b)
    ensures forall i :: 0 <= i < |b| ==> LeafMessages(b)[i] in LeafMessages(a)
  {
    PairsAreUnordered();
    LeavesAreNoPairs(a);
    LeavesAreNoPairs(b);
    SameRootSameLeaves<Digest, seq<byte>>(sha, InternalMessage, LeafMessages(a), LeafMessages(b));
  }

  /** The call indices of a run, counted on from its first, stay within `bound`. */
  predicate EndsBy(atts: seq<Attestation>, bound: int) {
    atts != [] && IndexNumber(atts[0]) + |atts| - 1 <= bound
  }

  predicate SameRun(a: seq<Attestation>, b: seq<Attestation>) {
    |a| == |b| && forall i :: 0 <= i < |a| ==> a[i].fields == b[i].fields
  }

  /** Call indices, as JavaScript numbers, increase from each call to the next. */
  ghost predicate Rising(atts: seq<Attestation>) {
    forall i, j :: 0 <= i < j < |atts| ==> IndexNumber(atts[i]) < IndexNumber(atts[j])
  }

  ghost predicate HasFields(atts: seq<Attestation>, f: Fields) {
    exists p :: 0 <= p < |atts| && atts[p].fields == f
  }

  ghost predicate Includes(atts: seq<Attestation>, others: seq<Attestation>) {
    forall i :: 0 <= i < |others| ==> HasFields(atts, others[i].fields)
  }

  lemma ShorterIncludes(atts: seq<Attestation>, others: seq<Attestation>, m: nat, n: nat)
    requires Rising(atts) && Rising(others) && Includes(atts, others)
    requires m == |atts| - 1 && n == |others| - 1 && atts[m].fields == others[n].fields
    ensures Includes(atts[..m], others[..n])
  {
    forall i | 0 <= i < n ensures HasFields(atts[..m], others[i].fields) {
      assert HasFields(atts, others[i].fields);
      var p :| 0 <= p < |atts| && atts[p].fields == others[i].fields;
      assert IndexNumber(others[i]) < IndexNumber(others[n]);
      assert atts[..m][p].fields == others[i].fields;
    }
  }

  lemma SameLast(a: seq<Attestation>, b: seq<Attestation>)
    requires Rising(a) && Rising(b) && Includes(a, b) && Includes(b, a) && a != [] && b != []
    ensures a[|a| - 1].fields == b[|b| - 1].fields
  {
    var m, n := |a| - 1, |b| - 1;
    assert HasFields(b, a[m].fields) && HasFields(a, b[n].fields);
    var p :| 0 <= p < |b| && b[p].fields == a[m].fields;
    var q :| 0 <= q < |a| && a[q].fields == b[n].fields;
    LastIsHighest(a, q);
    LastIsHighest(b, p);
  }

  lemma LastIsHighest(atts: seq<Attestation>, i: nat)
    requires Rising(atts) && i < |atts|
    ensures i != |atts| - 1 ==> IndexNumber(atts[i]) < IndexNumber(atts[|atts| - 1])
  {
  }

  lemma NonemptyIncluded(a: seq<Attestation>, b: seq<Attestation>)
    requires a != [] && Includes(b, a)
    ensures b != []
  {
    assert HasFields(b, a[0].fields);
  }

  /** Rising runs with the same set of members are the same run. */
  lemma {:induction false} SameMembersSameRun(a: seq<Attestation>, b: seq<Attestation>)
    requires Rising(a) && Rising(b) && Includes(a, b) && Includes(b, a)
    ensures SameRun(a, b)
  {
    if a != [] { NonemptyIncluded(a, b); }
    if b != [] { NonemptyIncluded(b, a); }
    if a != [] && b != [] {
      SameLast(a, b);
      ShorterIncludes(a, b, |a| - 1, |b| - 1);
      ShorterIncludes(b, a, |b| - 1, |a| - 1);
      SameMembersSameRun(a[..|a| - 1], b[..|b| - 1]);
      forall i | 0 <= i < |a| ensures a[i].fields == b[i].fields {
        if i < |a| - 1 { assert a[..|a| - 1][i].fields == b[..|b| - 1][i].fields; }
      }
    }
  }

  lemma MessagesInclude(a: seq<Attestation>, b: seq<Attestation>)
    requires AllEncodable(a) && AllEncodable(b)
    requires forall i :: 0 <= i < |a| ==> LeafMessages(a)[i] in LeafMessages(b)
    ensures Includes(b, a)
  {
    forall i | 0 <= i < |a| ensures HasFields(b, a[i].fields) {
      assert LeafMessages(a)[i] in LeafMessages(b);
      var p := MemberWithMessage(b, a[i].fields);
    }
  }

  /** Two batches that `Build` accepts under one root, both rising, carry the same signed fields in the same order. */
  lemma RootBindsRising(sha: Hash, a: seq<Attestation>, b: seq<Attestation>)
    requires Buildable(a) && Buildable(b) && Rising(a) && Rising(b)
    requires BatchRoot(sha, a) == BatchRoot(sha, b)
    requires CollisionFree<Digest, seq<byte>>(sha, BatchMessages(sha, a) + BatchMessages(sha, b))
    ensures SameRun(a, b)
  {
    SameRootSameMessages(sha, a, b);
    MessagesInclude(a, b);
    MessagesInclude(b, a);
    SameMembersSameRun(a, b);
  }

  lemma WithinLimitRises(atts: seq<Attestation>)
    requires Buildable(atts) && EndsBy(atts, TWO_TO_THE_53)
    ensures Rising(atts)
  {
    assert Encodable(atts[0].fields);
    forall i | 0 <= i < |atts| ensures IndexNumber(atts[i]) == IndexNumber(atts[0]) + i {
      assert InRun(atts, i);
    }
  }

  /**
   Two batches that `Build` accepts under one root, and that stay within 2^53, carry the same
   signed fields in the same order.
   */
  lemma RootBindsBatch(sha: Hash, a: seq<Attestation>, b: seq<Attestation>)
    requires Buildable(a) && Buildable(b) && EndsBy(a, TWO_TO_THE_53) && EndsBy(b, TWO_TO_THE_53)
    requires BatchRoot(sha, a) == BatchRoot(sha, b)
    requires CollisionFree<Digest, seq<byte>>(sha, BatchMessages(sha, a) + BatchMessages(sha, b))
    ensures SameRun(a, b)
  {
    WithinLimitRises(a);
    WithinLimitRises(b);
    RootBindsRising(sha, a, b);
  }

  ghost predicate Binds(sha: Hash, a: seq<Attestation>, b: seq<Attestation>, bound: int) {
    && Buildable(a) && Buildable(b) && EndsBy(a, bound) && EndsBy(b, bound)
    && BatchRoot(sha, a) == BatchRoot(sha, b)
    && CollisionFree<Digest, seq<byte>>(sha, BatchMessages(sha, a) + BatchMessages(sha, b))
    ==> SameRun(a, b)
  }

  /** The root binds every two runs within `bound` whose messages have no collisions. */
  ghost predicate BindsUpTo(sha: Hash, bound: int) {
    forall a, b :: Binds(sha, a, b, bound)
  }

  function Filled(x: byte): Digest {
    seq(HASH_BYTES, _ => x)
  }

  /** A call at index 2^53; the next index reads as the same number. */
  function AtLimit(x: byte): Attestation {
    Attestation(Fields(0, TWO_TO_THE_53, Filled(0), Filled(0), 0, Filled(x)), [], "")
  }

  lemma LimitRunBuilds(x: byte, y: byte)
    ensures Buildable([AtLimit(x), AtLimit(y)]) && EndsBy([AtLimit(x), AtLimit(y)], TWO_TO_THE_53 + 1)
  {
    assert Ulp((TWO_TO_THE_53 + 1) / 2) == 1 && Ulp(TWO_TO_THE_53 + 1) == 2;
    assert ToDouble(TWO_TO_THE_53 + 1) == TWO_TO_THE_53;
    var run := [AtLimit(x), AtLimit(y)];
    assert InRun(run, 0) && InRun(run, 1);
  }

  lemma PairRoot(sha: Hash, x: Attestation, y: Attestation)
    requires Encodable(x.fields) && Encodable(y.fields)
    ensures Root(sha, InternalMessage, Leaves(sha, [x, y])) ==
              sha(InternalMessage(LeafHash(sha, x.fields), LeafHash(sha, y.fields)))
  {
    assert Height(2) == 1 && Width(2, 1) == 1;
  }

  /** One pair message, whichever of the two comes first. */
  lemma ReversedShareRoot(sha: Hash, x: Attestation, y: Attestation)
    requires Encodable(x.fields) && Encodable(y.fields)
    ensures Root(sha, InternalMessage, Leaves(sha, [x, y])) == Root(sha, InternalMessage, Leaves(sha, [y, x]))
  {
    var p, q := LeafHash(sha, x.fields), LeafHash(sha, y.fields);
    InternalMessageDetermines(p, q, q, p);
    PairRoot(sha, x, y);
    PairRoot(sha, y, x);
  }

  /** Two calls at the limit, and the same two the other way round. */
  function LimitRun(): seq<Attestation> {
    [AtLimit(0), AtLimit(1)]
  }

  function LimitRunReversed(): seq<Attestation> {
    [AtLimit(1), AtLimit(0)]
  }

  /** The messages hashed in building the two. */
  ghost function LimitMessages(sha: Hash): set<seq<byte>> {
    LimitRunBuilds(0, 1);
    LimitRunBuilds(1, 0);
    BatchMessages(sha, LimitRun()) + BatchMessages(sha, LimitRunReversed())
  }

  /** At 2^53 a run and its reverse build under one root, whatever the hash function. */
  lemma LimitRunsShareRoot(sha: Hash)
    requires CollisionFree<Digest, seq<byte>>(sha, LimitMessages(sha))
    ensures !Binds(sha, LimitRun(), LimitRunReversed(), TWO_TO_THE_53 + 1)
  {
    LimitRunBuilds(0, 1);
    LimitRunBuilds(1, 0);
    ReversedShareRoot(sha, AtLimit(0), AtLimit(1));
    assert Filled(0)[0] != Filled(1)[0];
    assert LimitRun()[0].fields.nonce != LimitRunReversed()[0].fields.nonce;
  }

  lemma BindsWithinLimit(sha: Hash, a: seq<Attestation>, b: seq<Attestation>, bound: int)
    requires bound <= TWO_TO_THE_53
    ensures Binds(sha, a, b, bound)
  {
    if && Buildable(a) && Buildable(b) && EndsBy(a, bound) && EndsBy(b, bound) && BatchRoot(sha, a) == BatchRoot(sha, b)
       && CollisionFree<Digest, seq<byte>>(sha, BatchMessages(sha, a) + BatchMessages(sha, b)) {
      RootBindsBatch(sha, a, b);
    }
  }

  lemma BoundGrows(sha: Hash, a: seq<Attestation>, b: seq<Attestation>, bound: int, larger: int)
    requires !Binds(sha, a, b, bound) && bound <= larger
    ensures !Binds(sha, a, b, larger)
  {
  }

  /** The root binds the batch exactly as far as call indices are distinct as JavaScript numbers. */
  lemma RootBindsExactly(sha: Hash, bound: int)
    requires CollisionFree<Digest, seq<byte>>(sha, LimitMessages(sha))
    ensures BindsUpTo(sha, bound) <==> bound <= TWO_TO_THE_53
  {
    if bound <= TWO_TO_THE_53 {
      forall a, b ensures Binds(sha, a, b, bound) { BindsWithinLimit(sha, a, b, bound); }
    } else {
      LimitRunsShareRoot(sha);
      BoundGrows(sha, LimitRun(), LimitRunReversed(), TWO_TO_THE_53 + 1, bound);
    }
  }

  /** Without the contiguity check the root would forget order, and the length of an odd level. */
  lemma RootForgets(sha: Hash, x: Digest, y: Digest, z: Digest)
    ensures Root(sha, InternalMessage, [x, y]) == Root(sha, InternalMessage, [y, x])
    ensures Root(sha, InternalMessage, [x, y, z]) == Root(sha, InternalMessage, [x, y, z, z])
  {
    InternalMessageDetermines(x, y, y, x);
    assert Height(2) == 1 && Height(3) == 2 && Height(4) == 2;
    assert Node(sha, InternalMessage, [x, y, z], 1, 1) == Node(sha, InternalMessage, [x, y, z, z], 1, 1);
    assert Node(sha, InternalMessage, [x, y, z], 1, 0) == Node(sha, InternalMessage, [x, y, z, z], 1, 0);
  }
}
