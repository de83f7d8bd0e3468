/**
 backend/src/audit/MerkleAnchor.js, tree utilities: the root over entry hashes, and inclusion
 proofs that say on which side each sibling stands. Hexadecimal text stands for its bytes.
 */
module AuditTree {
  import opened Bytes
  import opened MerkleTree
  import opened OrderedTree
  import Utf8

  /** SHA-256, and the encoding of the text it is given: `Utf8.Encode`, of which only `Utf8.Faithful` is used. */
  datatype Hashing = Hashing(sha: Hash, utf8: string -> seq<byte>)

  datatype Step = Step(sibling: seq<byte>, onRight: bool)

  /** hashPair hashes the two children side by side. */
  function Joined(left: Digest, right: Digest): seq<byte> {
    left + right
  }

  /** The left child first, 32 bytes each. */
  lemma LeftThenRight(left: Digest, right: Digest)
    ensures Joined(left, right)[..32] == left && Joined(left, right)[32..] == right
  {
  }

  function LeafTexts(utf8: string -> seq<byte>, entryHashes: seq<string>): (texts: seq<seq<byte>>)
    ensures |texts| == |entryHashes| &&
              forall i {:trigger texts[i]} :: 0 <= i < |texts| ==> texts[i] == utf8(entryHashes[i])
  {
    seq(|entryHashes|, i requires 0 <= i < |entryHashes| => utf8(entryHashes[i]))
  }

  function HashLeaf(h: Hashing, entryHash: string): Digest {
    h.sha(h.utf8(entryHash))
  }

  function LeavesOf(h: Hashing, entryHashes: seq<string>): seq<Digest> {
    Hashed(h.sha, LeafTexts(h.utf8, entryHashes))
  }

  const NO_ENTRIES: Digest := seq(HASH_BYTES, _ => 0)

  function RootOf(h: Hashing, entryHashes: seq<string>): Digest {
    if entryHashes == [] then NO_ENTRIES else Root(h.sha, Joined, LeavesOf(h, entryHashes))
  }

  method HashLeaves(h: Hashing, entryHashes: seq<string>) returns (layer: seq<Digest>)
    ensures layer == LeavesOf(h, entryHashes)
  {
    layer := [];
    for i := 0 to |entryHashes|
      invariant |layer| == i && forall j :: 0 <= j < i ==> layer[j] == HashLeaf(h, entryHashes[j])
    {
      layer := layer + [HashLeaf(h, entryHashes[i])];
    }
  }

  method ComputeMerkleRoot(h: Hashing, entryHashes: seq<string>) returns (root: Digest)
    ensures root == RootOf(h, entryHashes)
  {
    if |entryHashes| == 0 { return NO_ENTRIES; }
    var layer := HashLeaves(h, entryHashes);
    ghost var leaves := layer;
    ghost var k := 0;
    while |layer| > 1
      invariant layer != [] && IsLevel<Digest, seq<byte>>(h.sha, Joined, leaves, k, layer)
      invariant Height(|leaves|) == k + Height(|layer|)
      decreases |layer|
    {
      var next, _ := NextLayer(h.sha, leaves, k, layer, -1);
      layer, k := next, k + 1;
    }
    WidthAtTop(|leaves|);
    root := layer[0];
  }

  /** One level up; `steps` holds the sibling of `idx` when `idx` is in some pair. */
  method NextLayer(sha: Hash, ghost leaves: seq<Digest>, ghost k: nat, layer: seq<Digest>, idx: int)
    returns (next: seq<Digest>, steps: seq<Step>)
    requires IsLevel<Digest, seq<byte>>(sha, Joined, leaves, k, layer)
    ensures IsLevel<Digest, seq<byte>>(sha, Joined, leaves, k + 1, next)
    ensures 0 <= idx < |layer| ==> steps == [Step(layer[SiblingOf(|layer|, idx)], idx % 2 == 0)]
  {
    next, steps := [], [];
    var i := 0;
    while i < |layer|
      invariant 0 <= i <= |layer| + 1 && i % 2 == 0 && |next| == i / 2
      invariant forall j :: 0 <= j < |next| ==> next[j] == Node<Digest, seq<byte>>(sha, Joined, leaves, k + 1, j)
      invariant 0 <= idx < |layer| ==>
                  steps == if idx < i then [Step(layer[SiblingOf(|layer|, idx)], idx % 2 == 0)] else []
    {
      var left := layer[i];
      // Without a right neighbour, the last node is both sides.
      var right := if i + 1 < |layer| then layer[i + 1] else layer[i];
      if i == idx || i + 1 == idx {
        steps := steps + [if i == idx then Step(right, true) else Step(left, false)];
      }
      assert NodeMessage<Digest, seq<byte>>(sha, Joined, leaves, k + 1, i / 2) == Joined(left, right);
      next := next + [sha(Joined(left, right))];
      i := i + 2;
    }
  }

  /** The siblings on the way up from `position`, each with its side. */
  ghost predicate IsSidedPath(sha: Hash, leaves: seq<Digest>, position: nat, proof: seq<Step>) {
    && position < |leaves|
    && forall k :: 0 <= k < |proof| ==> IsSidedStep(sha, leaves, position, k, proof[k])
  }

  ghost predicate IsSidedStep(sha: Hash, leaves: seq<Digest>, position: nat, k: nat, step: Step)
    requires position < |leaves|
  {
    step == Step(PathSibling<Digest, seq<byte>>(sha, Joined, leaves, position, k), PositionAt(position, k) % 2 == 0)
  }

  method GenerateMerkleProof(h: Hashing, entryHashes: seq<string>, index: int) returns (proof: seq<Step>)
    ensures 0 <= index < |entryHashes| ==>
              |proof| == Height(|entryHashes|) && IsSidedPath(h.sha, LeavesOf(h, entryHashes), index, proof)
  {
    if |entryHashes| == 0 { return []; }
    var layer := HashLeaves(h, entryHashes);
    ghost var leaves := layer;
    ghost var k := 0;
    var idx := index;
    proof := [];
    while |layer| > 1
      invariant layer != [] && IsLevel<Digest, seq<byte>>(h.sha, Joined, leaves, k, layer)
      invariant Height(|leaves|) == k + Height(|layer|)
      invariant 0 <= index < |leaves| ==>
                  idx == PositionAt(index, k) && |proof| == k && IsSidedPath(h.sha, leaves, index, proof)
      decreases |layer|
    {
      if 0 <= index < |leaves| { PositionInWidth(|leaves|, index, k); }
      var next, steps := NextLayer(h.sha, leaves, k, layer, idx);
      proof, layer, idx, k := proof + steps, next, idx / 2, k + 1;
    }
  }

  /** The hash reached from `leaf` after `m` steps. */
  function Climb(sha: Hash, leaf: Digest, proof: seq<Step>, m: nat): Digest
    requires m <= |proof|
    decreases m, 1
  {
    if m == 0 then leaf else sha(ClimbMessage(sha, leaf, proof, m))
  }

  function ClimbMessage(sha: Hash, leaf: Digest, proof: seq<Step>, m: nat): seq<byte>
    requires 0 < m <= |proof|
    decreases m, 0
  {
    var current := Climb(sha, leaf, proof, m - 1);
    if proof[m - 1].onRight then current + proof[m - 1].sibling else proof[m - 1].sibling + current
  }

  method VerifyMerkleProof(h: Hashing, entryHash: string, proof: seq<Step>, expectedRoot: Digest) returns (r: bool)
    ensures r == Accepts(h, entryHash, proof, expectedRoot)
  {
    var current := HashLeaf(h, entryHash);
    ghost var leaf := current;
    for i := 0 to |proof|
      invariant current == Climb(h.sha, leaf, proof, i)
    {
      var step := proof[i];
      current := if step.onRight then h.sha(current + step.sibling) else h.sha(step.sibling + current);
      assert current == h.sha(ClimbMessage(h.sha, leaf, proof, i + 1));
    }
    r := current == expectedRoot;
  }

  predicate Accepts(h: Hashing, entryHash: string, proof: seq<Step>, root: Digest) {
    Climb(h.sha, HashLeaf(h, entryHash), proof, |proof|) == root
  }

  // ----- completeness

  lemma {:induction false} SidedPathClimbs(sha: Hash, leaves: seq<Digest>, position: nat, proof: seq<Step>, k: nat)
    requires IsSidedPath(sha, leaves, position, proof) && k <= |proof|
    ensures PositionAt(position, k) < Width(|leaves|, k)
    ensures Climb(sha, leaves[position], proof, k) ==
              Node<Digest, seq<byte>>(sha, Joined, leaves, k, PositionAt(position, k))
  {
    PositionInWidth(|leaves|, position, k);
    if k > 0 {
      PositionInWidth(|leaves|, position, k - 1);
      SidedPathClimbs(sha, leaves, position, proof, k - 1);
      assert IsSidedStep(sha, leaves, position, k - 1, proof[k - 1]);
      var p := PositionAt(position, k - 1);
      assert p == 2 * (p / 2) || p == 2 * (p / 2) + 1;
      assert ClimbMessage(sha, leaves[position], proof, k) ==
        NodeMessage<Digest, seq<byte>>(sha, Joined, leaves, k, PositionAt(position, k));
    }
  }

  lemma SidedPathReachesRoot(sha: Hash, leaves: seq<Digest>, leaf: Digest, position: nat, proof: seq<Step>)
    requires IsSidedPath(sha, leaves, position, proof) && |proof| == Height(|leaves|) && leaf == leaves[position]
    ensures Climb(sha, leaf, proof, |proof|) == Root<Digest, seq<byte>>(sha, Joined, leaves)
  {
    WidthAtTop(|leaves|);
    SidedPathClimbs(sha, leaves, position, proof, |proof|);
  }

  /** Every position of every nonempty list has a proof, as generated, that verifies. */
  lemma SidedProofComplete(h: Hashing, entryHashes: seq<string>, index: nat, proof: seq<Step>)
    requires index < |entryHashes| && |proof| == Height(|entryHashes|)
    requires IsSidedPath(h.sha, LeavesOf(h, entryHashes), index, proof)
    ensures Climb(h.sha, HashLeaf(h, entryHashes[index]), proof, |proof|) == RootOf(h, entryHashes)
  {
    SidedPathReachesRoot(h.sha, LeavesOf(h, entryHashes), HashLeaf(h, entryHashes[index]), index, proof);
  }

  // ----- soundness

  /** No sibling is as long as what the text of an entry has beyond a digest: a step could be read as that text. */
  ghost predicate NoneCompletes(proof: seq<Step>, texts: seq<seq<byte>>) {
    forall k, j :: 0 <= k < |proof| && 0 <= j < |texts| ==> HASH_BYTES + |proof[k].sibling| != |texts[j]|
  }

  /** As long as two digests: such a text could be read as a pair. */
  predicate AsLongAsPair(text: seq<byte>) {
    |text| == 2 * HASH_BYTES
  }

  ghost function ClimbMessages(sha: Hash, text: seq<byte>, proof: seq<Step>): set<seq<byte>> {
    {text} + set m: nat | 0 < m <= |proof| :: ClimbMessage(sha, sha(text), proof, m)
  }

  lemma JoinedKeepsSides(a: Digest, b: Digest, c: Digest, d: Digest)
    ensures ComparesOrdered<Digest, seq<byte>>(Joined, a, b, c, d)
  {
    if Joined(a, b) == Joined(c, d) {
      assert a == Joined(a, b)[..HASH_BYTES] && c == Joined(c, d)[..HASH_BYTES];
      assert b == Joined(a, b)[HASH_BYTES..] && d == Joined(c, d)[HASH_BYTES..];
    }
  }

  lemma JoinedIsOrdered()
    ensures Ordered<Digest, seq<byte>>(Joined)
  {
    forall w: Digest, x: Digest, y: Digest, z: Digest ensures ComparesOrdered<Digest, seq<byte>>(Joined, w, x, y, z) {
      JoinedKeepsSides(w, x, y, z);
    }
  }

  lemma {:induction false} ClimbStartsAtLeaf(
    sha: Hash, texts: seq<seq<byte>>, text: seq<byte>, proof: seq<Step>, m: nat, k: nat, i: nat)
    requires !AsLongAsPair(text) && NoneCompletes(proof, texts)
    requires CollisionFree<Digest, seq<byte>>(sha,
               TreeMessages<Digest, seq<byte>>(sha, Joined, texts) + ClimbMessages(sha, text, proof))
    requires m <= |proof| && k <= Height(|texts|) && i < Width(|texts|, k)
    requires Climb(sha, sha(text), proof, m) == Node<Digest, seq<byte>>(sha, Joined, Hashed(sha, texts), k, i)
    ensures m == k && text in texts
    decreases k
  {
    var leaves := Hashed(sha, texts);
    var mine := if m == 0 then text else ClimbMessage(sha, sha(text), proof, m);
    assert m > 0 ==> |mine| == HASH_BYTES + |proof[m - 1].sibling|;
    var theirs := if k == 0 then texts[i] else NodeMessage<Digest, seq<byte>>(sha, Joined, leaves, k, i);
    assert mine in ClimbMessages(sha, text, proof);
    assert theirs in TreeMessages<Digest, seq<byte>>(sha, Joined, texts);
    assert mine == theirs;
    assert k > 0 ==> AsLongAsPair(theirs);
    if m > 0 && k > 0 {
      var here, sibling := Climb(sha, sha(text), proof, m - 1), proof[m - 1].sibling;
      var j := RightOf(Width(|leaves|, k - 1), 2 * i);
      var left, right :=
        Node<Digest, seq<byte>>(sha, Joined, leaves, k - 1, 2 * i),
        Node<Digest, seq<byte>>(sha, Joined, leaves, k - 1, j);
      JoinedKeepsSides(here, sibling, left, right);
      JoinedKeepsSides(sibling, here, left, right);
      ClimbStartsAtLeaf(sha, texts, text, proof, m - 1, k - 1, if proof[m - 1].onRight then 2 * i else j);
    }
  }

  /**
   A proof that verifies proves membership, and is as long as the tree is high, once no step of it
   could be read as an entry. That its siblings are digests need not be asked.
   */
  lemma SidedProofSound(h: Hashing, entryHashes: seq<string>, entryHash: string, proof: seq<Step>)
    requires Utf8.Faithful(h.utf8) && entryHashes != []
    requires !AsLongAsPair(h.utf8(entryHash)) && NoneCompletes(proof, LeafTexts(h.utf8, entryHashes))
    requires CollisionFree<Digest, seq<byte>>(h.sha, InclusionMessages(h, entryHashes, entryHash, proof))
    requires Accepts(h, entryHash, proof, RootOf(h, entryHashes))
    ensures |proof| == Height(|entryHashes|) && entryHash in entryHashes
  {
    WidthAtTop(|entryHashes|);
    ClimbStartsAtLeaf(h.sha, LeafTexts(h.utf8, entryHashes), h.utf8(entryHash), proof, |proof|, Height(|entryHashes|),
      0);
    var p :| 0 <= p < |entryHashes| && LeafTexts(h.utf8, entryHashes)[p] == h.utf8(entryHash);
    assert Utf8.Distinguishes(h.utf8, entryHashes[p], entryHash);
  }

  /** Every message hashed in building the tree and in checking the proof. */
  ghost function InclusionMessages(
    h: Hashing, entryHashes: seq<string>, entryHash: string, proof: seq<Step>): set<seq<byte>>
  {
    TreeMessages<Digest, seq<byte>>(h.sha, Joined, LeafTexts(h.utf8, entryHashes)) +
      ClimbMessages(h.sha, h.utf8(entryHash), proof)
  }

  /** Hashes `text` to the front of `other`, and all else to zeros. */
  function Into(text: seq<byte>, other: seq<byte>): Hash
    requires |other| >= HASH_BYTES
  {
    (x: seq<byte>) => if x == text then other[..HASH_BYTES] else NO_ENTRIES
  }

  /** The rest of `other`, as a sibling. */
  function Completion(other: seq<byte>): Step
    requires |other| >= HASH_BYTES
  {
    Step(other[HASH_BYTES..], true)
  }

  /** The first step of a proof can be left out if its message is presented in place of the entry. */
  lemma {:induction false} ClimbOn(sha: Hash, leaf: Digest, proof: seq<Step>, m: nat)
    requires m < |proof|
    ensures Climb(sha, sha(ClimbMessage(sha, leaf, proof, 1)), proof[1..], m) == Climb(sha, leaf, proof, m + 1)
  {
    if m > 0 {
      ClimbOn(sha, leaf, proof, m - 1);
      assert proof[1..][m - 1] == proof[m];
    }
  }

  /**
   A text that is a pair, as long as 64 bytes are, passes with a proof that is one step short, under
   every hash function.
   */
  lemma PairTextPasses(h: Hashing, entry: string, proof: seq<Step>, root: Digest, text: string)
    requires proof != [] && Accepts(h, entry, proof, root)
    requires h.utf8(text) == ClimbMessage(h.sha, HashLeaf(h, entry), proof, 1)
    ensures Accepts(h, text, proof[1..], root)
  {
    ClimbOn(h.sha, HashLeaf(h, entry), proof, |proof| - 1);
  }

  /**
   A sibling that completes the digest of another text to the text of an entry makes the other pass
   for the entry, with a proof that is one step longer, under every hash function.
   */
  lemma CompletionPasses(h: Hashing, entry: string, proof: seq<Step>, root: Digest, other: string)
    requires Accepts(h, entry, proof, root)
    requires |h.utf8(entry)| >= HASH_BYTES && HashLeaf(h, other) == h.utf8(entry)[..HASH_BYTES]
    ensures Accepts(h, other, [Completion(h.utf8(entry))] + proof, root)
  {
    var text, longer := h.utf8(entry), [Completion(h.utf8(entry))] + proof;
    assert ClimbMessage(h.sha, HashLeaf(h, other), longer, 1) == text[..HASH_BYTES] + text[HASH_BYTES..] == text;
    assert longer[1..] == proof;
    ClimbOn(h.sha, HashLeaf(h, other), longer, |longer| - 1);
  }

  /** There are hash functions without collisions for which that happens. */
  lemma CompletionIsAccepted(utf8: string -> seq<byte>, entry: string, other: string)
    requires |utf8(entry)| >= HASH_BYTES && utf8(other) != utf8(entry) && utf8(entry)[..HASH_BYTES] != NO_ENTRIES
    ensures var h, proof := Hashing(Into(utf8(other), utf8(entry)), utf8), [Completion(utf8(entry))];
            && CollisionFree<Digest, seq<byte>>(h.sha, InclusionMessages(h, [entry], other, proof))
            && Accepts(h, other, proof, RootOf(h, [entry]))
  {
    var h, proof := Hashing(Into(utf8(other), utf8(entry)), utf8), [Completion(utf8(entry))];
    var text := utf8(entry);
    OneEntry(h, entry);
    CompletionPasses(h, entry, [], RootOf(h, [entry]), other);
    assert proof + [] == proof;
    assert ClimbMessages(h.sha, utf8(other), proof) <= {utf8(other), text} by {
      assert text[..HASH_BYTES] + text[HASH_BYTES..] == text;
      assert forall m: nat | 0 < m <= |proof| :: ClimbMessage(h.sha, h.sha(utf8(other)), proof, m) == text;
    }
    assert InclusionMessages(h, [entry], other, proof) <= {utf8(other), text};
  }

  lemma OneEntry(h: Hashing, entry: string)
    ensures RootOf(h, [entry]) == h.sha(h.utf8(entry))
    ensures TreeMessages<Digest, seq<byte>>(h.sha, Joined, LeafTexts(h.utf8, [entry])) == {h.utf8(entry)}
  {
    var texts := LeafTexts(h.utf8, [entry]);
    assert texts == [h.utf8(entry)] && |Hashed(h.sha, texts)| == 1;
    assert InnerMessages<Digest, seq<byte>>(h.sha, Joined, Hashed(h.sha, texts)) == {};
  }

  // ----- what the root binds

  /** Lists of one length under one root are equal, entry by entry. */
  lemma RootBindsEntries(h: Hashing, a: seq<string>, b: seq<string>)
    requires Utf8.Faithful(h.utf8) && |a| == |b| && RootOf(h, a) == RootOf(h, b)
    requires CollisionFree<Digest, seq<byte>>(h.sha,
               TreeMessages<Digest, seq<byte>>(h.sha, Joined, LeafTexts(h.utf8, a)) +
                 TreeMessages<Digest, seq<byte>>(h.sha, Joined, LeafTexts(h.utf8, b)))
    ensures a == b
  {
    if a != [] {
      JoinedIsOrdered();
      SameRootSameLengthSameLeaves<Digest, seq<byte>>(h.sha, Joined, LeafTexts(h.utf8, a), LeafTexts(h.utf8, b));
      SameTexts(h.utf8, a, b);
    }
  }

  lemma TextsAreNoPairs(texts: seq<seq<byte>>)
    requires forall i :: 0 <= i < |texts| ==> !AsLongAsPair(texts[i])
    ensures NoPair<Digest, seq<byte>>(Joined, Elements(texts))
  {
  }

  /** Of lists without repetition the root fixes the length too, once their texts are not as long as a pair. */
  lemma RootBindsDistinct(h: Hashing, a: seq<string>, b: seq<string>)
    requires Utf8.Faithful(h.utf8) && a != [] && b != [] && Distinct(a) && Distinct(b) && RootOf(h, a) == RootOf(h, b)
    requires forall i :: 0 <= i < |a| ==> !AsLongAsPair(h.utf8(a[i]))
    requires forall i :: 0 <= i < |b| ==> !AsLongAsPair(h.utf8(b[i]))
    requires CollisionFree<Digest, seq<byte>>(h.sha,
               TreeMessages<Digest, seq<byte>>(h.sha, Joined, LeafTexts(h.utf8, a)) +
               TreeMessages<Digest, seq<byte>>(h.sha, Joined, LeafTexts(h.utf8, b)))
    ensures a == b
  {
    JoinedIsOrdered();
    TextsAreNoPairs(LeafTexts(h.utf8, a));
    TextsAreNoPairs(LeafTexts(h.utf8, b));
    TextsDistinct(h.utf8, a);
    TextsDistinct(h.utf8, b);
    SameRootDistinct<Digest, seq<byte>>(h.sha, Joined, LeafTexts(h.utf8, a), LeafTexts(h.utf8, b));
    SameTexts(h.utf8, a, b);
  }

  lemma TextsDistinct(utf8: string -> seq<byte>, entries: seq<string>)
    requires Utf8.Faithful(utf8) && Distinct(entries)
    ensures Distinct(LeafTexts(utf8, entries))
  {
    forall i, j | 0 <= i < j < |entries| ensures LeafTexts(utf8, entries)[i] != LeafTexts(utf8, entries)[j] {
      assert Utf8.Distinguishes(utf8, entries[i], entries[j]);
    }
  }

  lemma SameTexts(utf8: string -> seq<byte>, a: seq<string>, b: seq<string>)
    requires Utf8.Faithful(utf8) && LeafTexts(utf8, a) == LeafTexts(utf8, b)
    ensures a == b
  {
    assert |a| == |LeafTexts(utf8, a)| == |b|;
    forall i | 0 <= i < |a| ensures a[i] == b[i] {
      assert LeafTexts(utf8, a)[i] == LeafTexts(utf8, b)[i];
      assert Utf8.Distinguishes(utf8, a[i], b[i]);
    }
  }

  /** The length is not in the root: the anchor's entry count has to be checked beside it. */
  lemma RootForgetsLength(h: Hashing, x: string, y: string, z: string)
    ensures RootOf(h, [x, y, z]) == RootOf(h, [x, y, z, z])
  {
    var a, b := LeavesOf(h, [x, y, z]), LeavesOf(h, [x, y, z, z]);
    assert Height(3) == 2 && Height(4) == 2;
    assert Node<Digest, seq<byte>>(h.sha, Joined, a, 1, 1) == Node<Digest, seq<byte>>(h.sha, Joined, b, 1, 1);
    assert Node<Digest, seq<byte>>(h.sha, Joined, a, 1, 0) == Node<Digest, seq<byte>>(h.sha, Joined, b, 1, 0);
  }
}
