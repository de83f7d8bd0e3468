/**
 Binary hash trees over a list of leaves, an odd last node being paired with itself: the shape
 shared by the attestation batches and by the audit anchors. `hash` is the hash function and
 `pair` the message hashed for two children.
 */
module MerkleTree {
  import opened Bytes

  /** Number of levels above `n` leaves. */
  function Height(n: nat): nat {
    if n <= 1 then 0 else 1 + Height((n + 1) / 2)
  }

  /** Number of nodes of level `k` above `n` leaves. */
  function Width(n: nat, k: nat): nat {
    if k == 0 then n else (Width(n, k - 1) + 1) / 2
  }

  lemma {:induction false} WidthShift(n: nat, k: nat)
    ensures Width(n, k + 1) == Width((n + 1) / 2, k)
  {
    if k > 0 { WidthShift(n, k - 1); }
  }

  lemma {:induction false} WidthAtTop(n: nat)
    requires n > 0
    ensures Width(n, Height(n)) == 1
  {
    if n > 1 {
      WidthAtTop((n + 1) / 2);
      WidthShift(n, Height((n + 1) / 2));
    }
  }

  /** The right partner of an even position: the next node, or the node itself at an odd tail. */
  function RightOf(width: nat, i: nat): nat {
    if i + 1 < width then i + 1 else i
  }

  function SiblingOf(width: nat, i: nat): nat {
    if i % 2 == 1 then i - 1 else RightOf(width, i)
  }

  /** Node `i` of level `k`. */
  function Node<D, M>(hash: M -> D, pair: (D, D) -> M, leaves: seq<D>, k: nat, i: nat): D
    requires i < Width(|leaves|, k)
    decreases k, 1
  {
    if k == 0 then leaves[i] else hash(NodeMessage(hash, pair, leaves, k, i))
  }

  function NodeMessage<D, M>(hash: M -> D, pair: (D, D) -> M, leaves: seq<D>, k: nat, i: nat): M
    requires k > 0 && i < Width(|leaves|, k)
    decreases k, 0
  {
    pair(Node(hash, pair, leaves, k - 1, 2 * i),
      Node(hash, pair, leaves, k - 1, RightOf(Width(|leaves|, k - 1), 2 * i)))
  }

  function Root<D, M>(hash: M -> D, pair: (D, D) -> M, leaves: seq<D>): D
    requires leaves != []
  {
    WidthAtTop(|leaves|);
    Node(hash, pair, leaves, Height(|leaves|), 0)
  }

  /** `level` holds the nodes of level `k`. */
  ghost predicate IsLevel<D, M>(hash: M -> D, pair: (D, D) -> M, leaves: seq<D>, k: nat, level: seq<D>) {
    && |level| == Width(|leaves|, k)
    && forall i :: 0 <= i < |level| ==> level[i] == Node(hash, pair, leaves, k, i)
  }

  /** The position of the `k`-th ancestor of leaf `position`. */
  function PositionAt(position: nat, k: nat): nat {
    if k == 0 then position else PositionAt(position, k - 1) / 2
  }

  lemma {:induction false} PositionInWidth(n: nat, position: nat, k: nat)
    requires position < n
    ensures PositionAt(position, k) < Width(n, k)
  {
    if k > 0 { PositionInWidth(n, position, k - 1); }
  }

  /** The sibling met at level `k` on the way up from leaf `position`. */
  function PathSibling<D, M>(hash: M -> D, pair: (D, D) -> M, leaves: seq<D>, position: nat, k: nat): D
    requires position < |leaves|
  {
    PositionInWidth(|leaves|, position, k);
    Node(hash, pair, leaves, k, SiblingOf(Width(|leaves|, k), PositionAt(position, k)))
  }

  /** `proof` lists the siblings on the way up from leaf `position`. */
  ghost predicate IsPath<D, M>(hash: M -> D, pair: (D, D) -> M, leaves: seq<D>, position: nat, proof: seq<D>) {
    && position < |leaves|
    && forall k :: 0 <= k < |proof| ==> proof[k] == PathSibling(hash, pair, leaves, position, k)
  }

  // ----- messages

  ghost function Elements<M>(s: seq<M>): set<M> {
    set x | x in s
  }

  function Hashed<D, M>(hash: M -> D, messages: seq<M>): (leaves: seq<D>)
    ensures |leaves| == |messages|
    ensures forall i {:trigger leaves[i]} :: 0 <= i < |messages| ==> leaves[i] == hash(messages[i])
  {
    seq(|messages|, i requires 0 <= i < |messages| => hash(messages[i]))
  }

  /** Every message hashed in building the tree. */
  ghost function TreeMessages<D, M>(hash: M -> D, pair: (D, D) -> M, leafMessages: seq<M>): set<M> {
    Elements(leafMessages) + InnerMessages(hash, pair, Hashed(hash, leafMessages))
  }

  ghost function InnerMessages<D, M>(hash: M -> D, pair: (D, D) -> M, leaves: seq<D>): set<M> {
    set k: nat, i: nat | 0 < k <= Height(|leaves|) && i < Width(|leaves|, k) :: NodeMessage(hash, pair, leaves, k, i)
  }

  // ----- pairs that forget the side

  /** Only named instances of this fact are used: quantifying over `pair` terms is costly. */
  ghost predicate ComparesUnordered<D, M>(pair: (D, D) -> M, a: D, b: D, c: D, d: D) {
    pair(a, b) == pair(c, d) <==> (a == c && b == d) || (a == d && b == c)
  }

  ghost predicate Unordered<D(!new), M>(pair: (D, D) -> M) {
    forall a, b, c, d :: ComparesUnordered(pair, a, b, c, d)
  }

  /** No message in `messages` is the message of a pair. */
  ghost predicate NoPair<D(!new), M>(pair: (D, D) -> M, messages: set<M>) {
    forall a, b :: pair(a, b) !in messages
  }

  /** The hash reached from `leaf` with the lowest `m` siblings of `proof`. */
  function Walk<D, M>(hash: M -> D, pair: (D, D) -> M, leaf: D, proof: seq<D>, m: nat): D
    requires m <= |proof|
    decreases m, 1
  {
    if m == 0 then leaf else hash(StepMessage(hash, pair, leaf, proof, m))
  }

  function StepMessage<D, M>(hash: M -> D, pair: (D, D) -> M, leaf: D, proof: seq<D>, m: nat): M
    requires 0 < m <= |proof|
    decreases m, 0
  {
    pair(Walk(hash, pair, leaf, proof, m - 1), proof[m - 1])
  }

  /** Every message hashed in walking a proof. */
  ghost function WalkMessages<D, M>(hash: M -> D, pair: (D, D) -> M, start: M, proof: seq<D>): set<M> {
    {start} + set m: nat | 0 < m <= |proof| :: StepMessage(hash, pair, hash(start), proof, m)
  }

  lemma {:induction false} PathClimbs<D(!new), M>(
    hash: M -> D, pair: (D, D) -> M, leaves: seq<D>, position: nat, proof: seq<D>, k: nat)
    requires Unordered(pair) && IsPath(hash, pair, leaves, position, proof) && k <= |proof|
    ensures PositionAt(position, k) < Width(|leaves|, k)
    ensures Walk(hash, pair, leaves[position], proof, k) == Node(hash, pair, leaves, k, PositionAt(position, k))
    ensures k > 0 ==> StepMessage(hash, pair, leaves[position], proof, k) ==
                      NodeMessage(hash, pair, leaves, k, PositionAt(position, k))
  {
    PositionInWidth(|leaves|, position, k);
    if k > 0 {
      PositionInWidth(|leaves|, position, k - 1);
      PathClimbs(hash, pair, leaves, position, proof, k - 1);
      var p := PositionAt(position, k - 1);
      var here := Node(hash, pair, leaves, k - 1, p);
      assert proof[k - 1] == PathSibling(hash, pair, leaves, position, k - 1);
      assert ComparesUnordered(pair, here, proof[k - 1], proof[k - 1], here);
      assert p == 2 * (p / 2) || p == 2 * (p / 2) + 1;
    }
  }

  /** A partial walk that lands in level `k` took `k` steps and started at a leaf. */
  lemma {:induction false} WalkStartsAtLeaf<D(!new), M>(
    hash: M -> D, pair: (D, D) -> M, leafMessages: seq<M>, start: M, proof: seq<D>, m: nat, k: nat, i: nat)
    requires Unordered(pair)
    requires NoPair(pair, Elements(leafMessages)) && NoPair(pair, {start})
    requires CollisionFree(hash, TreeMessages(hash, pair, leafMessages) + WalkMessages(hash, pair, start, proof))
    requires m <= |proof| && k <= Height(|leafMessages|)
    requires i < Width(|leafMessages|, k)
    requires Walk(hash, pair, hash(start), proof, m) == Node(hash, pair, Hashed(hash, leafMessages), k, i)
    ensures m == k && start in leafMessages
    decreases k
  {
    var leaves := Hashed(hash, leafMessages);
    var mine := if m == 0 then start else StepMessage(hash, pair, hash(start), proof, m);
    var theirs := if k == 0 then leafMessages[i] else NodeMessage(hash, pair, leaves, k, i);
    assert mine in WalkMessages(hash, pair, start, proof);
    assert theirs in TreeMessages(hash, pair, leafMessages);
    assert mine == theirs;
    if m > 0 && k > 0 {
      var j := RightOf(Width(|leaves|, k - 1), 2 * i);
      var here := Walk(hash, pair, hash(start), proof, m - 1);
      assert ComparesUnordered(pair, here, proof[m - 1], Node(hash, pair, leaves, k - 1, 2 * i),
        Node(hash, pair, leaves, k - 1, j));
      WalkStartsAtLeaf(hash, pair, leafMessages, start, proof, m - 1, k - 1,
                       if here == Node(hash, pair, leaves, k - 1, j) then j else 2 * i);
    }
  }

  /** A walk that ends in the root started at a leaf and is as long as the tree is high. */
  lemma WalkSound<D(!new), M>(hash: M -> D, pair: (D, D) -> M, leafMessages: seq<M>, start: M, proof: seq<D>)
    requires Unordered(pair) && leafMessages != []
    requires NoPair(pair, Elements(leafMessages)) && NoPair(pair, {start})
    requires CollisionFree(hash, TreeMessages(hash, pair, leafMessages) + WalkMessages(hash, pair, start, proof))
    requires Walk(hash, pair, hash(start), proof, |proof|) == Root(hash, pair, Hashed(hash, leafMessages))
    ensures |proof| == Height(|leafMessages|) && start in leafMessages
  {
    WidthAtTop(|leafMessages|);
    WalkStartsAtLeaf(hash, pair, leafMessages, start, proof, |proof|, Height(|leafMessages|), 0);
  }

  /** Walking a member's own path reaches the root and hashes nothing new. */
  lemma OwnWalk<D(!new), M>(hash: M -> D, pair: (D, D) -> M, leafMessages: seq<M>, position: nat, proof: seq<D>)
    requires Unordered(pair) && IsPath(hash, pair, Hashed(hash, leafMessages), position, proof)
    requires |proof| == Height(|leafMessages|)
    ensures Walk(hash, pair, hash(leafMessages[position]), proof, |proof|) ==
              Root(hash, pair, Hashed(hash, leafMessages))
    ensures WalkMessages(hash, pair, leafMessages[position], proof) <= TreeMessages(hash, pair, leafMessages)
  {
    var leaves := Hashed(hash, leafMessages);
    WidthAtTop(|leaves|);
    PathClimbs(hash, pair, leaves, position, proof, |proof|);
    forall m: nat | 0 < m <= |proof|
      ensures StepMessage(hash, pair, leaves[position], proof, m) in InnerMessages(hash, pair, leaves)
    {
      PathClimbs(hash, pair, leaves, position, proof, m);
    }
  }

  lemma LeafUnderOtherRoot<D(!new), M>(hash: M -> D, pair: (D, D) -> M, a: seq<M>, b: seq<M>, i: nat)
    requires Unordered(pair) && b != [] && i < |a|
    requires NoPair(pair, Elements(a)) && NoPair(pair, Elements(b))
    requires CollisionFree(hash, TreeMessages(hash, pair, a) + TreeMessages(hash, pair, b))
    requires Root(hash, pair, Hashed(hash, a)) == Root(hash, pair, Hashed(hash, b))
    ensures a[i] in b
  {
    var leaves := Hashed(hash, a);
    var proof := seq(Height(|a|), k requires 0 <= k < Height(|a|) => PathSibling(hash, pair, leaves, i, k));
    OwnWalk(hash, pair, a, i, proof);
    WalkSound(hash, pair, b, a[i], proof);
  }

  /** Trees with unordered pairs under one root have the same set of leaf messages. */
  lemma SameRootSameLeaves<D(!new), M>(hash: M -> D, pair: (D, D) -> M, a: seq<M>, b: seq<M>)
    requires Unordered(pair) && a != [] && b != []
    requires NoPair(pair, Elements(a)) && NoPair(pair, Elements(b))
    requires CollisionFree(hash, TreeMessages(hash, pair, a) + TreeMessages(hash, pair, b))
    requires Root(hash, pair, Hashed(hash, a)) == Root(hash, pair, Hashed(hash, b))
    ensures forall i :: 0 <= i < |a| ==> a[i] in b
    ensures forall i :: 0 <= i < |b| ==> b[i] in a
  {
    forall i | 0 <= i < |a| ensures a[i] in b { LeafUnderOtherRoot(hash, pair, a, b, i); }
    forall i | 0 <= i < |b| ensures b[i] in a { LeafUnderOtherRoot(hash, pair, b, a, i); }
  }

  // ----- pairs that keep the side

  ghost predicate Ordered<D(!new), M>(pair: (D, D) -> M) {
    forall a, b, c, d :: ComparesOrdered(pair, a, b, c, d)
  }

  ghost predicate ComparesOrdered<D, M>(pair: (D, D) -> M, a: D, b: D, c: D, d: D) {
    pair(a, b) == pair(c, d) <==> a == c && b == d
  }

  /** Under one root, trees of one length agree at every node. */
  lemma {:induction false} SameNode<D(!new), M>(hash: M -> D, pair: (D, D) -> M, a: seq<M>, b: seq<M>, k: nat, i: nat)
    requires Ordered(pair) && |a| == |b| && a != [] && k <= Height(|a|) && i < Width(|a|, k)
    requires CollisionFree(hash, TreeMessages(hash, pair, a) + TreeMessages(hash, pair, b))
    requires Root(hash, pair, Hashed(hash, a)) == Root(hash, pair, Hashed(hash, b))
    ensures Node(hash, pair, Hashed(hash, a), k, i) == Node(hash, pair, Hashed(hash, b), k, i)
    decreases Height(|a|) - k
  {
    var x, y := Hashed(hash, a), Hashed(hash, b);
    WidthAtTop(|a|);
    if k < Height(|a|) {
      var width, j := Width(|a|, k), i / 2;
      SameNode(hash, pair, a, b, k + 1, j);
      var mine, theirs := NodeMessage(hash, pair, x, k + 1, j), NodeMessage(hash, pair, y, k + 1, j);
      assert mine in InnerMessages(hash, pair, x) && theirs in InnerMessages(hash, pair, y);
      assert ComparesOrdered(pair, Node(hash, pair, x, k, 2 * j), Node(hash, pair, x, k, RightOf(width, 2 * j)),
                                   Node(hash, pair, y, k, 2 * j), Node(hash, pair, y, k, RightOf(width, 2 * j)));
      assert i == 2 * j || i == RightOf(width, 2 * j);
    }
  }

  /** With ordered pairs, the root and the length fix the leaf messages and their order. */
  lemma SameRootSameLengthSameLeaves<D(!new), M>(hash: M -> D, pair: (D, D) -> M, a: seq<M>, b: seq<M>)
    requires Ordered(pair) && |a| == |b| && a != []
    requires CollisionFree(hash, TreeMessages(hash, pair, a) + TreeMessages(hash, pair, b))
    requires Root(hash, pair, Hashed(hash, a)) == Root(hash, pair, Hashed(hash, b))
    ensures a == b
  {
    forall i | 0 <= i < |a| ensures a[i] == b[i] {
      SameNode(hash, pair, a, b, 0, i);
      assert a[i] in Elements(a) && b[i] in Elements(b);
    }
  }
}
