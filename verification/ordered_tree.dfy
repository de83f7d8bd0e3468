/**
 Trees whose pairs keep their sides, under one root, when their lengths are not known to be the same.
 With every odd tail written out twice all levels are full, and there the trees agree position by
 position; so of two lists under one root, the longer one goes on with entries of the shorter.
 */
module OrderedTree {
  import opened Bytes
  import opened MerkleTree

  /** The node of level `k` that stands at position `i` when every odd tail is written out twice. */
  function Standing(n: nat, k: nat, i: nat): nat
    requires k <= Height(n)
    decreases Height(n) - k
  {
    if k == Height(n) then 0 else
      var parent := Standing(n, k + 1, i / 2);
      if i % 2 == 0 then 2 * parent else RightOf(Width(n, k), 2 * parent)
  }

  lemma {:induction false} StandingInWidth(n: nat, k: nat, i: nat)
    requires n > 0 && k <= Height(n)
    ensures Standing(n, k, i) < Width(n, k)
    ensures i < Width(n, k) ==> Standing(n, k, i) == i
    decreases Height(n) - k
  {
    WidthAtTop(n);
    if k < Height(n) { StandingInWidth(n, k + 1, i / 2); }
  }

  /** The node that stands there. */
  function StandingNode<D, M>(hash: M -> D, pair: (D, D) -> M, leaves: seq<D>, k: nat, i: nat): D
    requires leaves != [] && k <= Height(|leaves|)
  {
    StandingInWidth(|leaves|, k, i);
    Node(hash, pair, leaves, k, Standing(|leaves|, k, i))
  }

  lemma ChildrenStand(n: nat, k: nat, j: nat)
    requires n > 0 && k < Height(n)
    ensures Standing(n, k, 2 * j) == 2 * Standing(n, k + 1, j)
    ensures Standing(n, k, 2 * j + 1) == RightOf(Width(n, k), 2 * Standing(n, k + 1, j))
  {
    assert 2 * j / 2 == j && (2 * j + 1) / 2 == j;
  }

  lemma ParentMessage<D, M>(hash: M -> D, pair: (D, D) -> M, leaves: seq<D>, k: nat, j: nat) returns (message: M)
    requires leaves != [] && k < Height(|leaves|)
    ensures message in InnerMessages(hash, pair, leaves)
    ensures StandingNode(hash, pair, leaves, k + 1, j) == hash(message)
    ensures message == pair(StandingNode(hash, pair, leaves, k, 2 * j), StandingNode(hash, pair, leaves, k, 2 * j + 1))
  {
    StandingInWidth(|leaves|, k + 1, j);
    ChildrenStand(|leaves|, k, j);
    message := NodeMessage(hash, pair, leaves, k + 1, Standing(|leaves|, k + 1, j));
  }

  /** Under one root, trees of one height agree at every position. */
  lemma {:induction false} SameStanding<D(!new), M>(
    hash: M -> D, pair: (D, D) -> M, a: seq<M>, b: seq<M>, k: nat, i: nat)
    requires Ordered(pair) && a != [] && b != [] && k <= Height(|a|) == Height(|b|)
    requires CollisionFree(hash, TreeMessages(hash, pair, a) + TreeMessages(hash, pair, b))
    requires Root(hash, pair, Hashed(hash, a)) == Root(hash, pair, Hashed(hash, b))
    ensures StandingNode(hash, pair, Hashed(hash, a), k, i) == StandingNode(hash, pair, Hashed(hash, b), k, i)
    decreases Height(|a|) - k
  {
    if k < Height(|a|) {
      SameStanding(hash, pair, a, b, k + 1, i / 2);
      SameChildren(hash, pair, a, b, k, i / 2);
      assert i == 2 * (i / 2) || i == 2 * (i / 2) + 1;
    }
  }

  lemma SameChildren<D(!new), M>(hash: M -> D, pair: (D, D) -> M, a: seq<M>, b: seq<M>, k: nat, j: nat)
    requires Ordered(pair) && a != [] && b != [] && k < Height(|a|) == Height(|b|)
    requires CollisionFree(hash, TreeMessages(hash, pair, a) + TreeMessages(hash, pair, b))
    requires StandingNode(hash, pair, Hashed(hash, a), k + 1, j) == StandingNode(hash, pair, Hashed(hash, b), k + 1, j)
    ensures StandingNode(hash, pair, Hashed(hash, a), k, 2 * j) == StandingNode(hash, pair, Hashed(hash, b), k, 2 * j)
    ensures StandingNode(hash, pair, Hashed(hash, a), k, 2 * j + 1) ==
              StandingNode(hash, pair, Hashed(hash, b), k, 2 * j + 1)
  {
    var x, y := Hashed(hash, a), Hashed(hash, b);
    var mine := ParentMessage(hash, pair, x, k, j);
    var theirs := ParentMessage(hash, pair, y, k, j);
    assert ComparesOrdered(pair, StandingNode(hash, pair, x, k, 2 * j), StandingNode(hash, pair, x, k, 2 * j + 1),
                                 StandingNode(hash, pair, y, k, 2 * j), StandingNode(hash, pair, y, k, 2 * j + 1));
  }

  /** What a node hashes: a leaf message, or the message of a pair. */
  function Preimage<D, M>(hash: M -> D, pair: (D, D) -> M, messages: seq<M>, k: nat, i: nat): M
    requires i < Width(|messages|, k)
  {
    if k == 0 then messages[i] else NodeMessage(hash, pair, Hashed(hash, messages), k, i)
  }

  lemma PreimageIsHashed<D, M>(hash: M -> D, pair: (D, D) -> M, messages: seq<M>, k: nat, i: nat)
    requires i < Width(|messages|, k) && k <= Height(|messages|)
    ensures Preimage(hash, pair, messages, k, i) in TreeMessages(hash, pair, messages)
    ensures hash(Preimage(hash, pair, messages, k, i)) == Node(hash, pair, Hashed(hash, messages), k, i)
  {
  }

  /** Down the left side of both trees: they reach their first leaves together. */
  lemma {:induction false} SameDepth<D(!new), M>(hash: M -> D, pair: (D, D) -> M, a: seq<M>, b: seq<M>, k: nat, m: nat)
    requires Ordered(pair) && NoPair(pair, Elements(a)) && NoPair(pair, Elements(b))
    requires a != [] && b != [] && k <= Height(|a|) && m <= Height(|b|) && 0 < Width(|a|, k) && 0 < Width(|b|, m)
    requires CollisionFree(hash, TreeMessages(hash, pair, a) + TreeMessages(hash, pair, b))
    requires Node(hash, pair, Hashed(hash, a), k, 0) == Node(hash, pair, Hashed(hash, b), m, 0)
    ensures k == m
    decreases k
  {
    var x, y := Hashed(hash, a), Hashed(hash, b);
    PreimageIsHashed(hash, pair, a, k, 0);
    PreimageIsHashed(hash, pair, b, m, 0);
    assert Preimage(hash, pair, a, k, 0) == Preimage(hash, pair, b, m, 0);
    if k > 0 && m > 0 {
      assert ComparesOrdered(pair, Node(hash, pair, x, k - 1, 0),
        Node(hash, pair, x, k - 1, RightOf(Width(|x|, k - 1), 0)),
                                   Node(hash, pair, y, m - 1, 0),
                                     Node(hash, pair, y, m - 1, RightOf(Width(|y|, m - 1), 0)));
      SameDepth(hash, pair, a, b, k - 1, m - 1);
    }
  }

  lemma SameLeafStanding<D(!new), M>(hash: M -> D, pair: (D, D) -> M, a: seq<M>, b: seq<M>, i: nat)
    requires Ordered(pair) && a != [] && b != [] && Height(|a|) == Height(|b|)
    requires CollisionFree(hash, TreeMessages(hash, pair, a) + TreeMessages(hash, pair, b))
    requires Root(hash, pair, Hashed(hash, a)) == Root(hash, pair, Hashed(hash, b))
    ensures Standing(|a|, 0, i) < |a| && Standing(|b|, 0, i) < |b| && a[Standing(|a|, 0, i)] == b[Standing(|b|, 0, i)]
  {
    SameStanding(hash, pair, a, b, 0, i);
    StandingInWidth(|a|, 0, i);
    StandingInWidth(|b|, 0, i);
    assert a[Standing(|a|, 0, i)] in Elements(a) && b[Standing(|b|, 0, i)] in Elements(b);
  }

  /** Of two lists under one root, the shorter one starts the longer one, which then repeats one of its entries. */
  lemma SameRootSameFront<D(!new), M>(hash: M -> D, pair: (D, D) -> M, a: seq<M>, b: seq<M>)
    requires Ordered(pair) && NoPair(pair, Elements(a)) && NoPair(pair, Elements(b)) && a != [] && |a| <= |b|
    requires CollisionFree(hash, TreeMessages(hash, pair, a) + TreeMessages(hash, pair, b))
    requires Root(hash, pair, Hashed(hash, a)) == Root(hash, pair, Hashed(hash, b))
    ensures Height(|a|) == Height(|b|) && a == b[..|a|] && (|a| < |b| ==> b[|a|] in a)
  {
    WidthAtTop(|a|);
    WidthAtTop(|b|);
    SameDepth(hash, pair, a, b, Height(|a|), Height(|b|));
    forall i | 0 <= i < |a| ensures a[i] == b[i] {
      SameLeafStanding(hash, pair, a, b, i);
      StandingInWidth(|a|, 0, i);
      StandingInWidth(|b|, 0, i);
    }
    if |a| < |b| {
      SameLeafStanding(hash, pair, a, b, |a|);
      StandingInWidth(|b|, 0, |a|);
    }
  }

  ghost predicate Distinct<M>(s: seq<M>) {
    forall i, j :: 0 <= i < j < |s| ==> s[i] != s[j]
  }

  /** Lists without repetition under one root are equal: then the root fixes the length as well. */
  lemma SameRootDistinct<D(!new), M>(hash: M -> D, pair: (D, D) -> M, a: seq<M>, b: seq<M>)
    requires Ordered(pair) && NoPair(pair, Elements(a)) && NoPair(pair, Elements(b)) && a != [] && b != []
    requires CollisionFree(hash, TreeMessages(hash, pair, a) + TreeMessages(hash, pair, b))
    requires Root(hash, pair, Hashed(hash, a)) == Root(hash, pair, Hashed(hash, b))
    requires Distinct(a) && Distinct(b)
    ensures a == b
  {
    if |a| <= |b| {
      SameRootSameFront(hash, pair, a, b);
      assert b[..|b|] == b;
    } else {
      SameRootSameFront(hash, pair, b, a);
      assert false;
    }
  }
}
