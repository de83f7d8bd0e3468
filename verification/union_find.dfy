/** backend/src/fraud/graph.js: union by size with path compression. */
module UnionFind {

  datatype Node = Address(text: string)

  // ----- connectivity, without reference to any forest

  predicate Linked(links: set<(Node, Node)>, x: Node, y: Node) {
    (x, y) in links || (y, x) in links
  }

  ghost predicate IsWalk(links: set<(Node, Node)>, p: seq<Node>) {
    p != [] && forall i :: 0 <= i < |p| - 1 ==> Linked(links, p[i], p[i + 1])
  }

  ghost predicate Joins(links: set<(Node, Node)>, p: seq<Node>, x: Node, y: Node) {
    IsWalk(links, p) && p[0] == x && p[|p| - 1] == y
  }

  ghost predicate Connected(links: set<(Node, Node)>, x: Node, y: Node) {
    exists p :: Joins(links, p, x, y)
  }

  lemma ConnectedReflexive(links: set<(Node, Node)>, x: Node)
    ensures Connected(links, x, x)
  {
    assert Joins(links, [x], x, x);
  }

  lemma ConnectedByLink(links: set<(Node, Node)>, x: Node, y: Node)
    requires Linked(links, x, y)
    ensures Connected(links, x, y)
  {
    assert Joins(links, [x, y], x, y);
  }

  lemma ConnectedSymmetric(links: set<(Node, Node)>, x: Node, y: Node)
    requires Connected(links, x, y)
    ensures Connected(links, y, x)
  {
    var p :| Joins(links, p, x, y);
    var q := seq(|p|, i requires 0 <= i < |p| => p[|p| - 1 - i]);
    forall i | 0 <= i < |q| - 1 ensures Linked(links, q[i], q[i + 1]) {
      assert Linked(links, p[|p| - 2 - i], p[|p| - 2 - i + 1]);
    }
    assert Joins(links, q, y, x);
  }

  lemma ConnectedTransitive(links: set<(Node, Node)>, x: Node, y: Node, z: Node)
    requires Connected(links, x, y) && Connected(links, y, z)
    ensures Connected(links, x, z)
  {
    var p :| Joins(links, p, x, y);
    var q :| Joins(links, q, y, z);
    var r := p + q[1..];
    forall i | 0 <= i < |r| - 1 ensures Linked(links, r[i], r[i + 1]) {
      if i >= |p| - 1 {
        assert Linked(links, q[i - |p| + 1], q[i - |p| + 2]);
        assert r[i] == q[i - |p| + 1];
      }
    }
    assert Joins(links, r, x, z);
  }

  lemma ConnectedMonotone(links: set<(Node, Node)>, more: set<(Node, Node)>, x: Node, y: Node)
    requires Connected(links, x, y) && links <= more
    ensures Connected(more, x, y)
  {
    var p :| Joins(links, p, x, y);
    forall i | 0 <= i < |p| - 1 ensures Linked(more, p[i], p[i + 1]) {
      assert Linked(links, p[i], p[i + 1]);
    }
    assert Joins(more, p, x, y);
  }

  // ----- the forest

  function Pow2(n: nat): (p: nat)
    ensures p >= 1
  {
    if n == 0 then 1 else 2 * Pow2(n - 1)
  }

  lemma {:induction false} Pow2Monotone(m: nat, n: nat)
    requires m <= n
    ensures Pow2(m) <= Pow2(n)
  {
    if m < n { Pow2Monotone(m, n - 1); }
  }

  function Class(rep: map<Node, Node>, r: Node): set<Node> {
    set x | x in rep && rep[x] == r
  }

  /** `rep` leads `x` to its root, and `height` falls along the parent pointer. */
  ghost predicate Placed(parent: map<Node, Node>, rep: map<Node, Node>, height: map<Node, nat>, x: Node) {
    && x in parent && x in rep && x in height
    && parent[x] in parent && parent[x] in rep && parent[x] in height && rep[parent[x]] == rep[x]
    && rep[x] in parent && rep[x] in rep && rep[x] in height && parent[rep[x]] == rep[x] && rep[rep[x]] == rep[x]
    && (parent[x] == x ==> rep[x] == x)
    && (parent[x] != x ==> height[parent[x]] < height[x])
    && height[rep[x]] <= height[x]
  }

  ghost predicate Forest(parent: map<Node, Node>, rep: map<Node, Node>, height: map<Node, nat>) {
    parent.Keys == rep.Keys == height.Keys &&
    forall x {:trigger Placed(parent, rep, height, x)} :: x in parent ==> Placed(parent, rep, height, x)
  }

  /** The size at the root counts the class and bounds the height of `x`. */
  ghost predicate Counted(size: map<Node, nat>, rep: map<Node, Node>, height: map<Node, nat>, x: Node) {
    && x in rep && x in height && rep[x] in size
    && size[rep[x]] == |Class(rep, rep[x])|
    && Pow2(height[x]) <= size[rep[x]]
  }

  ghost predicate Sized(size: map<Node, nat>, rep: map<Node, Node>, height: map<Node, nat>) {
    size.Keys == rep.Keys == height.Keys &&
    forall x {:trigger Counted(size, rep, height, x)} :: x in rep ==> Counted(size, rep, height, x)
  }

  /** Roots are shared exactly by the nodes the links connect. */
  ghost predicate Partitions(links: set<(Node, Node)>, rep: map<Node, Node>) {
    && (forall a, b :: (a, b) in links ==> a in rep && b in rep && rep[a] == rep[b])
    && (forall x, y {:trigger Connected(links, x, y)} ::
          x in rep && y in rep && rep[x] == rep[y] ==> Connected(links, x, y))
  }

  /** The node reached from `x` after `k` parent steps, a missing pointer leading nowhere. */
  function Climb(parent: map<Node, Node>, x: Node, k: nat): Node {
    if k == 0 then x else
      var y := Climb(parent, x, k - 1);
      if y in parent then parent[y] else y
  }

  lemma {:induction false} ClimbDescends(
    parent: map<Node, Node>, rep: map<Node, Node>, height: map<Node, nat>, x: Node, k: nat)
    requires Forest(parent, rep, height) && x in parent
    ensures Climb(parent, x, k) in parent && rep[Climb(parent, x, k)] == rep[x]
    ensures Climb(parent, x, k) != rep[x] ==> height[Climb(parent, x, k)] + k <= height[x]
  {
    assert Placed(parent, rep, height, x);
    if k > 0 {
      ClimbDescends(parent, rep, height, x, k - 1);
      assert Placed(parent, rep, height, Climb(parent, x, k - 1));
    }
  }

  /** A node still below its root after `k` steps: the class has at least 2^(k+1) members. */
  lemma DepthIsLogarithmic(
    parent: map<Node, Node>, size: map<Node, nat>, rep: map<Node, Node>, height: map<Node, nat>, x: Node, k: nat)
    requires Forest(parent, rep, height) && Sized(size, rep, height) && x in parent
    requires Climb(parent, x, k) != rep[x]
    ensures Pow2(k + 1) <= |Class(rep, rep[x])|
  {
    ClimbDescends(parent, rep, height, x, k);
    var c := Climb(parent, x, k);
    assert Placed(parent, rep, height, c);
    Pow2Monotone(k + 1, height[x]);
    assert Counted(size, rep, height, x);
  }

  /** One root for what the links connect, however long the walk. */
  lemma {:induction false} WalkStaysInClass(links: set<(Node, Node)>, rep: map<Node, Node>, p: seq<Node>)
    requires Partitions(links, rep) && IsWalk(links, p) && p[0] in rep
    ensures p[|p| - 1] in rep && rep[p[|p| - 1]] == rep[p[0]]
    decreases |p|
  {
    if |p| > 1 {
      assert Linked(links, p[0], p[1]);
      forall i | 0 <= i < |p[1..]| - 1 ensures Linked(links, p[1..][i], p[1..][i + 1]) {
        assert Linked(links, p[i + 1], p[i + 2]);
      }
      WalkStaysInClass(links, rep, p[1..]);
    }
  }

  lemma SameRootExactlyWhenConnected(links: set<(Node, Node)>, rep: map<Node, Node>, x: Node, y: Node)
    requires Partitions(links, rep) && x in rep && y in rep
    ensures rep[x] == rep[y] <==> Connected(links, x, y)
  {
    if Connected(links, x, y) {
      var p :| Joins(links, p, x, y);
      WalkStaysInClass(links, rep, p);
    }
  }

  // ----- what the three operations do to the forest

  lemma AddKeepsForest(parent: map<Node, Node>, rep: map<Node, Node>, height: map<Node, nat>, x: Node)
    requires Forest(parent, rep, height) && x !in parent
    ensures Forest(parent[x := x], rep[x := x], height[x := 0])
  {
    var parent', rep', height' := parent[x := x], rep[x := x], height[x := 0];
    forall y | y in parent' ensures Placed(parent', rep', height', y) {
      if y != x { assert Placed(parent, rep, height, y); }
    }
  }

  lemma AddKeepsSizes(
    parent: map<Node, Node>, size: map<Node, nat>, rep: map<Node, Node>, height: map<Node, nat>, x: Node)
    requires Forest(parent, rep, height) && Sized(size, rep, height) && x !in parent
    ensures Sized(size[x := 1], rep[x := x], height[x := 0])
  {
    var size', rep', height' := size[x := 1], rep[x := x], height[x := 0];
    forall z | z in rep ensures rep[z] != x { assert Placed(parent, rep, height, z); }
    assert Class(rep', x) == {x};
    forall y | y in rep' ensures Counted(size', rep', height', y) {
      if y != x {
        assert Counted(size, rep, height, y);
        assert Class(rep', rep[y]) == Class(rep, rep[y]);
      }
    }
  }

  lemma AddKeepsPartition(
    parent: map<Node, Node>, rep: map<Node, Node>, height: map<Node, nat>, links: set<(Node, Node)>, x: Node)
    requires Forest(parent, rep, height) && Partitions(links, rep) && x !in parent
    ensures Partitions(links, rep[x := x])
  {
    var rep' := rep[x := x];
    forall z | z in rep ensures rep[z] != x { assert Placed(parent, rep, height, z); }
    forall y, z | y in rep' && z in rep' && rep'[y] == rep'[z] ensures Connected(links, y, z) {
      if y == x || z == x { ConnectedReflexive(links, x); }
    }
  }

  lemma CompressKeepsForest(parent: map<Node, Node>, rep: map<Node, Node>, height: map<Node, nat>, x: Node)
    requires Forest(parent, rep, height) && x in parent && parent[x] != x
    ensures Forest(parent[x := rep[x]], rep, height)
  {
    assert Placed(parent, rep, height, x);
    assert Placed(parent, rep, height, parent[x]);
    forall y | y in parent ensures Placed(parent[x := rep[x]], rep, height, y) {
      assert Placed(parent, rep, height, y);
    }
  }

  function Rehang(rep: map<Node, Node>, small: Node, big: Node): (after: map<Node, Node>)
    ensures after.Keys == rep.Keys
  {
    map x | x in rep :: if rep[x] == small then big else rep[x]
  }

  /** Everything in the smaller tree ends one step deeper. */
  function Deepen(rep: map<Node, Node>, height: map<Node, nat>, small: Node, big: Node): (after: map<Node, nat>)
    requires rep.Keys == height.Keys
    ensures after.Keys == height.Keys
  {
    map x | x in height :: if x == big then 0 else if rep[x] == small then height[x] + 1 else height[x]
  }

  ghost predicate Roots(parent: map<Node, Node>, small: Node, big: Node) {
    small in parent && big in parent && parent[small] == small && parent[big] == big && small != big
  }

  lemma LinkKeepsForest(parent: map<Node, Node>, rep: map<Node, Node>, height: map<Node, nat>, small: Node, big: Node)
    requires Forest(parent, rep, height) && Roots(parent, small, big)
    ensures Forest(parent[small := big], Rehang(rep, small, big), Deepen(rep, height, small, big))
  {
    assert parent[small := big].Keys == parent.Keys;
    assert Placed(parent, rep, height, small) && Placed(parent, rep, height, big);
    forall x | x in parent
      ensures Placed(parent[small := big], Rehang(rep, small, big), Deepen(rep, height, small, big), x)
    {
      assert Placed(parent, rep, height, x);
      assert Placed(parent, rep, height, parent[x]);
    }
  }

  lemma ClassesAfterLink(rep: map<Node, Node>, small: Node, big: Node)
    requires small in rep && big in rep && rep[small] == small && rep[big] == big && small != big
    ensures |Class(Rehang(rep, small, big), big)| == |Class(rep, big)| + |Class(rep, small)|
    ensures forall r :: r != small && r != big ==> Class(Rehang(rep, small, big), r) == Class(rep, r)
  {
    assert Class(Rehang(rep, small, big), big) == Class(rep, big) + Class(rep, small);
    assert Class(rep, big) !! Class(rep, small);
  }

  lemma LinkCounts(
    parent: map<Node, Node>, size: map<Node, nat>, rep: map<Node, Node>, height: map<Node, nat>, small: Node, big: Node,
      x: Node)
    requires rep.Keys == height.Keys && small in size && big in size && small != big
    requires small in rep && big in rep && rep[small] == small && rep[big] == big && small in height && big in height
    requires Counted(size, rep, height, small) && Counted(size, rep, height, big) && Counted(size, rep, height, x)
    requires size[small] <= size[big]
    ensures Counted(size[big := size[big] + size[small]], Rehang(rep, small, big), Deepen(rep, height, small, big), x)
  {
    ClassesAfterLink(rep, small, big);
    if rep[x] == small {
      assert Pow2(height[x] + 1) == 2 * Pow2(height[x]);
    } else if rep[x] != big {
      assert Class(Rehang(rep, small, big), rep[x]) == Class(rep, rep[x]);
    }
  }

  lemma LinkKeepsSizes(
    parent: map<Node, Node>, size: map<Node, nat>, rep: map<Node, Node>, height: map<Node, nat>, small: Node,
    big: Node)
    requires Forest(parent, rep, height) && Sized(size, rep, height) && Roots(parent, small, big)
    requires size.Keys == parent.Keys && size[small] <= size[big]
    ensures Sized(size[big := size[big] + size[small]], Rehang(rep, small, big), Deepen(rep, height, small, big))
  {
    assert Placed(parent, rep, height, small) && Placed(parent, rep, height, big);
    assert Counted(size, rep, height, small) && Counted(size, rep, height, big);
    forall x | x in rep
      ensures Counted(size[big := size[big] + size[small]], Rehang(rep, small, big), Deepen(rep, height, small, big), x)
    {
      assert Counted(size, rep, height, x);
      LinkCounts(parent, size, rep, height, small, big, x);
    }
  }

  lemma LinkKeepsPartition(links: set<(Node, Node)>, rep: map<Node, Node>, a: Node, b: Node, small: Node, big: Node)
    requires Partitions(links, rep) && a in rep && b in rep
    requires (small == rep[a] && big == rep[b]) || (small == rep[b] && big == rep[a])
    ensures Partitions(links + {(a, b)}, Rehang(rep, small, big))
  {
    var links' := links + {(a, b)};
    var rep' := Rehang(rep, small, big);
    ConnectedByLink(links', a, b);
    ConnectedSymmetric(links', a, b);
    forall x, y | x in rep && y in rep && rep'[x] == rep'[y] ensures Connected(links', x, y) {
      NearA(links, rep, a, b, small, big, x);
      NearA(links, rep, a, b, small, big, y);
      if rep[x] == rep[y] {
        ConnectedMonotone(links, links', x, y);
      } else {
        ConnectedSymmetric(links', y, a);
        ConnectedTransitive(links', x, a, y);
      }
    }
  }

  lemma NearA(links: set<(Node, Node)>, rep: map<Node, Node>, a: Node, b: Node, small: Node, big: Node, x: Node)
    requires Partitions(links, rep) && a in rep && b in rep && x in rep
    requires (small == rep[a] && big == rep[b]) || (small == rep[b] && big == rep[a])
    ensures rep[x] == small || rep[x] == big ==> Connected(links + {(a, b)}, x, a)
  {
    var links' := links + {(a, b)};
    if rep[x] == rep[a] {
      ConnectedMonotone(links, links', x, a);
    } else if rep[x] == rep[b] {
      ConnectedMonotone(links, links', x, b);
      ConnectedByLink(links', b, a);
      ConnectedTransitive(links', x, b, a);
    }
  }

  lemma SameRootLink(links: set<(Node, Node)>, rep: map<Node, Node>, a: Node, b: Node)
    requires Partitions(links, rep) && a in rep && b in rep && rep[a] == rep[b]
    ensures Partitions(links + {(a, b)}, rep)
  {
    forall x, y | x in rep && y in rep && rep[x] == rep[y] ensures Connected(links + {(a, b)}, x, y) {
      ConnectedMonotone(links, links + {(a, b)}, x, y);
    }
  }

  // ----- the object

  /** The two maps of the object with the root of every node, a bound on its depth, and the unions made so far. */
  datatype Shape = Shape(
    parent: map<Node, Node>, size: map<Node, nat>, rep: map<Node, Node>, height: map<Node, nat>,
    links: set<(Node, Node)>) {
    ghost predicate Good() {
      Forest(parent, rep, height) && Sized(size, rep, height) && Partitions(links, rep)
    }

    function Adding(x: Node): Shape {
      if x in parent then this else Shape(parent[x := x], size[x := 1], rep[x := x], height[x := 0], links)
    }

    function Linking(small: Node, big: Node, a: Node, b: Node): Shape
      requires rep.Keys == height.Keys && small in size && big in size
    {
      Shape(parent[small := big], size[big := size[big] + size[small]], Rehang(rep, small, big),
        Deepen(rep, height, small, big), links + {(a, b)})
    }

    lemma AddingKeeps(x: Node)
      requires Good()
      ensures Adding(x).Good() && x in Adding(x).parent
    {
      if x !in parent {
        AddKeepsForest(parent, rep, height, x);
        AddKeepsSizes(parent, size, rep, height, x);
        AddKeepsPartition(parent, rep, height, links, x);
      }
    }

    lemma LinkingKeeps(small: Node, big: Node, a: Node, b: Node)
      requires Good() && Roots(parent, small, big) && a in rep && b in rep
      requires small in size && big in size && size[small] <= size[big]
      requires (small == rep[a] && big == rep[b]) || (small == rep[b] && big == rep[a])
      ensures Linking(small, big, a, b).Good()
      ensures Linking(small, big, a, b).rep[a] == Linking(small, big, a, b).rep[b] == big
    {
      LinkKeepsForest(parent, rep, height, small, big);
      LinkKeepsSizes(parent, size, rep, height, small, big);
      LinkKeepsPartition(links, rep, a, b, small, big);
    }

    lemma RootsOf(a: Node, b: Node)
      requires Good() && a in rep && b in rep
      ensures rep[a] in size && rep[b] in size && (rep[a] != rep[b] ==> Roots(parent, rep[a], rep[b]))
    {
      assert Placed(parent, rep, height, a) && Placed(parent, rep, height, b);
    }
  }

  ghost const NO_NODES := Shape(map[], map[], map[], map[], {})

  type GoodShape = s: Shape | s.Good() ghost witness NO_NODES

  class UnionFind {
    var parent: map<Node, Node>
    var size: map<Node, nat>
    ghost var shape: GoodShape

    ghost predicate Valid()
      reads this
    {
      parent == shape.parent && size == shape.size
    }

    constructor ()
      ensures Valid() && shape == NO_NODES
    {
      parent, size := map[], map[];
      shape := NO_NODES;
    }

    method Add(node: Node)
      requires Valid()
      modifies this
      ensures Valid() && shape == old(shape).Adding(node) && node in parent
    {
      shape.AddingKeeps(node);
      shape := shape.Adding(node);
      if node !in parent {
        parent := parent[node := node];
        size := size[node := 1];
      }
    }

    /** Path compression moves pointers and nothing else. */
    method Find(node: Node) returns (root: Node)
      requires Valid()
      modifies this
      ensures Valid() && node in shape.rep && root == shape.rep[node]
      ensures shape == old(shape).Adding(node).(parent := parent)
      ensures node in parent && parent[node] == root
    {
      Add(node);
      root := node;
      while parent[root] != root
        invariant root in parent && root in shape.rep && shape.rep[root] == shape.rep[node]
        decreases shape.height[root]
      {
        assert Placed(parent, shape.rep, shape.height, root);
        root := parent[root];
      }
      assert Placed(parent, shape.rep, shape.height, root) && Placed(parent, shape.rep, shape.height, node);
      ghost var before := shape;
      var cursor := node;
      while parent[cursor] != root
        invariant Valid() && shape == before.(parent := parent)
        invariant cursor in parent && root in parent && shape.rep[cursor] == root && parent[root] == root
        invariant cursor == node || (node in parent && parent[node] == root)
        decreases shape.height[cursor]
      {
        assert Placed(parent, shape.rep, shape.height, cursor);
        var next := parent[cursor];
        CompressKeepsForest(parent, shape.rep, shape.height, cursor);
        parent := parent[cursor := root];
        shape := shape.(parent := parent);
        cursor := next;
      }
    }

    /** The root of the smaller class goes below that of the larger one. */
    method Union(a: Node, b: Node) returns (root: Node)
      requires Valid()
      modifies this
      ensures Valid() && shape.links == old(shape).links + {(a, b)}
      ensures shape.rep.Keys == old(shape).rep.Keys + {a, b}
      ensures a in shape.rep && b in shape.rep && root == shape.rep[a] == shape.rep[b]
    {
      var rootA := Find(a);
      var rootB := Find(b);
      assert shape.rep.Keys == old(shape).rep.Keys + {a, b};
      shape.RootsOf(a, b);
      if rootA == rootB {
        Note(a, b);
        root := rootA;
      } else {
        root := Join(rootA, rootB, a, b);
      }
    }

    /** The smaller tree goes under the root of the larger one. */
    method Join(rootA: Node, rootB: Node, ghost a: Node, ghost b: Node) returns (root: Node)
      requires Valid() && Roots(parent, rootA, rootB) && a in shape.rep && b in shape.rep
      requires rootA in size && rootB in size && rootA == shape.rep[a] && rootB == shape.rep[b]
      modifies this
      ensures Valid() && shape.links == old(shape).links + {(a, b)}
      ensures shape.rep.Keys == old(shape).rep.Keys && root == shape.rep[a] == shape.rep[b]
    {
      var big, small := rootA, rootB;
      if size[rootA] < size[rootB] { big, small := rootB, rootA; }
      Link(small, big, a, b);
      root := big;
    }

    ghost method Note(a: Node, b: Node)
      requires Valid() && a in shape.rep && b in shape.rep && shape.rep[a] == shape.rep[b]
      modifies this`shape
      ensures Valid() && shape == old(shape).(links := shape.links) && shape.links == old(shape).links + {(a, b)}
    {
      SameRootLink(shape.links, shape.rep, a, b);
      shape := shape.(links := shape.links + {(a, b)});
    }

    method Link(small: Node, big: Node, ghost a: Node, ghost b: Node)
      requires Valid() && Roots(parent, small, big) && a in shape.rep && b in shape.rep
      requires small in size && big in size && size[small] <= size[big]
      requires (small == shape.rep[a] && big == shape.rep[b]) || (small == shape.rep[b] && big == shape.rep[a])
      modifies this
      ensures Valid() && shape.links == old(shape).links + {(a, b)}
      ensures shape.rep.Keys == old(shape).rep.Keys && shape.rep[a] == shape.rep[b] == big
    {
      shape.LinkingKeeps(small, big, a, b);
      shape := shape.Linking(small, big, a, b);
      parent := parent[small := big];
      size := size[big := size[big] + size[small]];
    }
  }
}
