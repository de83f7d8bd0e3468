/** backend/src/fraud/WashUsageDetector.js: which callers are tied to an asset's owner by more than the purchase. */
module WashUsage {
  import opened Outcomes
  import opened UnionFind
  import opened RelationGraph

  type Adjacency = map<Node, set<Node>>

  // ----- walks that avoid the direct edge

  /** One step of a walk in the graph without the edge between `origin` and `target`. */
  predicate Hop(adjacency: Adjacency, origin: Node, target: Node, a: Node, b: Node) {
    b in Neighbours(adjacency, a) && !(a == origin && b == target) && !(a == target && b == origin)
  }

  ghost predicate Walk(adjacency: Adjacency, origin: Node, target: Node, p: seq<Node>) {
    p != [] && forall i :: 0 <= i < |p| - 1 ==> Hop(adjacency, origin, target, p[i], p[i + 1])
  }

  /** A walk of at least one and at most `hops` steps that joins the two without their own edge. */
  ghost predicate Detour(adjacency: Adjacency, origin: Node, target: Node, hops: int, p: seq<Node>) {
    Walk(adjacency, origin, target, p) && p[0] == origin && p[|p| - 1] == target && 2 <= |p| <= hops + 1
  }

  /** The nodes within `k` steps of the origin. */
  ghost function Ball(adjacency: Adjacency, origin: Node, target: Node, k: nat): iset<Node> {
    if k == 0 then iset{origin}
    else Ball(adjacency, origin, target, k - 1) +
         iset a, b | a in Ball(adjacency, origin, target, k - 1) && Hop(adjacency, origin, target, a, b) :: b
  }

  lemma {:induction false} BallGrows(adjacency: Adjacency, origin: Node, target: Node, j: nat, k: nat)
    requires j <= k
    ensures Ball(adjacency, origin, target, j) <= Ball(adjacency, origin, target, k)
  {
    if j < k { BallGrows(adjacency, origin, target, j, k - 1); }
  }

  lemma {:induction false} BallHasWalk(adjacency: Adjacency, origin: Node, target: Node, k: nat, x: Node)
    returns (p: seq<Node>)
    requires x in Ball(adjacency, origin, target, k)
    ensures Walk(adjacency, origin, target, p) && p[0] == origin && p[|p| - 1] == x && |p| <= k + 1
  {
    if k == 0 {
      p := [origin];
    } else if x in Ball(adjacency, origin, target, k - 1) {
      p := BallHasWalk(adjacency, origin, target, k - 1, x);
    } else {
      var a :| a in Ball(adjacency, origin, target, k - 1) && Hop(adjacency, origin, target, a, x);
      var q := BallHasWalk(adjacency, origin, target, k - 1, a);
      p := q + [x];
    }
  }

  lemma {:induction false} WalkStaysInBall(adjacency: Adjacency, origin: Node, target: Node, p: seq<Node>)
    requires Walk(adjacency, origin, target, p) && p[0] == origin
    ensures p[|p| - 1] in Ball(adjacency, origin, target, |p| - 1)
  {
    if |p| > 1 {
      var q := p[..|p| - 1];
      forall i | 0 <= i < |q| - 1 ensures Hop(adjacency, origin, target, q[i], q[i + 1]) {
        assert Hop(adjacency, origin, target, p[i], p[i + 1]);
      }
      WalkStaysInBall(adjacency, origin, target, q);
      assert Hop(adjacency, origin, target, p[|p| - 2], p[|p| - 2 + 1]);
    }
  }

  /** Some node within `k` steps has a step into the target. */
  ghost predicate Hit(adjacency: Adjacency, origin: Node, target: Node, k: nat) {
    exists a :: a in Ball(adjacency, origin, target, k) && Hop(adjacency, origin, target, a, target)
  }

  lemma HitIsDetour(adjacency: Adjacency, origin: Node, target: Node, hops: nat)
    requires hops >= 1
    ensures Hit(adjacency, origin, target, hops - 1) <==> exists p :: Detour(adjacency, origin, target, hops, p)
  {
    var k := hops - 1;
    if Hit(adjacency, origin, target, k) {
      var a :| a in Ball(adjacency, origin, target, k) && Hop(adjacency, origin, target, a, target);
      var p := BallHasWalk(adjacency, origin, target, k, a);
      assert Detour(adjacency, origin, target, hops, p + [target]);
    }
    if p :| Detour(adjacency, origin, target, hops, p) {
      var q := p[..|p| - 1];
      forall i | 0 <= i < |q| - 1 ensures Hop(adjacency, origin, target, q[i], q[i + 1]) {
        assert Hop(adjacency, origin, target, p[i], p[i + 1]);
      }
      WalkStaysInBall(adjacency, origin, target, q);
      BallGrows(adjacency, origin, target, |q| - 1, k);
      assert Hop(adjacency, origin, target, p[|p| - 2], p[|p| - 2 + 1]);
    }
  }

  // ----- the search

  /** Every step out of `a` stays in `seen` and misses the target. */
  ghost predicate Expanded(adjacency: Adjacency, origin: Node, target: Node, seen: set<Node>, a: Node) {
    forall b :: Hop(adjacency, origin, target, a, b) ==> b in seen && b != target
  }

  ghost predicate Searched(
    adjacency: Adjacency, origin: Node, target: Node, seen: set<Node>, frontier: seq<Node>, depth: nat)
  {
    && (iset x | x in seen) == Ball(adjacency, origin, target, depth)
    && (forall x :: x in frontier ==> x in seen)
    && (target in seen ==> target == origin)
    && (forall a :: a in seen && a !in frontier ==> Expanded(adjacency, origin, target, seen, a))
  }

  /** Part of the frontier has been expanded into `next`. */
  ghost predicate Expanding(
    adjacency: Adjacency, origin: Node, target: Node, seen: set<Node>, frontier: seq<Node>, depth: nat,
                            now: set<Node>, next: seq<Node>) {
    && seen <= now
    && (forall x :: x in now <==> x in seen || x in next)
    && (forall x :: x in next ==> x in Ball(adjacency, origin, target, depth + 1))
    && (target in now ==> target == origin)
  }

  lemma ExpandedMonotone(adjacency: Adjacency, origin: Node, target: Node, seen: set<Node>, now: set<Node>, a: Node)
    requires Expanded(adjacency, origin, target, seen, a) && seen <= now
    ensures Expanded(adjacency, origin, target, now, a)
  {
  }

  lemma LayerComplete(
    adjacency: Adjacency, origin: Node, target: Node, seen: set<Node>, frontier: seq<Node>, depth: nat,
                      now: set<Node>, next: seq<Node>)
    requires Searched(adjacency, origin, target, seen, frontier, depth)
    requires Expanding(adjacency, origin, target, seen, frontier, depth, now, next)
    requires forall x :: x in frontier ==> Expanded(adjacency, origin, target, now, x)
    ensures Searched(adjacency, origin, target, now, next, depth + 1)
    ensures !Hit(adjacency, origin, target, depth)
  {
    forall a | a in seen ensures Expanded(adjacency, origin, target, now, a) {
      if a !in frontier { ExpandedMonotone(adjacency, origin, target, seen, now, a); }
    }
    forall x ensures x in now <==> x in Ball(adjacency, origin, target, depth + 1) {
      assert x in seen <==> x in Ball(adjacency, origin, target, depth);
    }
  }

  /** When no new node turns up, no walk of any length gets through. */
  lemma {:induction false} ClosedSearch(
    adjacency: Adjacency, origin: Node, target: Node, seen: set<Node>, depth: nat, k: nat)
    requires Searched(adjacency, origin, target, seen, [], depth) && depth <= k
    ensures Ball(adjacency, origin, target, k) == Ball(adjacency, origin, target, depth) &&
              !Hit(adjacency, origin, target, k)
  {
    if depth < k { ClosedSearch(adjacency, origin, target, seen, depth, k - 1); }
    forall a | a in Ball(adjacency, origin, target, k) && depth == k
      ensures Expanded(adjacency, origin, target, seen, a)
    {
    }
    forall x | x in Ball(adjacency, origin, target, k)
      ensures x in seen && Expanded(adjacency, origin, target, seen, x)
    {
      assert forall y :: y in seen <==> y in Ball(adjacency, origin, target, depth);
    }
  }

  lemma SearchStarts(adjacency: Adjacency, origin: Node, target: Node)
    ensures Searched(adjacency, origin, target, {origin}, [origin], 0)
  {
  }

  lemma NothingLeft(adjacency: Adjacency, origin: Node, target: Node, seen: set<Node>, depth: nat, hops: nat)
    requires Searched(adjacency, origin, target, seen, [], depth) && depth <= hops && hops >= 1
    ensures !Hit(adjacency, origin, target, hops - 1)
  {
    ClosedSearch(adjacency, origin, target, seen, depth, hops);
    if Hit(adjacency, origin, target, hops - 1) { HitLater(adjacency, origin, target, hops - 1, hops); }
  }

  /** Expands one frontier node; `found` when it steps into the target. */
  method Expand(
    adjacency: Adjacency, origin: Node, target: Node, node: Node, ghost seen: set<Node>, ghost frontier: seq<Node>,
    ghost depth: nat,
                visited: set<Node>, next: seq<Node>) returns (found: bool, now: set<Node>, later: seq<Node>)
    requires Searched(adjacency, origin, target, seen, frontier, depth) && node in seen
    requires Expanding(adjacency, origin, target, seen, frontier, depth, visited, next)
    ensures found ==> Hit(adjacency, origin, target, depth)
    ensures !found ==> Expanding(adjacency, origin, target, seen, frontier, depth, now, later) && visited <= now
    ensures !found ==> Expanded(adjacency, origin, target, now, node)
  {
    now, later := visited, next;
    assert node in Ball(adjacency, origin, target, depth) by { assert node in iset x | x in seen; }
    var todo := Neighbours(adjacency, node);
    while todo != {}
      invariant todo <= Neighbours(adjacency, node) && visited <= now
      invariant Expanding(adjacency, origin, target, seen, frontier, depth, now, later)
      invariant forall b :: Hop(adjacency, origin, target, node, b) && b !in todo ==> b in now && b != target
      decreases todo
    {
      var neighbor :| neighbor in todo;
      todo := todo - {neighbor};
      if node == origin && neighbor == target { continue; }
      assert Hop(adjacency, origin, target, node, neighbor) ||
        (node == target && neighbor == origin && target == origin);
      if neighbor == target {
        return true, now, later;
      }
      if neighbor in now { continue; }
      now, later := now + {neighbor}, later + [neighbor];
    }
    found := false;
  }

  /** Expands the whole frontier. */
  method ExpandAll(
    adjacency: Adjacency, origin: Node, target: Node, seen: set<Node>, frontier: seq<Node>, ghost depth: nat)
    returns (found: bool, visited: set<Node>, next: seq<Node>)
    requires Searched(adjacency, origin, target, seen, frontier, depth)
    ensures found ==> Hit(adjacency, origin, target, depth)
    ensures !found ==>
              Searched(adjacency, origin, target, visited, next, depth + 1) && !Hit(adjacency, origin, target, depth)
  {
    visited, next := seen, [];
    for i := 0 to |frontier|
      invariant Expanding(adjacency, origin, target, seen, frontier, depth, visited, next)
      invariant forall j :: 0 <= j < i ==> Expanded(adjacency, origin, target, visited, frontier[j])
    {
      var hit, now, later := Expand(adjacency, origin, target, frontier[i], seen, frontier, depth, visited, next);
      if hit { return true, now, later; }
      forall j | 0 <= j < i ensures Expanded(adjacency, origin, target, now, frontier[j]) {
        ExpandedMonotone(adjacency, origin, target, visited, now, frontier[j]);
      }
      visited, next := now, later;
    }
    LayerComplete(adjacency, origin, target, seen, frontier, depth, visited, next);
    found := false;
  }

  method ReachableIgnoringDirectEdge(adjacency: Adjacency, origin: Node, target: Node, hops: int) returns (r: bool)
    ensures r <==> exists p :: Detour(adjacency, origin, target, hops, p)
  {
    if hops < 2 || origin !in adjacency {
      NoDetourWithoutSteps(adjacency, origin, target, hops);
      return false;
    }
    HitIsDetour(adjacency, origin, target, hops);
    var visited, frontier := {origin}, [origin];
    SearchStarts(adjacency, origin, target);
    var depth := 0;
    while depth < hops
      invariant 0 <= depth <= hops
      invariant Searched(adjacency, origin, target, visited, frontier, depth)
      invariant depth > 0 ==> !Hit(adjacency, origin, target, depth - 1)
    {
      var found, now, next := ExpandAll(adjacency, origin, target, visited, frontier, depth);
      if found {
        HitLater(adjacency, origin, target, depth, hops - 1);
        return true;
      }
      if next == [] {
        NothingLeft(adjacency, origin, target, now, depth + 1, hops);
        return false;
      }
      visited, frontier, depth := now, next, depth + 1;
    }
    return false;
  }

  lemma HitLater(adjacency: Adjacency, origin: Node, target: Node, j: nat, k: nat)
    requires Hit(adjacency, origin, target, j) && j <= k
    ensures Hit(adjacency, origin, target, k)
  {
    BallGrows(adjacency, origin, target, j, k);
  }

  lemma DetourEnds(adjacency: Adjacency, origin: Node, target: Node, hops: int, p: seq<Node>)
    requires Detour(adjacency, origin, target, hops, p)
    ensures Hop(adjacency, origin, target, origin, p[1]) && Hop(adjacency, origin, target, p[|p| - 2], target)
  {
    assert Hop(adjacency, origin, target, p[0], p[0 + 1]);
    assert Hop(adjacency, origin, target, p[|p| - 2], p[|p| - 2 + 1]);
  }

  lemma NoDetourWithoutSteps(adjacency: Adjacency, origin: Node, target: Node, hops: int)
    requires hops < 2 || origin !in adjacency
    ensures !exists p :: Detour(adjacency, origin, target, hops, p)
  {
    if p :| Detour(adjacency, origin, target, hops, p) { DetourEnds(adjacency, origin, target, hops, p); }
  }

  // ----- classifying a caller

  datatype Verdict = OwnAddress | SharedFunding(source: string) | LinkedElsewhere | Outsider

  method ClassifyCaller(g: Graph, owner: Node, caller: Node, hops: int, fundingByAddress: map<Node, string>)
    returns (v: Verdict)
    ensures v == OwnAddress <==> owner == caller
    ensures v.SharedFunding? <==> owner != caller && SharedSource(fundingByAddress, owner, caller)
    ensures v.SharedFunding? ==> fundingByAddress[caller] == v.source
    ensures v == LinkedElsewhere <==>
              owner != caller && !SharedSource(fundingByAddress, owner, caller) &&
                exists p :: Detour(g.adjacency, owner, caller, hops, p)
  {
    if caller == owner { return OwnAddress; }
    if owner in fundingByAddress {
      var ownerFunding := fundingByAddress[owner];
      if ownerFunding != "" && caller in fundingByAddress && fundingByAddress[caller] == ownerFunding {
        return SharedFunding(ownerFunding);
      }
    }
    var linked := ReachableIgnoringDirectEdge(g.adjacency, owner, caller, hops);
    v := if linked then LinkedElsewhere else Outsider;
  }

  predicate SharedSource(fundingByAddress: map<Node, string>, owner: Node, caller: Node) {
    owner in fundingByAddress && fundingByAddress[owner] != "" && caller in fundingByAddress &&
      fundingByAddress[caller] == fundingByAddress[owner]
  }

  /** A caller whose only relationship is buying from the owner is never linked, whatever the hop limit. */
  lemma MereCustomerIsNotLinked(adjacency: Adjacency, owner: Node, caller: Node, hops: int)
    requires forall a :: caller in Neighbours(adjacency, a) ==> a == owner
    ensures !exists p :: Detour(adjacency, owner, caller, hops, p)
  {
    if p :| Detour(adjacency, owner, caller, hops, p) { DetourEnds(adjacency, owner, caller, hops, p); }
  }

  /** Whoever is linked shares the owner's component, whatever the rows were. */
  lemma LinkedShareComponent(g: Graph, rows: seq<Row>, owner: Node, caller: Node, hops: int, p: seq<Node>)
    requires NodesAreEnds(g, rows) && AdjacencyMatches(Tables(g), rows) && ComponentsAreConnectedness(g, Links(rows))
    requires Detour(g.adjacency, owner, caller, hops, p)
    ensures owner in g.nodes && caller in g.nodes && g.componentOf[owner] == g.componentOf[caller]
  {
    forall i | 0 <= i < |p| - 1 ensures Linked(Links(rows), p[i], p[i + 1]) {
      assert Hop(g.adjacency, owner, caller, p[i], p[i + 1]);
    }
    assert Joins(Links(rows), p, owner, caller);
    assert Linked(Links(rows), p[0], p[0 + 1]);
    assert Linked(Links(rows), p[|p| - 2], p[|p| - 2 + 1]);
    assert Linked(Links(rows), p[|p| - 1], p[|p| - 2]);
    assert g.componentOf[owner] == g.componentOf[caller] <==> Connected(Links(rows), owner, caller);
  }
}
