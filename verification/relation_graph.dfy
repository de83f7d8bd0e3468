/** backend/src/fraud/graph.js: the merged relationship graph and its connected components. */
module RelationGraph {
  import opened TextOrder
  import opened UnionFind

  /** A normalized edge row; an empty address stands for a missing one. */
  datatype Row = Row(from: Node, to: Node, count: int, value: int)

  datatype Edge = Edge(from: Node, to: Node, count: int, value: int)

  /** An edge key: the two ends, the smaller text first. */
  type Key = (Node, Node)

  datatype Component = Component(members: set<Node>, edges: set<Key>, size: nat)

  datatype Graph = Graph(
    nodes: set<Node>,
    edges: map<Key, Edge>,
    adjacency: map<Node, set<Node>>,
    components: seq<Component>,
    componentOf: map<Node, nat>)

  function EdgeKey(a: Node, b: Node): (key: Key)
    ensures key == (a, b) || key == (b, a)
  {
    if TextBefore(a.text, b.text) then (a, b) else (b, a)
  }

  /** Who comes first in a pair does not matter to its key. */
  lemma KeySymmetric(a: Node, b: Node)
    ensures EdgeKey(a, b) == EdgeKey(b, a)
  {
    TextTotal(a.text, b.text);
  }

  /** The end whose text comes first in UTF-16 order is the first of the key. */
  lemma KeyInOrder(a: Node, b: Node)
    ensures var (first, second) := EdgeKey(a, b);
            first.text == second.text || UnitsBefore(Utf16(first.text), Utf16(second.text))
  {
    TextTotal(a.text, b.text);
    TextBeforeExactly(a.text, b.text);
    TextBeforeExactly(b.text, a.text);
  }

  predicate Usable(row: Row) {
    row.from.text != "" && row.to.text != "" && row.from != row.to
  }

  // ----- what the rows say

  function Links(rows: seq<Row>): set<(Node, Node)> {
    set row | row in rows && Usable(row) :: (row.from, row.to)
  }

  /** Rows link their two ends, unless an end is missing or both are the same. */
  lemma LinksExactly(rows: seq<Row>, x: Node, y: Node)
    ensures (x, y) in Links(rows) <==>
              && (exists row :: row in rows && row.from == x && row.to == y)
              && x.text != "" && y.text != "" && x != y
  {
    if row :| row in rows && row.from == x && row.to == y && Usable(row) { assert (row.from, row.to) in Links(rows); }
  }

  function Weight(rows: seq<Row>, key: Key, weight: Row -> int): int {
    if rows == [] then 0 else
      var row := rows[|rows| - 1];
      Weight(rows[..|rows| - 1], key, weight) +
        (if Usable(row) && key == EdgeKey(row.from, row.to) then weight(row) else 0)
  }

  function CountOf(row: Row): int { row.count }

  function ValueOf(row: Row): int { row.value }

  lemma LinksGrow(rows: seq<Row>, row: Row)
    ensures Links(rows + [row]) == if Usable(row) then Links(rows) + {(row.from, row.to)} else Links(rows)
  {
    forall l ensures l in Links(rows + [row]) <==> l in Links(rows) || (Usable(row) && l == (row.from, row.to)) {
      if l in Links(rows) {
        var r :| r in rows && Usable(r) && l == (r.from, r.to);
        assert r in rows + [row];
      }
      if Usable(row) && l == (row.from, row.to) { assert row in rows + [row]; }
    }
  }

  lemma WeightGrows(rows: seq<Row>, row: Row, key: Key, weight: Row -> int)
    ensures Weight(rows + [row], key, weight) ==
              Weight(rows, key, weight) + (if Usable(row) && key == EdgeKey(row.from, row.to) then weight(row) else 0)
  {
    assert (rows + [row])[..|rows|] == rows;
  }

  // ----- ingesting rows

  datatype Partial = Partial(nodes: set<Node>, edges: map<Key, Edge>, adjacency: map<Node, set<Node>>)

  ghost predicate AdjacencyMatches(p: Partial, rows: seq<Row>) {
    forall x, y :: y in Neighbours(p.adjacency, x) <==> Linked(Links(rows), x, y)
  }

  ghost predicate EdgesMatch(p: Partial, rows: seq<Row>) {
    && (forall x, y :: Linked(Links(rows), x, y) ==> EdgeKey(x, y) in p.edges)
    && (forall key :: key in p.edges ==>
          var e := p.edges[key];
          && key == EdgeKey(e.from, e.to) && (e.from, e.to) in Links(rows)
          && e.count == Weight(rows, key, CountOf) && e.value == Weight(rows, key, ValueOf))
  }

  function TouchNode(p: Partial, x: Node): Partial {
    if x in p.adjacency then p else p.(nodes := p.nodes + {x}, adjacency := p.adjacency[x := {}])
  }

  function AddRow(p: Partial, row: Row): Partial {
    var q := TouchNode(TouchNode(p, row.from), row.to);
    var key := EdgeKey(row.from, row.to);
    if key in q.edges then
      var e := q.edges[key];
      q.(edges := q.edges[key := e.(count := e.count + row.count, value := e.value + row.value)])
    else
      q.(edges := q.edges[key := Edge(row.from, row.to, row.count, row.value)],
         adjacency :=
           q.adjacency[row.from := q.adjacency[row.from] + {row.to}][row.to := q.adjacency[row.to] + {row.from}])
  }

  lemma {:induction false} UnusedKeyHasNoWeight(rows: seq<Row>, key: Key, weight: Row -> int)
    requires forall row :: row in rows && Usable(row) ==> key != EdgeKey(row.from, row.to)
    ensures Weight(rows, key, weight) == 0
  {
    if rows != [] {
      assert rows[|rows| - 1] in rows;
      UnusedKeyHasNoWeight(rows[..|rows| - 1], key, weight);
    }
  }

  /** An edge is on record exactly when some row linked its ends. */
  lemma KeyMeansLinked(p: Partial, rows: seq<Row>, x: Node, y: Node)
    requires EdgesMatch(p, rows)
    ensures EdgeKey(x, y) in p.edges <==> Linked(Links(rows), x, y)
  {
    if EdgeKey(x, y) in p.edges {
      var e := p.edges[EdgeKey(x, y)];
    }
  }

  lemma AddRowKeys(p: Partial, row: Row)
    requires p.nodes == p.adjacency.Keys
    ensures AddRow(p, row).nodes == AddRow(p, row).adjacency.Keys == p.adjacency.Keys + {row.from, row.to}
  {
    var q := TouchNode(p, row.from);
    assert q.nodes == q.adjacency.Keys == p.adjacency.Keys + {row.from};
    var r := TouchNode(q, row.to);
    assert r.nodes == r.adjacency.Keys == q.adjacency.Keys + {row.to};
    assert AddRow(p, row).adjacency.Keys == r.adjacency.Keys;
  }

  function Neighbours(adjacency: map<Node, set<Node>>, x: Node): set<Node> {
    if x in adjacency then adjacency[x] else {}
  }

  lemma TouchNeighbours(p: Partial, a: Node, x: Node)
    ensures Neighbours(TouchNode(p, a).adjacency, x) == Neighbours(p.adjacency, x)
  {
  }

  lemma AddRowNeighbours(p: Partial, rows: seq<Row>, row: Row, x: Node)
    requires AdjacencyMatches(p, rows) && EdgesMatch(p, rows) && Usable(row)
    ensures Neighbours(AddRow(p, row).adjacency, x) ==
            Neighbours(p.adjacency, x) + (if x == row.from then {row.to} else {}) +
              (if x == row.to then {row.from} else {})
  {
    TouchNeighbours(p, row.from, x);
    TouchNeighbours(TouchNode(p, row.from), row.to, x);
    KeyMeansLinked(p, rows, row.from, row.to);
    if EdgeKey(row.from, row.to) in p.edges {
      assert row.to in Neighbours(p.adjacency, row.from) && row.from in Neighbours(p.adjacency, row.to);
    }
  }

  lemma AddRowKeepsAdjacency(p: Partial, rows: seq<Row>, row: Row)
    requires AdjacencyMatches(p, rows) && EdgesMatch(p, rows) && Usable(row)
    ensures AdjacencyMatches(AddRow(p, row), rows + [row])
  {
    LinksGrow(rows, row);
    forall x, y ensures y in Neighbours(AddRow(p, row).adjacency, x) <==> Linked(Links(rows + [row]), x, y) {
      AddRowNeighbours(p, rows, row, x);
    }
  }

  lemma AddRowKeepsEdges(p: Partial, rows: seq<Row>, row: Row)
    requires EdgesMatch(p, rows) && Usable(row)
    ensures EdgesMatch(AddRow(p, row), rows + [row])
  {
    var q, rows', mine := AddRow(p, row), rows + [row], EdgeKey(row.from, row.to);
    LinksGrow(rows, row);
    forall x, y | Linked(Links(rows'), x, y) ensures EdgeKey(x, y) in q.edges {
      if !Linked(Links(rows), x, y) { KeySymmetric(x, y); }
    }
    forall key | key in q.edges
      ensures var e := q.edges[key];
              && key == EdgeKey(e.from, e.to) && (e.from, e.to) in Links(rows')
              && e.count == Weight(rows', key, CountOf) && e.value == Weight(rows', key, ValueOf)
    {
      WeightGrows(rows, row, key, CountOf);
      WeightGrows(rows, row, key, ValueOf);
      if key == mine && mine !in p.edges {
        forall r | r in rows && Usable(r) ensures mine != EdgeKey(r.from, r.to) {
          assert (r.from, r.to) in Links(rows);
        }
        UnusedKeyHasNoWeight(rows, mine, CountOf);
        UnusedKeyHasNoWeight(rows, mine, ValueOf);
      }
    }
  }

  lemma SkipRowKeepsEdges(p: Partial, rows: seq<Row>, row: Row)
    requires EdgesMatch(p, rows) && !Usable(row)
    ensures EdgesMatch(p, rows + [row])
  {
    LinksGrow(rows, row);
    forall key | key in p.edges
      ensures Weight(rows + [row], key, CountOf) == Weight(rows, key, CountOf) &&
                Weight(rows + [row], key, ValueOf) == Weight(rows, key, ValueOf)
    {
      WeightGrows(rows, row, key, CountOf);
      WeightGrows(rows, row, key, ValueOf);
    }
  }

  ghost predicate HasNeighbour(p: Partial, x: Node) {
    Neighbours(p.adjacency, x) != {}
  }

  /** The tables hold what the rows say, and the forest has made exactly their unions. */
  ghost predicate Current(p: Partial, rows: seq<Row>, shape: Shape) {
    && p.nodes == p.adjacency.Keys && AdjacencyMatches(p, rows) && EdgesMatch(p, rows)
    && shape.links == Links(rows) && shape.rep.Keys == p.adjacency.Keys
    && (forall x {:trigger HasNeighbour(p, x)} :: x in p.nodes ==> HasNeighbour(p, x))
  }

  lemma AddRowStaysCurrent(p: Partial, rows: seq<Row>, row: Row, shape: Shape, after: Shape)
    requires Current(p, rows, shape) && Usable(row)
    requires after.links == shape.links + {(row.from, row.to)} && after.rep.Keys == shape.rep.Keys + {row.from, row.to}
    ensures Current(AddRow(p, row), rows + [row], after)
  {
    AddRowKeys(p, row);
    AddRowKeepsAdjacency(p, rows, row);
    AddRowKeepsEdges(p, rows, row);
    LinksGrow(rows, row);
    forall x | x in AddRow(p, row).nodes ensures HasNeighbour(AddRow(p, row), x) {
      AddRowNeighbours(p, rows, row, x);
      assert x in p.nodes ==> HasNeighbour(p, x);
    }
  }

  lemma SkipRowStaysCurrent(p: Partial, rows: seq<Row>, row: Row, shape: Shape)
    requires Current(p, rows, shape) && !Usable(row)
    ensures Current(p, rows + [row], shape)
  {
    SkipRowKeepsEdges(p, rows, row);
    LinksGrow(rows, row);
  }

  method IngestRow(row: Row, p: Partial, uf: UnionFind, ghost seen: seq<Row>) returns (q: Partial)
    requires uf.Valid() && Current(p, seen, uf.shape)
    modifies uf
    ensures uf.Valid() && Current(q, seen + [row], uf.shape)
  {
    // Rows from an account to itself are not usable.
    if !Usable(row) {
      SkipRowStaysCurrent(p, seen, row, uf.shape);
      return p;
    }
    ghost var shape := uf.shape;
    var root := uf.Union(row.from, row.to);
    AddRowStaysCurrent(p, seen, row, shape, uf.shape);
    q := AddRow(p, row);
  }

  method Ingest(rows: seq<Row>, p: Partial, uf: UnionFind, ghost before: seq<Row>) returns (q: Partial)
    requires uf.Valid() && Current(p, before, uf.shape)
    modifies uf
    ensures uf.Valid() && Current(q, before + rows, uf.shape)
  {
    q := p;
    ghost var seen := before;
    for i := 0 to |rows|
      invariant seen == before + rows[..i]
      invariant uf.Valid() && Current(q, seen, uf.shape)
    {
      q := IngestRow(rows[i], q, uf, seen);
      seen := seen + [rows[i]];
    }
    assert seen == before + rows;
  }

  // ----- grouping by root

  ghost predicate Inhabited(groups: map<Node, Component>, r: Node) {
    r in groups && groups[r].members != {}
  }

  ghost predicate Grouped(groups: map<Node, Component>, order: seq<Node>, done: set<Node>, rep: map<Node, Node>)
    requires done <= rep.Keys
  {
    && (forall i, j :: 0 <= i < j < |order| ==> order[i] != order[j])
    && (forall r :: r in order <==> r in groups)
    && (forall x :: x in done ==> rep[x] in groups)
    && (forall r {:trigger Inhabited(groups, r)} :: r in groups ==> Inhabited(groups, r))
    && (forall r :: r in groups ==> groups[r].members == set x | x in done && rep[x] == r)
  }

  function Joining(groups: map<Node, Component>, root: Node, x: Node): map<Node, Component> {
    var begun := if root in groups then groups else groups[root := Component({}, {}, 0)];
    begun[root := begun[root].(members := begun[root].members + {x})]
  }

  lemma OneMoreMember(groups: map<Node, Component>, order: seq<Node>, done: set<Node>, rep: map<Node, Node>, x: Node)
    requires done <= rep.Keys && Grouped(groups, order, done, rep) && x in rep && x !in done
    ensures Grouped(Joining(groups, rep[x], x), if rep[x] in groups then order else order + [rep[x]], done + {x}, rep)
  {
    var after := Joining(groups, rep[x], x);
    forall r | r in after ensures Inhabited(after, r) {
      if r != rep[x] { assert Inhabited(groups, r); }
    }
  }

  method GroupMembers(nodes: set<Node>, uf: UnionFind) returns (groups: map<Node, Component>, order: seq<Node>)
    requires uf.Valid() && nodes == uf.shape.rep.Keys
    modifies uf
    ensures uf.Valid() && uf.shape == old(uf.shape).(parent := uf.parent)
    ensures Grouped(groups, order, nodes, uf.shape.rep)
    ensures forall r :: r in groups ==> groups[r].edges == {}
  {
    groups, order := map[], [];
    var todo, done := nodes, {};
    while todo != {}
      invariant todo + done == nodes && todo !! done
      invariant uf.Valid() && uf.shape == old(uf.shape).(parent := uf.parent)
      invariant Grouped(groups, order, done, uf.shape.rep)
      invariant forall r :: r in groups ==> groups[r].edges == {}
      decreases todo
    {
      var x :| x in todo;
      var root := uf.Find(x);
      OneMoreMember(groups, order, done, uf.shape.rep, x);
      if root !in groups {
        groups := groups[root := Component({}, {}, 0)];
        order := order + [root];
      }
      groups := groups[root := groups[root].(members := groups[root].members + {x})];
      todo, done := todo - {x}, done + {x};
    }
  }

  /** Every group also holds exactly the edges that start in it. */
  ghost predicate Collected(groups: map<Node, Component>, order: seq<Node>, p: Partial, rep: map<Node, Node>) {
    && p.nodes == rep.Keys && Grouped(groups, order, p.nodes, rep)
    && EdgesGrouped(groups, p.edges.Keys, p, rep)
  }

  ghost predicate EdgesGrouped(groups: map<Node, Component>, done: set<Key>, p: Partial, rep: map<Node, Node>) {
    forall r, key :: r in groups ==> (key in groups[r].edges <==> key in done && Starts(p, rep, key, r))
  }

  ghost predicate Starts(p: Partial, rep: map<Node, Node>, key: Key, r: Node) {
    key in p.edges && p.edges[key].from in rep && rep[p.edges[key].from] == r
  }

  /** The components in the order their first member was met. */
  ghost predicate Numbered(
    components: seq<Component>, componentOf: map<Node, nat>, groups: map<Node, Component>, order: seq<Node>)
  {
    && |components| == |order|
    && (forall i ::
         0 <= i < |order| ==>
         order[i] in groups && components[i] == groups[order[i]].(size := |groups[order[i]].members|))
    && (forall i, x :: 0 <= i < |order| && x in components[i].members ==> x in componentOf && componentOf[x] == i)
    && (forall x :: x in componentOf ==> componentOf[x] < |order| && x in components[componentOf[x]].members)
  }

  /** Adds one edge to the group of its first end. */
  method CollectEdge(p: Partial, before: map<Node, Component>, key: Key, uf: UnionFind, ghost done: set<Key>)
    returns (groups: map<Node, Component>)
    requires uf.Valid() && key in p.edges && p.edges[key].from in uf.shape.rep
    requires uf.shape.rep[p.edges[key].from] in before && EdgesGrouped(before, done, p, uf.shape.rep)
    modifies uf
    ensures uf.Valid() && uf.shape == old(uf.shape).(parent := uf.parent)
    ensures groups.Keys == before.Keys && forall r :: r in groups ==> groups[r].members == before[r].members
    ensures EdgesGrouped(groups, done + {key}, p, uf.shape.rep)
  {
    ghost var rep := uf.shape.rep;
    var root := uf.Find(p.edges[key].from);
    OneMoreEdge(before, done, p, rep, key, root);
    groups := before[root := before[root].(edges := before[root].edges + {key})];
  }

  method GroupEdges(p: Partial, members: map<Node, Component>, order: seq<Node>, uf: UnionFind)
    returns (groups: map<Node, Component>)
    requires uf.Valid() && p.nodes == uf.shape.rep.Keys
    requires Grouped(members, order, p.nodes, uf.shape.rep)
    requires forall key :: key in p.edges ==> p.edges[key].from in p.nodes
    requires forall r :: r in members ==> members[r].edges == {}
    modifies uf
    ensures uf.Valid() && uf.shape == old(uf.shape).(parent := uf.parent)
    ensures Collected(groups, order, p, uf.shape.rep)
  {
    groups := members;
    ghost var rep := uf.shape.rep;
    var todo, done := p.edges.Keys, {};
    while todo != {}
      invariant todo + done == p.edges.Keys && todo !! done
      invariant uf.Valid() && uf.shape == old(uf.shape).(parent := uf.parent)
      invariant groups.Keys == members.Keys
      invariant forall r :: r in groups ==> groups[r].members == members[r].members
      invariant EdgesGrouped(groups, done, p, rep)
      decreases todo
    {
      var key :| key in todo;
      groups := CollectEdge(p, groups, key, uf, done);
      todo, done := todo - {key}, done + {key};
    }
    assert done == p.edges.Keys;
    SameMembersGrouped(members, groups, order, p.nodes, rep);
  }

  lemma OneMoreEdge(
    groups: map<Node, Component>, done: set<Key>, p: Partial, rep: map<Node, Node>, key: Key, root: Node)
    requires EdgesGrouped(groups, done, p, rep) && root in groups
    requires key in p.edges && p.edges[key].from in rep && root == rep[p.edges[key].from]
    ensures EdgesGrouped(groups[root := groups[root].(edges := groups[root].edges + {key})], done + {key}, p, rep)
  {
  }

  lemma SameMembersGrouped(
    before: map<Node, Component>, after: map<Node, Component>, order: seq<Node>, done: set<Node>,
    rep: map<Node, Node>)
    requires done <= rep.Keys && Grouped(before, order, done, rep)
    requires after.Keys == before.Keys && forall r :: r in after ==> after[r].members == before[r].members
    ensures Grouped(after, order, done, rep)
  {
    forall r | r in after ensures Inhabited(after, r) {
      assert Inhabited(before, r);
    }
  }

  method Number(groups: map<Node, Component>, order: seq<Node>)
    returns (components: seq<Component>, componentOf: map<Node, nat>)
    requires forall i :: 0 <= i < |order| ==> order[i] in groups
    requires forall i, j :: 0 <= i < j < |order| ==> groups[order[i]].members !! groups[order[j]].members
    ensures Numbered(components, componentOf, groups, order)
  {
    components, componentOf := [], map[];
    for i := 0 to |order|
      invariant |components| == i
      invariant forall j :: 0 <= j < i ==> components[j] == groups[order[j]].(size := |groups[order[j]].members|)
      invariant forall j, x :: 0 <= j < i && x in components[j].members ==> x in componentOf && componentOf[x] == j
      invariant forall x :: x in componentOf ==> componentOf[x] < i && x in components[componentOf[x]].members
    {
      var group := groups[order[i]];
      components := components + [group.(size := |group.members|)];
      componentOf := componentOf + map x | x in group.members :: i;
    }
  }

  /** Groups by root are disjoint and cover everything grouped. */
  lemma GroupsPartition(groups: map<Node, Component>, order: seq<Node>, done: set<Node>, rep: map<Node, Node>)
    requires done <= rep.Keys && Grouped(groups, order, done, rep)
    ensures forall i :: 0 <= i < |order| ==> order[i] in groups
    ensures forall i, j :: 0 <= i < j < |order| ==> groups[order[i]].members !! groups[order[j]].members
    ensures forall x :: x in done ==> exists i :: 0 <= i < |order| && x in groups[order[i]].members
  {
    forall x | x in done ensures exists i :: 0 <= i < |order| && x in groups[order[i]].members {
      var i :| 0 <= i < |order| && order[i] == rep[x];
      assert x in groups[order[i]].members;
    }
  }

  // ----- the result

  /** Two nodes are in one component exactly when the rows connect them. */
  ghost predicate ComponentsAreConnectedness(g: Graph, links: set<(Node, Node)>) {
    && g.componentOf.Keys == g.nodes
    && (forall x, y {:trigger g.componentOf[x], g.componentOf[y]} :: x in g.nodes && y in g.nodes ==>
          (g.componentOf[x] == g.componentOf[y] <==> Connected(links, x, y)))
  }

  ghost predicate ComponentsAreComplete(g: Graph) {
    && g.componentOf.Keys == g.nodes
    && (forall x :: x in g.nodes ==> g.componentOf[x] < |g.components|)
    && (forall i {:trigger ComponentIsComplete(g, i)} :: 0 <= i < |g.components| ==> ComponentIsComplete(g, i))
  }

  /** Component `i` is inhabited, and holds all its nodes and all edges between them. */
  ghost predicate ComponentIsComplete(g: Graph, i: nat)
    requires i < |g.components| && g.componentOf.Keys == g.nodes
  {
    var c := g.components[i];
    && c.members != {} && c.members == (set x | x in g.nodes && g.componentOf[x] == i) && c.size == |c.members|
    && c.edges == set key | key in g.edges && key.0 in c.members && key.1 in c.members
  }

  lemma EdgeWithinItsComponent(p: Partial, rows: seq<Row>, shape: Shape, key: Key)
    requires shape.Good() && Current(p, rows, shape) && key in p.edges
    ensures p.edges[key].from in shape.rep && key.0 in shape.rep && key.1 in shape.rep
    ensures shape.rep[key.0] == shape.rep[key.1] == shape.rep[p.edges[key].from]
  {
    var e := p.edges[key];
    assert (e.from, e.to) in shape.links;
  }

  method IngestAll(streams: seq<Row>, licenses: seq<Row>, usage: seq<Row>) returns (p: Partial, uf: UnionFind)
    ensures fresh(uf) && uf.Valid() && Current(p, streams + licenses + usage, uf.shape)
  {
    uf := new UnionFind();
    p := Partial({}, map[], map[]);
    assert Links([]) == {};
    p := Ingest(streams, p, uf, []);
    p := Ingest(licenses, p, uf, [] + streams);
    p := Ingest(usage, p, uf, [] + streams + licenses);
    assert [] + streams + licenses + usage == streams + licenses + usage;
  }

  method Collect(p: Partial, uf: UnionFind, ghost rows: seq<Row>)
    returns (groups: map<Node, Component>, order: seq<Node>)
    requires uf.Valid() && Current(p, rows, uf.shape)
    modifies uf
    ensures Collected(groups, order, p, old(uf.shape).rep)
  {
    forall key | key in p.edges ensures p.edges[key].from in p.nodes {
      EdgeWithinItsComponent(p, rows, uf.shape, key);
    }
    groups, order := GroupMembers(p.nodes, uf);
    groups := GroupEdges(p, groups, order, uf);
  }

  method BuildGraph(streams: seq<Row>, licenses: seq<Row>, usage: seq<Row>) returns (g: Graph)
    ensures NodesAreEnds(g, streams + licenses + usage)
    ensures g.adjacency.Keys == g.nodes
    ensures AdjacencyMatches(Tables(g), streams + licenses + usage)
    ensures EdgesMatch(Tables(g), streams + licenses + usage)
    ensures ComponentsAreConnectedness(g, Links(streams + licenses + usage))
    ensures ComponentsAreComplete(g)
  {
    ghost var rows := streams + licenses + usage;
    var p, uf := IngestAll(streams, licenses, usage);
    ghost var shape := uf.shape;
    var groups, order := Collect(p, uf, rows);
    GroupsPartition(groups, order, p.nodes, shape.rep);
    var components, componentOf := Number(groups, order);
    g := Graph(p.nodes, p.edges, p.adjacency, components, componentOf);
    assert Tables(g) == p;
    GraphIsRight(g, rows, shape, groups, order);
  }

  function Tables(g: Graph): Partial {
    Partial(g.nodes, g.edges, g.adjacency)
  }

  /** The nodes are exactly the ends of usable rows. */
  ghost predicate NodesAreEnds(g: Graph, rows: seq<Row>) {
    forall x :: x in g.nodes <==> exists y :: Linked(Links(rows), x, y)
  }

  lemma NoOtherNodes(g: Graph, rows: seq<Row>, shape: Shape)
    requires Current(Tables(g), rows, shape)
    ensures NodesAreEnds(g, rows)
  {
    var p := Tables(g);
    forall x ensures x in p.nodes <==> exists y :: Linked(Links(rows), x, y) {
      if x in p.nodes {
        assert HasNeighbour(p, x);
        var y :| y in Neighbours(p.adjacency, x);
        assert Linked(Links(rows), x, y);
      }
      if y :| Linked(Links(rows), x, y) {
        assert y in Neighbours(p.adjacency, x);
      }
    }
  }

  ghost predicate NumbersAreRoots(g: Graph, order: seq<Node>, rep: map<Node, Node>) {
    && g.componentOf.Keys == g.nodes == rep.Keys && |order| == |g.components|
    && (forall x :: x in g.nodes ==> g.componentOf[x] < |order| && order[g.componentOf[x]] == rep[x])
    && (forall i, j :: 0 <= i < j < |order| ==> order[i] != order[j])
  }

  lemma NumberIsRoot(
    x: Node, components: seq<Component>, componentOf: map<Node, nat>, nodes: set<Node>, order: seq<Node>,
                     rep: map<Node, Node>, groups: map<Node, Component>)
    requires nodes <= rep.Keys && Grouped(groups, order, nodes, rep) && Numbered(components, componentOf, groups, order)
    ensures x in componentOf <==> x in nodes
    ensures x in nodes ==> componentOf[x] < |order| && order[componentOf[x]] == rep[x]
  {
    if x in nodes {
      var i :| 0 <= i < |order| && order[i] == rep[x];
      assert x in groups[order[i]].members;
      assert x in components[i].members;
    }
    if x in componentOf {
      assert x in groups[order[componentOf[x]]].members;
    }
  }

  lemma NumbersFollowRoots(g: Graph, order: seq<Node>, rep: map<Node, Node>, groups: map<Node, Component>)
    requires g.nodes == rep.Keys && Grouped(groups, order, g.nodes, rep) &&
               Numbered(g.components, g.componentOf, groups, order)
    ensures NumbersAreRoots(g, order, rep)
  {
    forall x ensures x in g.componentOf <==> x in g.nodes {
      NumberIsRoot(x, g.components, g.componentOf, g.nodes, order, rep, groups);
    }
    forall x | x in g.nodes ensures g.componentOf[x] < |order| && order[g.componentOf[x]] == rep[x] {
      NumberIsRoot(x, g.components, g.componentOf, g.nodes, order, rep, groups);
    }
  }

  lemma NumbersAreConnectedness(g: Graph, order: seq<Node>, shape: Shape)
    requires shape.Good() && NumbersAreRoots(g, order, shape.rep)
    ensures ComponentsAreConnectedness(g, shape.links)
  {
    forall x, y | x in g.nodes && y in g.nodes
      ensures g.componentOf[x] == g.componentOf[y] <==> Connected(shape.links, x, y)
    {
      SameRootExactlyWhenConnected(shape.links, shape.rep, x, y);
      assert g.componentOf[x] == g.componentOf[y] <==> shape.rep[x] == shape.rep[y];
    }
  }

  lemma MembersOfNumber(g: Graph, order: seq<Node>, rep: map<Node, Node>, i: nat, x: Node)
    requires NumbersAreRoots(g, order, rep) && i < |order| && x in g.nodes
    ensures g.componentOf[x] == i <==> rep[x] == order[i]
  {
  }

  lemma MembersOfNumbers(g: Graph, order: seq<Node>, rep: map<Node, Node>, groups: map<Node, Component>, i: nat)
    requires NumbersAreRoots(g, order, rep) && Grouped(groups, order, g.nodes, rep) && i < |order|
    ensures order[i] in groups && groups[order[i]].members != {}
    ensures groups[order[i]].members == set x | x in g.nodes && g.componentOf[x] == i
  {
    assert Inhabited(groups, order[i]);
    forall x | x in g.nodes ensures g.componentOf[x] == i <==> rep[x] == order[i] {
      MembersOfNumber(g, order, rep, i, x);
    }
  }

  lemma GroupIsComplete(g: Graph, order: seq<Node>, rows: seq<Row>, shape: Shape, groups: map<Node, Component>, i: nat)
    requires shape.Good() && Current(Tables(g), rows, shape) && i < |order|
    requires NumbersAreRoots(g, order, shape.rep) && Collected(groups, order, Tables(g), shape.rep)
    requires order[i] in groups && g.components[i] == groups[order[i]].(size := |groups[order[i]].members|)
    ensures ComponentIsComplete(g, i)
  {
    MembersOfNumbers(g, order, shape.rep, groups, i);
    EdgesOfGroup(Tables(g), rows, shape, groups, order, order[i]);
  }

  lemma EdgesOfGroup(p: Partial, rows: seq<Row>, shape: Shape, groups: map<Node, Component>, order: seq<Node>, r: Node)
    requires shape.Good() && Current(p, rows, shape) && Collected(groups, order, p, shape.rep) && r in groups
    ensures groups[r].edges == set key | key in p.edges && key.0 in groups[r].members && key.1 in groups[r].members
  {
    forall key | key in p.edges
      ensures key in groups[r].edges <==> key.0 in groups[r].members && key.1 in groups[r].members
    {
      EdgeWithinItsComponent(p, rows, shape, key);
      assert key in groups[r].edges <==> Starts(p, shape.rep, key, r);
    }
  }

  lemma GraphIsRight(g: Graph, rows: seq<Row>, shape: Shape, groups: map<Node, Component>, order: seq<Node>)
    requires shape.Good() && Current(Tables(g), rows, shape)
    requires Collected(groups, order, Tables(g), shape.rep) && Numbered(g.components, g.componentOf, groups, order)
    ensures NodesAreEnds(g, rows) && ComponentsAreConnectedness(g, Links(rows)) && ComponentsAreComplete(g)
  {
    NoOtherNodes(g, rows, shape);
    NumbersFollowRoots(g, order, shape.rep, groups);
    NumbersAreConnectedness(g, order, shape);
    forall i: nat | i < |g.components| ensures ComponentIsComplete(g, i) {
      GroupIsComplete(g, order, rows, shape, groups, i);
    }
  }

  /** The partition depends on the links alone: not on the order of the rows, nor on which source a row came from. */
  lemma PartitionIgnoresRowOrder(g: Graph, h: Graph, rows: seq<Row>, others: seq<Row>)
    requires ComponentsAreConnectedness(g, Links(rows)) && ComponentsAreComplete(g)
    requires ComponentsAreConnectedness(h, Links(others)) && ComponentsAreComplete(h)
    requires NodesAreEnds(g, rows) && NodesAreEnds(h, others)
    requires forall x, y :: Linked(Links(rows), x, y) <==> Linked(Links(others), x, y)
    ensures g.nodes == h.nodes
    ensures (set i | 0 <= i < |g.components| :: g.components[i].members) ==
              (set i | 0 <= i < |h.components| :: h.components[i].members)
  {
    assert g.nodes == h.nodes;
    forall i | 0 <= i < |g.components|
      ensures exists j :: 0 <= j < |h.components| && h.components[j].members == g.components[i].members
    {
      SameComponentInBoth(g, h, rows, others, i);
    }
    forall i | 0 <= i < |h.components|
      ensures exists j :: 0 <= j < |g.components| && g.components[j].members == h.components[i].members
    {
      SameComponentInBoth(h, g, others, rows, i);
    }
  }

  lemma SameComponentInBoth(g: Graph, h: Graph, rows: seq<Row>, others: seq<Row>, i: nat)
    requires ComponentsAreConnectedness(g, Links(rows)) && ComponentsAreComplete(g)
    requires ComponentsAreConnectedness(h, Links(others)) && ComponentsAreComplete(h)
    requires g.nodes == h.nodes && i < |g.components|
    requires forall x, y :: Linked(Links(rows), x, y) <==> Linked(Links(others), x, y)
    ensures exists j :: 0 <= j < |h.components| && h.components[j].members == g.components[i].members
  {
    assert ComponentIsComplete(g, i);
    var x :| x in g.components[i].members;
    var j := h.componentOf[x];
    assert ComponentIsComplete(h, j);
    forall y | y in g.nodes ensures y in h.components[j].members <==> y in g.components[i].members {
      SameLinksConnect(Links(rows), Links(others), x, y);
      SameLinksConnect(Links(others), Links(rows), x, y);
      assert g.componentOf[x] == i;
      assert g.componentOf[y] == g.componentOf[x] <==> h.componentOf[y] == h.componentOf[x];
    }
  }

  lemma SameLinksConnect(links: set<(Node, Node)>, others: set<(Node, Node)>, x: Node, y: Node)
    requires forall a, b :: Linked(links, a, b) <==> Linked(others, a, b)
    ensures Connected(links, x, y) ==> Connected(others, x, y)
  {
    if Connected(links, x, y) {
      var p :| Joins(links, p, x, y);
      assert Joins(others, p, x, y);
    }
  }
}
