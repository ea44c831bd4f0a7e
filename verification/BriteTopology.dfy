/**
 Connectivity and classification of a topology: IsConnected and Classify of
 ns-3/BRITE/Topology.cc.
 */
module BriteTopology {
  import opened BriteGraph
  import opened Common

  // ---------- What a classification is ----------

  /** The classified part of a graph: out-degrees and types of the nodes, ends and types of the edges. */
  datatype Net = Net(degrees: seq<int>, nodes: seq<NodeClass>, links: seq<(int, int)>, edges: seq<EdgeClass>)

  predicate Proper(t: Net) {
    && |t.degrees| == |t.nodes| && |t.links| == |t.edges|
    && forall e :: 0 <= e < |t.links| ==> 0 <= t.links[e].0 < |t.nodes| && 0 <= t.links[e].1 < |t.nodes|
  }

  function EndsAt(link: (int, int), i: int): nat {
    (if link.0 == i then 1 else 0) + (if link.1 == i then 1 else 0)
  }

  /** The number of ends of stub edges at node i; a loop has both its ends there. */
  function StubEnds(links: seq<(int, int)>, edges: seq<EdgeClass>, i: int): nat
    requires |links| == |edges|
    decreases |links|
  {
    if links == [] then 0
    else
      var n := |links| - 1;
      StubEnds(links[..n], edges[..n], i) + if edges[n] == EdgeStub then EndsAt(links[n], i) else 0
  }

  predicate TouchesLeaf(nodes: seq<NodeClass>, link: (int, int))
    requires 0 <= link.0 < |nodes| && 0 <= link.1 < |nodes|
  {
    nodes[link.0] == NodeLeaf || nodes[link.1] == NodeLeaf
  }

  /** The incidence lists hold every edge end `rounds` times. */
  function NodeRule(stubEnds: nat, rounds: nat): NodeClass {
    ClassFor(rounds * stubEnds)
  }

  /** The type of a non-leaf node with n stub links in its incidence list. */
  function ClassFor(n: nat): (r: NodeClass)
    ensures r == NodeBackbone <==> n == 0
    ensures r == NodeStub <==> n == 1
    ensures r == NodeBorder <==> n >= 2
  {
    if n == 0 then NodeBackbone else if n == 1 then NodeStub else NodeBorder
  }

  predicate StubMeetsBorder(a: NodeClass, b: NodeClass) {
    (a == NodeStub && b == NodeBorder) || (a == NodeBorder && b == NodeStub)
  }

  predicate SameShape(before: Net, after: Net) {
    Proper(before) && Proper(after)
    && after.degrees == before.degrees && |after.nodes| == |before.nodes| && after.links == before.links
  }

  /** A node is a leaf if its out-degree is at most m, or if it was one. */
  predicate LeavesRight(before: Net, after: Net, m: int)
    requires SameShape(before, after)
  {
    forall i :: 0 <= i < |after.nodes| ==>
      (after.nodes[i] == NodeLeaf <==> before.degrees[i] <= m || before.nodes[i] == NodeLeaf)
  }

  /** An edge is a stub if one of its ends is a leaf, or if it was one. */
  predicate StubsRight(before: Net, after: Net)
    requires SameShape(before, after)
  {
    forall e :: 0 <= e < |after.edges| ==>
      (after.edges[e] == EdgeStub <==> TouchesLeaf(after.nodes, after.links[e]) || before.edges[e] == EdgeStub)
  }

  predicate NodesRight(after: Net, rounds: nat)
    requires Proper(after)
  {
    forall i :: 0 <= i < |after.nodes| && after.nodes[i] != NodeLeaf ==>
      after.nodes[i] == NodeRule(StubEnds(after.links, after.edges, i), rounds)
  }

  function EdgeRule(a: NodeClass, b: NodeClass): EdgeClass {
    if StubMeetsBorder(a, b) then EdgeBorder else EdgeBackbone
  }

  predicate EdgesRight(after: Net)
    requires Proper(after)
  {
    forall e :: 0 <= e < |after.edges| && after.edges[e] != EdgeStub ==>
      after.edges[e] == EdgeRule(after.nodes[after.links[e].0], after.nodes[after.links[e].1])
  }

  predicate IsClassification(before: Net, after: Net, m: int, rounds: nat) {
    && SameShape(before, after)
    && LeavesRight(before, after, m) && StubsRight(before, after)
    && NodesRight(after, rounds) && EdgesRight(after)
  }

  /** A graph whose nodes and edges are still of type NONE. */
  predicate Unclassified(t: Net) {
    && (forall i :: 0 <= i < |t.nodes| ==> t.nodes[i] == NodeNone)
    && (forall e :: 0 <= e < |t.edges| ==> t.edges[e] == EdgeNone)
  }

  // ---------- Conservation ----------

  function NonLeaf(nodes: seq<NodeClass>, i: int): nat {
    if 0 <= i < |nodes| && nodes[i] != NodeLeaf then 1 else 0
  }

  /** The stub ends of the non-leaf nodes below n, added up. */
  function StubEndsOfNonLeaves(t: Net, n: nat): nat
    requires Proper(t)
  {
    if n == 0 then 0
    else StubEndsOfNonLeaves(t, n - 1) + NonLeaf(t.nodes, n - 1) * StubEnds(t.links, t.edges, n - 1)
  }

  function EdgesWithOneLeaf(nodes: seq<NodeClass>, links: seq<(int, int)>): nat
    decreases |links|
  {
    if links == [] then 0
    else
      var n := |links| - 1;
      EdgesWithOneLeaf(nodes, links[..n]) + if NonLeaf(nodes, links[n].0) + NonLeaf(nodes, links[n].1) == 1 then 1 else 0
  }

  function Cut(t: Net, k: nat): Net
    requires Proper(t) && k <= |t.links|
  {
    t.(links := t.links[..k], edges := t.edges[..k])
  }

  /** Adding one edge adds its ends, each once, to the sum over the nodes below n. */
  lemma {:induction false} OneEdgeAdds(t: Net, k: nat, n: nat)
    requires Proper(t) && k < |t.links| && n <= |t.nodes|
    ensures var link := t.links[k];
      StubEndsOfNonLeaves(Cut(t, k + 1), n) == StubEndsOfNonLeaves(Cut(t, k), n)
        + if t.edges[k] == EdgeStub
          then (if link.0 < n then NonLeaf(t.nodes, link.0) else 0) + (if link.1 < n then NonLeaf(t.nodes, link.1) else 0)
          else 0
    decreases n
  {
    if n > 0 {
      OneEdgeAdds(t, k, n - 1);
      assert t.links[..k + 1][..k] == t.links[..k] && t.edges[..k + 1][..k] == t.edges[..k];
    }
  }

  lemma {:induction false} ConservationUpTo(t: Net, k: nat)
    requires Proper(t) && k <= |t.links|
    requires forall e :: 0 <= e < |t.edges| ==> (t.edges[e] == EdgeStub <==> TouchesLeaf(t.nodes, t.links[e]))
    ensures StubEndsOfNonLeaves(Cut(t, k), |t.nodes|) == EdgesWithOneLeaf(t.nodes, t.links[..k])
    decreases k
  {
    if k == 0 {
      NoEdgesNoEnds(Cut(t, 0), |t.nodes|);
    } else {
      ConservationUpTo(t, k - 1);
      OneEdgeAdds(t, k - 1, |t.nodes|);
      assert t.links[..k][..k - 1] == t.links[..k - 1];
    }
  }

  lemma {:induction false} NoEdgesNoEnds(t: Net, n: nat)
    requires Proper(t) && t.links == []
    ensures StubEndsOfNonLeaves(t, n) == 0
  {
    if n > 0 { NoEdgesNoEnds(t, n - 1); }
  }

  /** The stub counts of all non-leaf nodes add up to the number of edges with exactly one leaf end. */
  lemma {:induction false} StubCountsAddUp(before: Net, after: Net, m: int, rounds: nat)
    requires IsClassification(before, after, m, rounds) && Unclassified(before)
    ensures StubEndsOfNonLeaves(after, |after.nodes|) == EdgesWithOneLeaf(after.nodes, after.links)
  {
    ConservationUpTo(after, |after.links|);
    assert Cut(after, |after.links|) == after && after.links[..|after.links|] == after.links;
  }

  // ---------- First and later calls ----------

  /** The rules determine the classification. */
  lemma {:induction false} ClassificationIsUnique(before: Net, a: Net, b: Net, m: int, rounds: nat)
    requires IsClassification(before, a, m, rounds) && IsClassification(before, b, m, rounds)
    ensures a == b
  {
    StubEndsAgree(a.links, a.edges, b.edges);
    forall i | 0 <= i < |a.nodes|
      ensures a.nodes[i] == b.nodes[i]
    {
      if a.nodes[i] != NodeLeaf {
        assert b.nodes[i] != NodeLeaf;
      }
    }
    assert a.nodes == b.nodes;
    assert a.edges == b.edges;
  }

  lemma {:induction false} StubEndsAgree(links: seq<(int, int)>, a: seq<EdgeClass>, b: seq<EdgeClass>)
    requires |links| == |a| == |b|
    requires forall e :: 0 <= e < |a| ==> (a[e] == EdgeStub <==> b[e] == EdgeStub)
    ensures forall i :: StubEnds(links, a, i) == StubEnds(links, b, i)
    decreases |links|
  {
    if links != [] {
      var n := |links| - 1;
      StubEndsAgree(links[..n], a[..n], b[..n]);
    }
  }

  /** A second call changes nothing exactly when the first one found no node with a single stub
      end: every such node turns from STUB to BORDER, since its edges are in the lists twice. */
  lemma {:induction false} SecondCallIsIdle(t0: Net, t1: Net, t2: Net, m: int)
    requires Unclassified(t0) && IsClassification(t0, t1, m, 1) && IsClassification(t1, t2, m, 2)
    ensures t2 == t1 <==> NodeStub !in t1.nodes
    ensures forall i :: 0 <= i < |t1.nodes| ==>
      t2.nodes[i] == if t1.nodes[i] == NodeStub then NodeBorder else t1.nodes[i]
    ensures forall e :: 0 <= e < |t1.edges| ==>
      t2.edges[e] == if t1.edges[e] == EdgeBorder then EdgeBackbone else t1.edges[e]
  {
    forall e | 0 <= e < |t1.edges|
      ensures t1.edges[e] == EdgeStub <==> t2.edges[e] == EdgeStub
    {
      assert TouchesLeaf(t1.nodes, t1.links[e]) <==> TouchesLeaf(t2.nodes, t2.links[e]);
    }
    StubEndsAgree(t1.links, t1.edges, t2.edges);
    if NodeStub !in t1.nodes {
      assert t2.nodes == t1.nodes;
      assert t2.edges == t1.edges;
    }
  }

  /** A leaf at a node of degree two: the second call turns that node from STUB to BORDER. */
  lemma {:induction false} SecondCallDiffers()
    ensures var t0 := Net([1, 2], [NodeNone, NodeNone], [(0, 1)], [EdgeNone]);
      var t1 := t0.(nodes := [NodeLeaf, NodeStub], edges := [EdgeStub]);
      var t2 := t0.(nodes := [NodeLeaf, NodeBorder], edges := [EdgeStub]);
      Unclassified(t0) && IsClassification(t0, t1, 1, 1) && IsClassification(t1, t2, 1, 2)
  {
    var links, edges := [(0, 1)], [EdgeStub];
    assert links[..0] == [] && edges[..0] == [];
    assert StubEnds(links[..0], edges[..0], 1) == 0;
    assert StubEnds(links, edges, 1) == 1;
    hide StubEnds;
  }

  // ---------- The types spelled out ----------

  /** The stub edges that start, and that end, at node i. */
  function StubsFrom(t: Net, i: int): set<nat>
    requires |t.links| == |t.edges|
  {
    set e: nat | e < |t.edges| && t.edges[e] == EdgeStub && t.links[e].0 == i
  }

  function StubsTo(t: Net, i: int): set<nat>
    requires |t.links| == |t.edges|
  {
    set e: nat | e < |t.edges| && t.edges[e] == EdgeStub && t.links[e].1 == i
  }

  function Shorter(t: Net): Net
    requires t.links != [] && |t.links| == |t.edges|
  {
    t.(links := t.links[..|t.links| - 1], edges := t.edges[..|t.links| - 1])
  }

  lemma {:induction false} LastStub(t: Net, i: int)
    requires t.links != [] && |t.links| == |t.edges|
    ensures var n := |t.links| - 1;
      var stub := t.edges[n] == EdgeStub;
      && |StubsFrom(t, i)| == |StubsFrom(Shorter(t), i)| + (if stub && t.links[n].0 == i then 1 else 0)
      && |StubsTo(t, i)| == |StubsTo(Shorter(t), i)| + (if stub && t.links[n].1 == i then 1 else 0)
  {
    var n, u := |t.links| - 1, Shorter(t);
    var stub := t.edges[n] == EdgeStub;
    assert forall e: nat :: e < n ==> u.links[e] == t.links[e] && u.edges[e] == t.edges[e];
    OneMoreElement(StubsFrom(t, i), StubsFrom(u, i), n, stub && t.links[n].0 == i);
    OneMoreElement(StubsTo(t, i), StubsTo(u, i), n, stub && t.links[n].1 == i);
  }

  lemma {:induction false} StubEndsAreSets(t: Net, i: int)
    requires |t.links| == |t.edges|
    ensures StubEnds(t.links, t.edges, i) == |StubsFrom(t, i)| + |StubsTo(t, i)|
    decreases |t.links|
  {
    if t.links == [] {
      assert StubsFrom(t, i) == {} && StubsTo(t, i) == {};
    } else {
      StubEndsAreSets(Shorter(t), i);
      LastStub(t, i);
      hide StubsFrom, StubsTo;
    }
  }

  /** The first classification, type by type. */
  predicate TypesOfNodes(before: Net, after: Net, m: int)
    requires SameShape(before, after)
  {
    forall i :: 0 <= i < |after.nodes| ==>
      var stubEnds := |StubsFrom(after, i)| + |StubsTo(after, i)|;
      && (after.nodes[i] == NodeLeaf <==> before.degrees[i] <= m)
      && (after.nodes[i] == NodeBackbone <==> before.degrees[i] > m && stubEnds == 0)
      && (after.nodes[i] == NodeStub <==> before.degrees[i] > m && stubEnds == 1)
      && (after.nodes[i] == NodeBorder <==> before.degrees[i] > m && stubEnds >= 2)
  }

  predicate TypesOfEdges(before: Net, after: Net, m: int)
    requires SameShape(before, after)
  {
    forall e :: 0 <= e < |after.edges| ==>
      var (u, v) := after.links[e];
      var stub := before.degrees[u] <= m || before.degrees[v] <= m;
      var border := (after.nodes[u] == NodeStub && after.nodes[v] == NodeBorder)
                 || (after.nodes[u] == NodeBorder && after.nodes[v] == NodeStub);
      && (after.edges[e] == EdgeStub <==> stub)
      && (after.edges[e] == EdgeBorder <==> !stub && border)
      && (after.edges[e] == EdgeBackbone <==> !stub && !border)
  }

  /** After the first call on an unclassified graph every type is known from the degrees and the
      numbers of stub ends. */
  lemma {:induction false} FirstClassification(before: Net, after: Net, m: int)
    requires Unclassified(before) && IsClassification(before, after, m, 1)
    ensures TypesOfNodes(before, after, m) && TypesOfEdges(before, after, m)
  {
    forall i | 0 <= i < |after.nodes|
      ensures StubEnds(after.links, after.edges, i) == |StubsFrom(after, i)| + |StubsTo(after, i)|
    {
      StubEndsAreSets(after, i);
    }
    hide StubEnds, StubsFrom, StubsTo;
  }

  lemma {:induction false} FirstTypes(before: Net, after: Net, m: int, earlier: nat)
    requires IsClassification(before, after, m, earlier + 1)
    ensures SameShape(before, after)
    ensures earlier == 0 && Unclassified(before) ==> TypesOfNodes(before, after, m) && TypesOfEdges(before, after, m)
  {
    if earlier == 0 && Unclassified(before) {
      FirstClassification(before, after, m);
    }
  }

  // ---------- The passes of Classify on values ----------

  /** The final types follow from what each of the four typing passes does: nodes n0 to n1, edges
      e0 to e1, nodes n1 to n2, edges e1 to e2. */
  lemma {:induction false} PassesClassify(t0: Net, n1: seq<NodeClass>, e1: seq<EdgeClass>, t2: Net, m: int, rounds: nat)
    requires SameShape(t0, t2) && |n1| == |t0.nodes| && |e1| == |t0.edges|
    requires forall i :: 0 <= i < |n1| ==> n1[i] == if t0.degrees[i] <= m then NodeLeaf else t0.nodes[i]
    requires forall e :: 0 <= e < |e1| ==> e1[e] == if TouchesLeaf(n1, t0.links[e]) then EdgeStub else t0.edges[e]
    requires forall i :: 0 <= i < |n1| ==>
      t2.nodes[i] == if n1[i] == NodeLeaf then NodeLeaf else NodeRule(StubEnds(t0.links, e1, i), rounds)
    requires forall e :: 0 <= e < |e1| ==>
      t2.edges[e] == if e1[e] == EdgeStub then EdgeStub else EdgeRule(t2.nodes[t0.links[e].0], t2.nodes[t0.links[e].1])
    ensures IsClassification(t0, t2, m, rounds)
  {
    StubEndsAgree(t0.links, e1, t2.edges);
    forall e | 0 <= e < |e1|
      ensures t2.edges[e] == EdgeStub <==> TouchesLeaf(t2.nodes, t2.links[e]) || t0.edges[e] == EdgeStub
    {
      assert TouchesLeaf(n1, t0.links[e]) <==> TouchesLeaf(t2.nodes, t0.links[e]);
    }
  }

  // ---------- Reading the types off the objects ----------

  ghost predicate Numbered(nodes: seq<BriteNode?>) {
    forall i :: 0 <= i < |nodes| ==> nodes[i] != null && nodes[i].nodeId == i
  }

  ghost function Degrees(nodes: seq<BriteNode?>): (r: seq<int>)
    requires Numbered(nodes)
    reads nodes
    ensures |r| == |nodes| && forall i :: 0 <= i < |nodes| ==> r[i] == nodes[i].outDegree
  {
    seq(|nodes|, i requires 0 <= i < |nodes| && nodes[i] != null reads nodes => nodes[i].outDegree)
  }

  ghost function NodeClasses(nodes: seq<BriteNode?>): (r: seq<NodeClass>)
    requires Numbered(nodes)
    reads nodes
    ensures |r| == |nodes| && forall i :: 0 <= i < |nodes| ==> r[i] == nodes[i].conf.Class()
  {
    seq(|nodes|, i requires 0 <= i < |nodes| && nodes[i] != null reads nodes => nodes[i].conf.Class())
  }

  ghost function Links(edges: seq<Edge>): (r: seq<(int, int)>)
    ensures |r| == |edges|
    ensures forall e :: 0 <= e < |edges| ==> r[e] == (edges[e].src.nodeId, edges[e].dst.nodeId)
  {
    seq(|edges|, e requires 0 <= e < |edges| => (edges[e].src.nodeId, edges[e].dst.nodeId))
  }

  ghost function EdgeClasses(edges: seq<Edge>): (r: seq<EdgeClass>)
    reads edges
    ensures |r| == |edges| && forall e :: 0 <= e < |edges| ==> r[e] == edges[e].conf.Class()
  {
    seq(|edges|, e requires 0 <= e < |edges| reads edges => edges[e].conf.Class())
  }

  /** Edges join nodes of the graph. */
  ghost predicate Joined(nodes: seq<BriteNode?>, edges: seq<Edge>)
    requires Numbered(nodes)
  {
    forall e :: 0 <= e < |edges| ==> Placed(nodes, edges[e].src) && Placed(nodes, edges[e].dst)
  }

  ghost predicate Placed(nodes: seq<BriteNode?>, n: BriteNode) {
    0 <= n.nodeId < |nodes| && nodes[n.nodeId] == n
  }

  /** Which nodes and edges are routers and router links. */
  ghost function NodeKinds(nodes: seq<BriteNode?>): (r: seq<bool>)
    requires Numbered(nodes)
    reads nodes
    ensures |r| == |nodes| && forall i :: 0 <= i < |nodes| ==> r[i] == nodes[i].conf.RouterNode?
  {
    seq(|nodes|, i requires 0 <= i < |nodes| && nodes[i] != null reads nodes => nodes[i].conf.RouterNode?)
  }

  ghost function EdgeKinds(edges: seq<Edge>): (r: seq<bool>)
    reads edges
    ensures |r| == |edges| && forall e :: 0 <= e < |edges| ==> r[e] == edges[e].conf.RouterEdge?
  {
    seq(|edges|, e requires 0 <= e < |edges| reads edges => edges[e].conf.RouterEdge?)
  }

  /** An edge is of the kind of its ends. */
  ghost predicate KindsAgree(nodeKinds: seq<bool>, edgeKinds: seq<bool>, links: seq<(int, int)>) {
    |edgeKinds| == |links|
    && forall e :: 0 <= e < |links| && 0 <= links[e].0 < |nodeKinds| && 0 <= links[e].1 < |nodeKinds| ==>
      edgeKinds[e] == nodeKinds[links[e].0] == nodeKinds[links[e].1]
  }

  /** What one pass over the edges puts in front of the incidence list of node i. */
  function Round(edges: seq<Edge>, i: int): seq<Edge>
    decreases |edges|
  {
    if edges == [] then []
    else
      var e := edges[|edges| - 1];
      (if e.dst.nodeId == i then [e] else []) + (if e.src.nodeId == i then [e] else []) + Round(edges[..|edges| - 1], i)
  }

  /** The incidence list of node i after k passes. */
  function Rounds(edges: seq<Edge>, i: int, k: nat): seq<Edge> {
    if k == 0 then [] else Round(edges, i) + Rounds(edges, i, k - 1)
  }

  lemma {:induction false} NextRound(edges: seq<Edge>, i: int, k: nat)
    ensures Rounds(edges, i, k + 1) == Round(edges, i) + Rounds(edges, i, k)
  {}

  function CountStubs(list: seq<Edge>): nat
    reads list
    decreases |list|
  {
    if list == [] then 0
    else CountStubs(list[..|list| - 1]) + if list[|list| - 1].conf.Class() == EdgeStub then 1 else 0
  }

  lemma {:induction false} CountStubsConcat(a: seq<Edge>, b: seq<Edge>)
    ensures CountStubs(a + b) == CountStubs(a) + CountStubs(b)
    decreases |b|
  {
    if b == [] {
      assert a + b == a;
    } else {
      assert (a + b)[..|a + b| - 1] == a + b[..|b| - 1];
      CountStubsConcat(a, b[..|b| - 1]);
    }
  }

  lemma {:induction false} CountStubsOne(e: Edge)
    ensures CountStubs([e]) == if e.conf.Class() == EdgeStub then 1 else 0
  {
    assert [e][..0] == [];
  }

  lemma {:induction false} CountRound(edges: seq<Edge>, i: int)
    ensures CountStubs(Round(edges, i)) == StubEnds(Links(edges), EdgeClasses(edges), i)
    decreases |edges|
  {
    if edges != [] {
      var n := |edges| - 1;
      var e := edges[n];
      CountRound(edges[..n], i);
      assert Links(edges)[..n] == Links(edges[..n]) && EdgeClasses(edges)[..n] == EdgeClasses(edges[..n]);
      var a := if e.dst.nodeId == i then [e] else [];
      var b := if e.src.nodeId == i then [e] else [];
      CountStubsConcat(a + b, Round(edges[..n], i));
      CountStubsConcat(a, b);
      CountStubsOne(e);
    }
  }

  lemma {:induction false} OneMore(k: nat, n: nat)
    requires k > 0
    ensures n + (k - 1) * n == k * n
  {}

  /** The stub links counted at node i after k passes over the edges. */
  lemma {:induction false} CountRounds(edges: seq<Edge>, i: int, k: nat)
    ensures CountStubs(Rounds(edges, i, k)) == k * StubEnds(Links(edges), EdgeClasses(edges), i)
    decreases k
  {
    if k > 0 {
      CountRound(edges, i);
      CountRounds(edges, i, k - 1);
      CountStubsConcat(Round(edges, i), Rounds(edges, i, k - 1));
      OneMore(k, StubEnds(Links(edges), EdgeClasses(edges), i));
    }
  }

  /** From an all-white colouring, the nodes that turn black are those reachable from u at all. */
  lemma {:induction false} AllWhite(adj: seq<seq<int>>, color: seq<Color>, u: int)
    requires |color| == |adj| && forall v :: 0 <= v < |color| ==> color[v] == White
    ensures forall v :: v in WhiteReach(adj, color, u) <==> Reaches(adj, AllNodes(adj), u, v)
  {
    assert Whites(color) == AllNodes(adj);
  }

  // ---------- The topology object ----------

  class Topology {
    const g: Graph
    /** GetMEdges() of the model. */
    const mEdges: int
    ghost predicate Valid()
      reads this, g, g.nodes, g.edges
    {
      && g.Valid() && Numbered(g.nodes) && Joined(g.nodes, g.edges)
      && KindsAgree(NodeKinds(g.nodes), EdgeKinds(g.edges), Links(g.edges))
    }

    /** The incidence lists are as k calls of Classify leave them. */
    ghost predicate Filled(k: nat)
      reads g
    {
      |g.incList| == |g.nodes| && forall i :: 0 <= i < |g.nodes| ==> g.incList[i] == Rounds(g.edges, i, k)
    }

    constructor (graph: Graph, m: int)
      requires graph.Valid() && Numbered(graph.nodes) && Joined(graph.nodes, graph.edges)
      requires KindsAgree(NodeKinds(graph.nodes), EdgeKinds(graph.edges), Links(graph.edges))
      requires forall i :: 0 <= i < |graph.nodes| ==> graph.incList[i] == []
      ensures Valid() && g == graph && mEdges == m && Filled(0)
    {
      g, mEdges := graph, m;
    }

    ghost function Snapshot(): Net
      requires Numbered(g.nodes)
      reads g`nodes, g`edges, g.nodes, g.edges
    {
      Net(Degrees(g.nodes), NodeClasses(g.nodes), Links(g.edges), EdgeClasses(g.edges))
    }

    /** The search from node 0 on a graph painted white. */
    method SearchFromZero() returns (color: array<Color>)
      requires g.Valid()
      ensures fresh(color) && color.Length == g.numNodes
      ensures forall v :: 0 <= v < color.Length ==>
        (color[v] != White <==> Reaches(g.adjList, AllNodes(g.adjList), 0, v))
    {
      color := new Color[g.numNodes];
      var pi := new int[g.numNodes];
      for i := 0 to g.numNodes
        invariant forall j :: 0 <= j < i ==> color[j] == White
      {
        color[i] := White;
      }
      AllWhite(g.adjList, color[..], 0);
      g.DFS(color, pi, 0);
    }

    /** True exactly when every node can be reached from node 0. */
    method IsConnected() returns (conn: bool)
      requires g.Valid()
      ensures conn <==> forall v :: 0 <= v < |g.adjList| ==> Reaches(g.adjList, AllNodes(g.adjList), 0, v)
    {
      var color := SearchFromZero();
      for i := 0 to g.numNodes
        invariant forall j :: 0 <= j < i ==> color[j] != White
      {
        if color[i] == White {
          return false;
        }
      }
      conn := true;
    }

    /** Populate the incidence lists. */
    method PopulateIncidence(ghost rounds: nat)
      requires g.Valid() && Numbered(g.nodes) && Joined(g.nodes, g.edges)
      requires Filled(rounds)
      modifies g`incList
      ensures g.Valid() && Filled(rounds + 1)
    {
      hide Rounds;
      for k := 0 to |g.edges|
        invariant g.Valid()
        invariant forall i :: 0 <= i < |g.nodes| ==> g.incList[i] == Round(g.edges[..k], i) + old(g.incList)[i]
      {
        assert g.edges[..k + 1][..k] == g.edges[..k];
        g.AddIncListNode(g.edges[k]);
      }
      assert g.edges[..|g.edges|] == g.edges;
      forall i | 0 <= i < |g.nodes|
        ensures g.incList[i] == Rounds(g.edges, i, rounds + 1)
      {
        NextRound(g.edges, i, rounds);
      }
    }

    /** Look for leaf nodes. */
    method FindLeaves()
      requires Numbered(g.nodes)
      modifies g.nodes
      ensures Degrees(g.nodes) == old(Degrees(g.nodes))
      ensures NodeKinds(g.nodes) == old(NodeKinds(g.nodes))
      ensures EdgeClasses(g.edges) == old(EdgeClasses(g.edges)) && EdgeKinds(g.edges) == old(EdgeKinds(g.edges))
      ensures forall i :: 0 <= i < |g.nodes| ==>
        NodeClasses(g.nodes)[i] == if Degrees(g.nodes)[i] <= mEdges then NodeLeaf else old(NodeClasses(g.nodes))[i]
    {
      for i := 0 to |g.nodes|
        invariant forall j :: 0 <= j < |g.nodes| ==> g.nodes[j].outDegree == old(g.nodes[j].outDegree)
        invariant forall j :: 0 <= j < |g.nodes| ==>
          g.nodes[j].conf == (if j < i && g.nodes[j].outDegree <= mEdges then old(g.nodes[j].conf).As(NodeLeaf)
                              else old(g.nodes[j].conf))
      {
        var node := g.nodes[i];
        if node.outDegree <= mEdges {
          match node.conf
          case RouterNode(_) => node.conf := RouterNode(NodeLeaf);
          case ASNode(_) => node.conf := ASNode(NodeLeaf);
        }
      }
    }

    /** Look for stub links. */
    method FindStubLinks()
      requires Numbered(g.nodes) && Joined(g.nodes, g.edges)
      modifies g.edges
      ensures EdgeKinds(g.edges) == old(EdgeKinds(g.edges))
      ensures Degrees(g.nodes) == old(Degrees(g.nodes)) && NodeClasses(g.nodes) == old(NodeClasses(g.nodes))
      ensures NodeKinds(g.nodes) == old(NodeKinds(g.nodes))
      ensures forall e :: 0 <= e < |g.edges| ==>
        EdgeClasses(g.edges)[e]
        == (if TouchesLeaf(NodeClasses(g.nodes), Links(g.edges)[e]) then EdgeStub else old(EdgeClasses(g.edges))[e])
    {
      for k := 0 to |g.edges|
        invariant forall e :: 0 <= e < |g.edges| ==>
          g.edges[e].conf == (if g.edges[e] in g.edges[..k] && HasLeafEnd(g.edges[e]) then old(g.edges[e].conf).As(EdgeStub)
                              else old(g.edges[e].conf))
      {
        var edge := g.edges[k];
        assert g.edges[..k + 1] == g.edges[..k] + [edge];
        if HasLeafEnd(edge) {
          match edge.conf
          case RouterEdge(_) => edge.conf := RouterEdge(EdgeStub);
          case ASEdge(_) => edge.conf := ASEdge(EdgeStub);
        }
      }
    }

    method CountStubLinks(list: seq<Edge>) returns (n: nat)
      ensures n == CountStubs(list)
    {
      n := 0;
      for k := 0 to |list|
        invariant n == CountStubs(list[..k])
      {
        assert list[..k + 1][..k] == list[..k];
        if list[k].conf.Class() == EdgeStub {
          n := n + 1;
        }
      }
      assert list[..|list|] == list;
    }

    method SetNodeClass(node: BriteNode, stubLinks: nat)
      modifies node`conf
      ensures node.conf == old(node.conf).As(ClassFor(stubLinks))
    {
      match node.conf
      case RouterNode(_) =>
        if stubLinks == 1 { node.conf := RouterNode(NodeStub); }
        if stubLinks > 1 { node.conf := RouterNode(NodeBorder); }
        if stubLinks == 0 { node.conf := RouterNode(NodeBackbone); }
      case ASNode(_) =>
        if stubLinks == 1 { node.conf := ASNode(NodeStub); }
        if stubLinks > 1 { node.conf := ASNode(NodeBorder); }
        if stubLinks == 0 { node.conf := ASNode(NodeBackbone); }
    }

    /** Look for stub routers: count the stub links in each incidence list. */
    method FindStubRouters(ghost counts: seq<nat>)
      requires Numbered(g.nodes) && |g.incList| == |g.nodes| && |counts| == |g.nodes|
      requires forall i :: 0 <= i < |g.nodes| ==> CountStubs(g.incList[i]) == counts[i]
      modifies g.nodes
      ensures Degrees(g.nodes) == old(Degrees(g.nodes))
      ensures NodeKinds(g.nodes) == old(NodeKinds(g.nodes))
      ensures EdgeClasses(g.edges) == old(EdgeClasses(g.edges)) && EdgeKinds(g.edges) == old(EdgeKinds(g.edges))
      ensures forall i :: 0 <= i < |g.nodes| ==>
        NodeClasses(g.nodes)[i] == (if old(NodeClasses(g.nodes))[i] == NodeLeaf then NodeLeaf else ClassFor(counts[i]))
    {
      for i := 0 to |g.nodes|
        invariant forall j :: 0 <= j < |g.nodes| ==> g.nodes[j].outDegree == old(g.nodes[j].outDegree)
        invariant forall j :: 0 <= j < |g.nodes| ==>
          g.nodes[j].conf == (if j >= i || old(g.nodes[j].conf).Class() == NodeLeaf then old(g.nodes[j].conf)
                              else old(g.nodes[j].conf).As(ClassFor(counts[j])))
      {
        var node := g.nodes[i];
        if node.conf.Class() == NodeLeaf { continue; }
        var stubLinks := CountStubLinks(g.incList[i]);
        SetNodeClass(node, stubLinks);
      }
    }

    method SetEdgeClass(edge: Edge)
      requires edge.conf.RouterEdge? == edge.src.conf.RouterNode? == edge.dst.conf.RouterNode?
      modifies edge`conf
      ensures edge.conf == old(edge.conf).As(FinalClass(edge))
    {
      var src, dst := edge.src, edge.dst;
      if src.conf.RouterNode? {
        if (src.conf.rttype == NodeStub && dst.conf.rttype == NodeBorder)
           || (src.conf.rttype == NodeBorder && dst.conf.rttype == NodeStub) {
          edge.conf := RouterEdge(EdgeBorder);
        } else {
          edge.conf := RouterEdge(EdgeBackbone);
        }
      } else {
        if (src.conf.astype == NodeStub && dst.conf.astype == NodeBorder)
           || (src.conf.astype == NodeBorder && dst.conf.astype == NodeStub) {
          edge.conf := ASEdge(EdgeBorder);
        } else {
          edge.conf := ASEdge(EdgeBackbone);
        }
      }
    }

    /** Border and backbone links. */
    method FindBorderLinks()
      requires Numbered(g.nodes) && Joined(g.nodes, g.edges)
      requires KindsAgree(NodeKinds(g.nodes), EdgeKinds(g.edges), Links(g.edges))
      modifies g.edges
      ensures EdgeKinds(g.edges) == old(EdgeKinds(g.edges))
      ensures Degrees(g.nodes) == old(Degrees(g.nodes)) && NodeClasses(g.nodes) == old(NodeClasses(g.nodes))
      ensures NodeKinds(g.nodes) == old(NodeKinds(g.nodes))
      ensures forall e :: 0 <= e < |g.edges| ==>
        EdgeClasses(g.edges)[e]
        == (if old(EdgeClasses(g.edges))[e] == EdgeStub then EdgeStub
            else EdgeRule(NodeClasses(g.nodes)[Links(g.edges)[e].0], NodeClasses(g.nodes)[Links(g.edges)[e].1]))
    {
      hide EdgeRule, NodeClasses, EdgeClasses, Degrees, NodeKinds, EdgeKinds, Links;
      for k := 0 to |g.edges|
        invariant forall e :: 0 <= e < |g.edges| ==>
          g.edges[e].conf == (if g.edges[e] !in g.edges[..k] || old(g.edges[e].conf).Class() == EdgeStub
                              then old(g.edges[e].conf) else old(g.edges[e].conf).As(FinalClass(g.edges[e])))
      {
        var edge := g.edges[k];
        assert g.edges[..k + 1] == g.edges[..k] + [edge];
        if edge.conf.Class() != EdgeStub {
          SetEdgeClass(edge);
        }
      }
    }

    /** The stub routers from lists filled `rounds` times. */
    method FindStubRoutersCounted(ghost rounds: nat)
      requires Numbered(g.nodes) && Filled(rounds)
      modifies g.nodes
      ensures Degrees(g.nodes) == old(Degrees(g.nodes)) && NodeKinds(g.nodes) == old(NodeKinds(g.nodes))
      ensures EdgeClasses(g.edges) == old(EdgeClasses(g.edges)) && EdgeKinds(g.edges) == old(EdgeKinds(g.edges))
      ensures forall i :: 0 <= i < |g.nodes| ==>
        NodeClasses(g.nodes)[i] == (if old(NodeClasses(g.nodes))[i] == NodeLeaf then NodeLeaf
                                    else NodeRule(StubEnds(Links(g.edges), EdgeClasses(g.edges), i), rounds))
    {
      ghost var links, classes := Links(g.edges), EdgeClasses(g.edges);
      ghost var counts: seq<nat> := seq(|g.nodes|, i => rounds * StubEnds(links, classes, i));
      forall i | 0 <= i < |g.nodes|
        ensures CountStubs(g.incList[i]) == counts[i]
      {
        CountRounds(g.edges, i, rounds);
      }
      FindStubRouters(counts);
    }

    /** The four passes that set types. */
    method SetTypes(ghost rounds: nat)
      requires Numbered(g.nodes) && Joined(g.nodes, g.edges)
      requires KindsAgree(NodeKinds(g.nodes), EdgeKinds(g.edges), Links(g.edges))
      requires Filled(rounds)
      modifies g.nodes, g.edges
      ensures KindsAgree(NodeKinds(g.nodes), EdgeKinds(g.edges), Links(g.edges))
      ensures IsClassification(old(Snapshot()), Snapshot(), mEdges, rounds)
    {
      ghost var t0, links := Snapshot(), Links(g.edges);
      FindLeaves();
      ghost var n1 := NodeClasses(g.nodes);
      FindStubLinks();
      ghost var e1 := EdgeClasses(g.edges);
      assert NodeClasses(g.nodes) == n1;
      FindStubRoutersCounted(rounds);
      ghost var n2 := NodeClasses(g.nodes);
      assert EdgeClasses(g.edges) == e1;
      FindBorderLinks();
      assert NodeClasses(g.nodes) == n2;
      PassesClassify(t0, n1, e1, Snapshot(), mEdges, rounds);
    }

    /** Classify: the types follow the rules.  `earlier` is the number of calls before this one,
        which have left their entries in the incidence lists. */
    method Classify(ghost earlier: nat)
      requires Valid() && Filled(earlier)
      modifies g`incList, g.nodes, g.edges
      ensures Valid() && Filled(earlier + 1)
      ensures IsClassification(old(Snapshot()), Snapshot(), mEdges, earlier + 1)
      ensures earlier == 0 && Unclassified(old(Snapshot())) ==>
        TypesOfNodes(old(Snapshot()), Snapshot(), mEdges) && TypesOfEdges(old(Snapshot()), Snapshot(), mEdges)
    {
      hide NodeClasses, EdgeClasses, Degrees, NodeKinds, EdgeKinds, Links, KindsAgree, IsClassification, SameShape,
           Unclassified, TypesOfNodes, TypesOfEdges, Rounds;
      ghost var before := Snapshot();
      PopulateIncidence(earlier);
      SetTypes(earlier + 1);
      FirstTypes(before, Snapshot(), mEdges, earlier);
    }
  }

  predicate HasLeafEnd(e: Edge)
    reads e.src, e.dst
  {
    e.src.conf.Class() == NodeLeaf || e.dst.conf.Class() == NodeLeaf
  }

  function FinalClass(e: Edge): EdgeClass
    reads e.src, e.dst
  {
    EdgeRule(e.src.conf.Class(), e.dst.conf.Class())
  }
}
