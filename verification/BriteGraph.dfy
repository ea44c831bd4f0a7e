/**
 The topology graph of ns-3/BRITE: nodes, edges, adjacency and incidence lists, and its coloured
 depth-first search (Graph.cc).
 */
module BriteGraph {

  // ---------- Nodes and edges ----------

  datatype Color = Yellow | Blue | Red | White | Black | Purple | Cyan | Pink | Gray

  /** RouterNodeType and ASNodeType; RouterEdgeType and ASEdgeType. */
  datatype NodeClass = NodeNone | NodeLeaf | NodeBorder | NodeStub | NodeBackbone
  datatype EdgeClass = EdgeNone | EdgeLeaf | EdgeStub | EdgeBorder | EdgeBackbone

  /** A node is a router or an AS, an edge joins routers or ASes; each carries its own type field. */
  datatype NodeConf = RouterNode(rttype: NodeClass) | ASNode(astype: NodeClass) {
    function Class(): NodeClass { if RouterNode? then rttype else astype }
    function As(c: NodeClass): NodeConf { if RouterNode? then RouterNode(c) else ASNode(c) }
  }
  datatype EdgeConf = RouterEdge(rtEdgeType: EdgeClass) | ASEdge(asEdgeType: EdgeClass) {
    function Class(): EdgeClass { if RouterEdge? then rtEdgeType else asEdgeType }
    function As(c: EdgeClass): EdgeConf { if RouterEdge? then RouterEdge(c) else ASEdge(c) }
  }

  class BriteNode {
    const nodeId: int
    var outDegree: int
    var conf: NodeConf

    constructor (i: int, c: NodeConf)
      ensures nodeId == i && conf == c && outDegree == 0
    {
      nodeId, conf, outDegree := i, c, 0;
    }
  }

  class Edge {
    const src: BriteNode
    const dst: BriteNode
    var conf: EdgeConf

    constructor (s: BriteNode, d: BriteNode, c: EdgeConf)
      ensures src == s && dst == d && conf == c
    {
      src, dst, conf := s, d, c;
    }
  }

  // ---------- Reachability ----------

  /** Adjacency lists whose entries are node numbers. */
  predicate ValidAdj(adj: seq<seq<int>>) {
    forall u, k :: 0 <= u < |adj| && 0 <= k < |adj[u]| ==> 0 <= adj[u][k] < |adj|
  }

  /** p is a path of adj that stays within the set s of nodes. */
  predicate IsPath(adj: seq<seq<int>>, s: set<int>, p: seq<int>) {
    && p != []
    && (forall i :: 0 <= i < |p| ==> 0 <= p[i] < |adj| && p[i] in s)
    && forall i :: 0 <= i < |p| - 1 ==> p[i + 1] in adj[p[i]]
  }

  ghost predicate PathTo(adj: seq<seq<int>>, s: set<int>, u: int, v: int, p: seq<int>) {
    IsPath(adj, s, p) && p[0] == u && p[|p| - 1] == v
  }

  /** v can be reached from u by a path of nodes of s, both ends included. */
  ghost predicate Reaches(adj: seq<seq<int>>, s: set<int>, u: int, v: int) {
    exists p :: PathTo(adj, s, u, v, p)
  }

  lemma {:induction false} ReachesSelf(adj: seq<seq<int>>, s: set<int>, u: int)
    requires 0 <= u < |adj| && u in s
    ensures Reaches(adj, s, u, u)
  {
    assert PathTo(adj, s, u, u, [u]);
  }

  lemma {:induction false} ReachesStep(adj: seq<seq<int>>, s: set<int>, u: int, v: int, w: int)
    requires Reaches(adj, s, u, v) && 0 <= v < |adj| && w in adj[v] && 0 <= w < |adj| && w in s
    ensures Reaches(adj, s, u, w)
  {
    var p :| PathTo(adj, s, u, v, p);
    assert PathTo(adj, s, u, w, p + [w]);
  }

  lemma {:induction false} ReachesVia(adj: seq<seq<int>>, s: set<int>, t: set<int>, u: int, v: int, w: int)
    requires 0 <= u < |adj| && u in s && v in adj[u] && Reaches(adj, t, v, w) && t <= s
    ensures Reaches(adj, s, u, w)
  {
    var p :| PathTo(adj, t, v, w, p);
    var q := [u] + p;
    assert q[|q| - 1] == p[|p| - 1];
    forall i | 0 <= i < |q| - 1
      ensures q[i + 1] in adj[q[i]]
    {
      if i > 0 { assert q[i] == p[i - 1] && q[i + 1] == p[i]; }
    }
    assert PathTo(adj, s, u, w, q);
  }

  /** A set that holds u and is closed under edges within s holds all that u reaches within s. */
  lemma {:induction false} ClosedHoldsPath(adj: seq<seq<int>>, s: set<int>, closed: set<int>, p: seq<int>)
    requires IsPath(adj, s, p) && p[0] in closed
    requires forall v, w :: v in closed && 0 <= v < |adj| && w in adj[v] && w in s ==> w in closed
    ensures p[|p| - 1] in closed
    decreases |p|
  {
    if |p| > 1 {
      assert p[1] in adj[p[0]];
      ClosedHoldsPath(adj, s, closed, p[1..]);
    }
  }

  lemma {:induction false} ClosedHolds(adj: seq<seq<int>>, s: set<int>, closed: set<int>, u: int)
    requires u in closed
    requires forall v, w :: v in closed && 0 <= v < |adj| && w in adj[v] && w in s ==> w in closed
    ensures forall v :: Reaches(adj, s, u, v) ==> v in closed
  {
    forall v | Reaches(adj, s, u, v)
      ensures v in closed
    {
      var p :| PathTo(adj, s, u, v, p);
      ClosedHoldsPath(adj, s, closed, p);
    }
  }

  predicate IsNode(adj: seq<seq<int>>, u: int) {
    0 <= u < |adj|
  }

  function AllNodes(adj: seq<seq<int>>): set<int> {
    set u | 0 <= u < |adj| && IsNode(adj, u)
  }

  predicate Symmetric(adj: seq<seq<int>>)
    requires ValidAdj(adj)
  {
    forall u, v {:trigger v in adj[u]} :: 0 <= u < |adj| && v in adj[u] ==> u in adj[v]
  }

  lemma {:induction false} ReversePath(adj: seq<seq<int>>, s: set<int>, p: seq<int>)
    requires ValidAdj(adj) && Symmetric(adj) && IsPath(adj, s, p)
    ensures Reaches(adj, s, p[|p| - 1], p[0])
    decreases |p|
  {
    if |p| == 1 {
      ReachesSelf(adj, s, p[0]);
    } else {
      ReversePath(adj, s, p[1..]);
      ReachesStep(adj, s, p[|p| - 1], p[1], p[0]);
    }
  }

  lemma {:induction false} JoinPaths(adj: seq<seq<int>>, s: set<int>, u: int, p: seq<int>)
    requires IsPath(adj, s, p) && Reaches(adj, s, u, p[0])
    ensures Reaches(adj, s, u, p[|p| - 1])
    decreases |p|
  {
    if |p| > 1 {
      ReachesStep(adj, s, u, p[0], p[1]);
      JoinPaths(adj, s, u, p[1..]);
    }
  }

  /** With symmetric lists, reaching everything from node 0 means reaching everything from everywhere. */
  lemma {:induction false} ConnectedFromZero(adj: seq<seq<int>>)
    requires ValidAdj(adj) && Symmetric(adj) && |adj| > 0
    ensures (forall v :: 0 <= v < |adj| ==> Reaches(adj, AllNodes(adj), 0, v))
       <==> (forall u, v :: 0 <= u < |adj| && 0 <= v < |adj| ==> Reaches(adj, AllNodes(adj), u, v))
  {
    var s := AllNodes(adj);
    if forall v :: 0 <= v < |adj| ==> Reaches(adj, s, 0, v) {
      forall u, v | 0 <= u < |adj| && 0 <= v < |adj|
        ensures Reaches(adj, s, u, v)
      {
        assert Reaches(adj, s, 0, u) && Reaches(adj, s, 0, v);
        var p :| PathTo(adj, s, 0, u, p);
        ReversePath(adj, s, p);
        var q :| PathTo(adj, s, 0, v, q);
        JoinPaths(adj, s, u, q);
      }
    }
  }

  // ---------- Colours and predecessors ----------

  function Whites(color: seq<Color>): set<int> {
    set i | 0 <= i < |color| && color[i] == White
  }

  /** A chain of predecessors from v back to u, written from u to v; u occurs only at its start. */
  predicate IsChain(pi: seq<int>, u: int, v: int, c: seq<int>) {
    && c != [] && c[0] == u && c[|c| - 1] == v
    && forall i :: 0 < i < |c| ==> 0 <= c[i] < |pi| && c[i] != u && pi[c[i]] == c[i - 1]
  }

  /** The chain repeats no node. */
  lemma {:induction false} ChainIsSimple(pi: seq<int>, u: int, v: int, c: seq<int>, i: nat, j: nat)
    requires IsChain(pi, u, v, c) && i < j < |c|
    ensures c[i] != c[j]
    decreases i
  {
    if i > 0 && c[i] == c[j] {
      ChainIsSimple(pi, u, v, c, i - 1, j - 1);
    }
  }

  /** What DFS from u has done to the predecessors: the reached nodes other than u got one among
      the reached nodes, along an edge, that leads back to u; no other entry changed. */
  ghost predicate Tree(adj: seq<seq<int>>, before: seq<int>, pi: seq<int>, reached: set<int>, u: int) {
    && |pi| == |before| && |adj| <= |pi|
    && (forall v :: 0 <= v < |pi| && (v == u || v !in reached) ==> pi[v] == before[v])
    && (forall v :: v in reached && v != u ==>
          0 <= v < |pi| && pi[v] in reached && 0 <= pi[v] < |adj| && v in adj[pi[v]])
    && (forall v :: v in reached ==> HasChain(pi, reached, u, v))
  }

  ghost predicate HasChain(pi: seq<int>, reached: set<int>, u: int, v: int) {
    exists c :: IsChain(pi, u, v, c) && forall x :: x in c ==> x in reached
  }

  lemma {:induction false} TreeStart(adj: seq<seq<int>>, pi: seq<int>, u: int)
    requires 0 <= u < |adj| <= |pi|
    ensures Tree(adj, pi, pi, {u}, u)
  {
    assert IsChain(pi, u, u, [u]);
    assert HasChain(pi, {u}, u, u);
  }

  /** Hanging the tree below v under u. */
  lemma {:induction false} TreeJoin(adj: seq<seq<int>>, pi0: seq<int>, pi1: seq<int>, pi2: seq<int>, r: set<int>, u: int,
                 q: set<int>, v: int)
    requires 0 <= u < |adj| && 0 <= v < |adj| && v in adj[u] && u in r && v in q && r !! q
    requires Tree(adj, pi0, pi1, r, u) && Tree(adj, pi1[v := u], pi2, q, v)
    ensures Tree(adj, pi0, pi2, r + q, u)
  {
    forall w | w in r + q
      ensures HasChain(pi2, r + q, u, w)
    {
      if w in r {
        assert HasChain(pi1, r, u, w);
        ChainKept(pi1, pi2, r, q, u, w);
      } else {
        assert HasChain(pi2, q, v, w);
        ChainHung(pi2, r, q, u, v, w);
      }
    }
  }

  lemma {:induction false} ChainKept(pi1: seq<int>, pi2: seq<int>, r: set<int>, q: set<int>, u: int, w: int)
    requires HasChain(pi1, r, u, w) && |pi1| == |pi2|
    requires forall x :: x in r && x != u && 0 <= x < |pi1| ==> pi2[x] == pi1[x]
    ensures HasChain(pi2, r + q, u, w)
  {
    var c :| IsChain(pi1, u, w, c) && forall x :: x in c ==> x in r;
    assert forall i :: 0 < i < |c| ==> c[i] in r;
    assert IsChain(pi2, u, w, c);
  }

  lemma {:induction false} ChainHung(pi: seq<int>, r: set<int>, q: set<int>, u: int, v: int, w: int)
    requires HasChain(pi, q, v, w) && u in r && u !in q && 0 <= v < |pi| && pi[v] == u && v in q
    ensures HasChain(pi, r + q, u, w)
  {
    var c :| IsChain(pi, v, w, c) && forall x :: x in c ==> x in q;
    var d := [u] + c;
    forall i | 0 < i < |d|
      ensures 0 <= d[i] < |pi| && d[i] != u && pi[d[i]] == d[i - 1]
    {
      assert d[i] == c[i - 1] && c[i - 1] in c;
    }
    assert IsChain(pi, u, w, d);
  }

  /** The nodes reached from u by paths that are white under the given colours. */
  ghost function WhiteReach(adj: seq<seq<int>>, color: seq<Color>, u: int): set<int> {
    set v | v in Whites(color) && Reaches(adj, Whites(color), u, v)
  }

  /** The colours after the reached nodes turned black. */
  ghost predicate Blackened(before: seq<Color>, after: seq<Color>, reached: set<int>) {
    |after| == |before| && forall v :: 0 <= v < |after| ==> after[v] == if v in reached then Black else before[v]
  }

  /** What the loop of DFS(u) has established for the first i neighbours of u; done are the nodes
      blackened so far. */
  ghost predicate Progress(adj: seq<seq<int>>, before: seq<Color>, now: seq<Color>, done: set<int>, u: int, i: nat)
    requires 0 <= u < |adj|
  {
    var s := Whites(before);
    && |now| == |before|
    && (forall v :: 0 <= v < |now| ==> now[v] == if v == u then Gray else if v in done then Black else before[v])
    && u !in done && done <= s
    && (forall v :: v in done ==> Reaches(adj, s, u, v))
    && (forall v, w :: v in done && 0 <= v < |adj| && w in adj[v] && w in s ==> w == u || w in done)
    && (forall k :: 0 <= k < i <= |adj[u]| && adj[u][k] in s ==> adj[u][k] == u || adj[u][k] in done)
  }

  /** One recursive call on a white neighbour. */
  lemma {:induction false} ProgressCall(adj: seq<seq<int>>, before: seq<Color>, now: seq<Color>, next: seq<Color>,
                     done: set<int>, u: int, i: nat)
    requires ValidAdj(adj) && |adj| <= |before| && 0 <= u < |adj| && i < |adj[u]|
    requires before[u] == White && Progress(adj, before, now, done, u, i)
    requires now[adj[u][i]] == White
    requires Blackened(now, next, WhiteReach(adj, now, adj[u][i]))
    ensures Progress(adj, before, next, done + WhiteReach(adj, now, adj[u][i]), u, i + 1)
    ensures WhiteReach(adj, now, adj[u][i]) !! done + {u} && adj[u][i] in WhiteReach(adj, now, adj[u][i])
  {
    var s, t, v := Whites(before), Whites(now), adj[u][i];
    var q := WhiteReach(adj, now, v);
    assert t <= s;
    ReachesSelf(adj, t, v);
    forall w | w in q
      ensures Reaches(adj, s, u, w)
    {
      ReachesVia(adj, s, t, u, v, w);
    }
    forall w, x | w in q && 0 <= w < |adj| && x in adj[w] && x in s
      ensures x == u || x in done + q
    {
      if x in t {
        ReachesStep(adj, t, v, w, x);
      }
    }
  }

  /** When all neighbours are done, the blackened nodes and u are the white-reachable ones. */
  lemma {:induction false} ProgressEnd(adj: seq<seq<int>>, before: seq<Color>, now: seq<Color>, done: set<int>, u: int)
    requires 0 <= u < |adj| <= |before| && before[u] == White
    requires Progress(adj, before, now, done, u, |adj[u]|)
    ensures done + {u} == WhiteReach(adj, before, u)
    ensures Blackened(before, now[u := Black], WhiteReach(adj, before, u))
  {
    var s := Whites(before);
    ReachesSelf(adj, s, u);
    forall v, w | v in done + {u} && 0 <= v < |adj| && w in adj[v] && w in s
      ensures w in done + {u}
    {
      if v == u {
        var k :| 0 <= k < |adj[u]| && adj[u][k] == w;
      }
    }
    ClosedHolds(adj, s, done + {u}, u);
    forall v
      ensures v in done + {u} <==> v in WhiteReach(adj, before, u)
    {}
  }

  // ---------- The graph object ----------

  class Graph {
    var numNodes: int
    var numEdges: int
    var nodes: seq<BriteNode?>
    var edges: seq<Edge>
    var adjList: seq<seq<int>>
    var incList: seq<seq<Edge>>

    ghost predicate Valid()
      reads this
    {
      && numNodes > 0 && |nodes| == |adjList| == |incList| == numNodes
      && numEdges == |edges|
      && ValidAdj(adjList)
    }

    constructor (n: int)
      requires n > 0
      ensures Valid() && numNodes == n && edges == []
      ensures forall i :: 0 <= i < n ==> nodes[i] == null && adjList[i] == [] && incList[i] == []
    {
      numNodes, numEdges, edges := n, 0, [];
      nodes := seq(n, _ => null);
      adjList := seq(n, _ => []);
      incList := seq(n, _ => []);
    }

    method AddNode(node: BriteNode, index: int)
      requires Valid() && 0 <= index < numNodes
      modifies this`nodes
      ensures Valid() && nodes == old(nodes)[index := node]
    {
      nodes := nodes[index := node];
    }

    method AddEdge(edge: Edge)
      requires Valid()
      modifies this`edges, this`numEdges
      ensures Valid() && edges == old(edges) + [edge]
    {
      edges := edges + [edge];
      numEdges := numEdges + 1;
    }

    method AddAdjListNode(n1: int, n2: int)
      requires Valid() && 0 <= n1 < numNodes && 0 <= n2 < numNodes
      modifies this`adjList
      ensures Valid() && adjList == old(adjList)[n1 := [n2] + old(adjList)[n1]]
    {
      adjList := adjList[n1 := [n2] + adjList[n1]];
    }

    /** Enters the edge at the front of the lists of both its ends; twice into one for a loop. */
    method AddIncListNode(edge: Edge)
      requires Valid() && 0 <= edge.src.nodeId < numNodes && 0 <= edge.dst.nodeId < numNodes
      modifies this`incList
      ensures Valid()
      ensures forall i :: 0 <= i < numNodes ==>
        incList[i] == (if edge.dst.nodeId == i then [edge] else [])
                      + (if edge.src.nodeId == i then [edge] else []) + old(incList)[i]
    {
      var n1 := edge.src.nodeId;
      var n2 := edge.dst.nodeId;
      incList := incList[n1 := [edge] + incList[n1]];
      incList := incList[n2 := [edge] + incList[n2]];
    }

    method AdjListFind(n1: int, n2: int) returns (found: bool)
      requires Valid() && 0 <= n1 < numNodes
      ensures found <==> n2 in adjList[n1]
    {
      for k := 0 to |adjList[n1]|
        invariant n2 !in adjList[n1][..k]
      {
        if adjList[n1][k] == n2 { return true; }
      }
      found := false;
    }

    /** From any colouring with u white: the white-reachable nodes turn black, no other colour
        changes, and the predecessors form a tree on them. */
    method DFS(color: array<Color>, pi: array<int>, u: int)
      requires ValidAdj(adjList) && color.Length == pi.Length && |adjList| <= color.Length
      requires 0 <= u < |adjList| && color[u] == White
      modifies color, pi
      ensures Blackened(old(color[..]), color[..], WhiteReach(adjList, old(color[..]), u))
      ensures Tree(adjList, old(pi[..]), pi[..], WhiteReach(adjList, old(color[..]), u), u)
      decreases Whites(color[..])
    {
      hide Tree, WhiteReach;
      ghost var before, pi0 := color[..], pi[..];
      color[u] := Gray;
      ghost var done: set<int> := {};
      TreeStart(adjList, pi0, u);
      assert done + {u} == {u};
      var i := 0;
      while i < |adjList[u]|
        invariant i <= |adjList[u]|
        invariant Progress(adjList, before, color[..], done, u, i)
        invariant Tree(adjList, pi0, pi[..], done + {u}, u)
      {
        var v := adjList[u][i];
        if color[v] == White {
          ghost var now, pi1 := color[..], pi[..];
          ghost var q := WhiteReach(adjList, now, v);
          assert u in Whites(before) && u !in Whites(now) && Whites(now) <= Whites(before);
          pi[v] := u;
          assert pi[..] == pi1[v := u];
          DFS(color, pi, v);
          ProgressCall(adjList, before, now, color[..], done, u, i);
          TreeJoin(adjList, pi0, pi1, pi[..], done + {u}, u, q, v);
          assert (done + {u}) + q == (done + q) + {u};
          done := done + q;
        }
        i := i + 1;
      }
      ProgressEnd(adjList, before, color[..], done, u);
      ghost var last := color[..];
      color[u] := Black;
      assert color[..] == last[u := Black];
    }
  }
}
