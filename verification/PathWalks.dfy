/**
 What DoGather enumerates: the walks of the type graph that repeat no type, each once, in
 depth-first order, with the labels along the walk as the path.
 */
module PathWalks {
  import opened PathGather

  /** A walk is given by the positions of its edges in the step lists. */
  type Walk = seq<nat>

  function Target(r: Registry, a: Aggregates, t: TypeId, i: nat): (u: TypeId)
    requires ValidRegistry(r) && ValidAggregates(r, a) && t < |r.types| && i < |Steps(r, a, t)|
    ensures u < |r.types|
  {
    StepsValid(r, a, t);
    Steps(r, a, t)[i].target
  }

  predicate IsWalk(r: Registry, a: Aggregates, t: TypeId, w: Walk)
    requires ValidRegistry(r) && ValidAggregates(r, a) && t < |r.types|
    decreases |w|
  {
    w == [] || (w[0] < |Steps(r, a, t)| && IsWalk(r, a, Target(r, a, t, w[0]), w[1..]))
  }

  /** The types on the walk, its start included. */
  function Nodes(r: Registry, a: Aggregates, t: TypeId, w: Walk): (n: seq<TypeId>)
    requires ValidRegistry(r) && ValidAggregates(r, a) && t < |r.types| && IsWalk(r, a, t, w)
    ensures n != []
    decreases |w|
  {
    if w == [] then [t] else [t] + Nodes(r, a, Target(r, a, t, w[0]), w[1..])
  }

  function Labels(r: Registry, a: Aggregates, t: TypeId, w: Walk): seq<string>
    requires ValidRegistry(r) && ValidAggregates(r, a) && t < |r.types| && IsWalk(r, a, t, w)
    decreases |w|
  {
    if w == [] then [] else [Steps(r, a, t)[w[0]].via] + Labels(r, a, Target(r, a, t, w[0]), w[1..])
  }

  predicate Distinct(s: seq<TypeId>) {
    forall i, j :: 0 <= i < j < |s| ==> s[i] != s[j]
  }

  /** No type occurs twice on the walk, and none of them is already on the stack. */
  predicate Simple(r: Registry, a: Aggregates, t: TypeId, visited: seq<TypeId>, w: Walk)
    requires ValidRegistry(r) && ValidAggregates(r, a) && t < |r.types|
  {
    IsWalk(r, a, t, w) && Distinct(Nodes(r, a, t, w)) && forall x :: x in Nodes(r, a, t, w) ==> x !in visited
  }

  /** The entry that belongs to a walk: the type at its end, and the path so far with its labels. */
  function EntryOf(r: Registry, a: Aggregates, t: TypeId, path: seq<string>, w: Walk): Entry
    requires ValidRegistry(r) && ValidAggregates(r, a) && t < |r.types| && IsWalk(r, a, t, w)
  {
    var n := Nodes(r, a, t, w);
    (n[|n| - 1], Render(path + Labels(r, a, t, w)))
  }

  // ---------- The list of walks ----------

  function Prefixed(i: nat, ws: seq<Walk>): (r: seq<Walk>)
    ensures |r| == |ws| && forall j :: 0 <= j < |ws| ==> r[j] == [i] + ws[j]
  {
    seq(|ws|, j requires 0 <= j < |ws| => [i] + ws[j])
  }

  /** The simple walks from t that avoid the stack, in depth-first order. */
  function Walks(r: Registry, a: Aggregates, t: TypeId, visited: seq<TypeId>): seq<Walk>
    requires ValidRegistry(r) && ValidAggregates(r, a) && t < |r.types|
    decreases Room(r, visited), 0
  {
    if t in visited then []
    else
      VisitLess(r, visited, t);
      [[]] + Flatten(WalkParts(r, a, t, visited + [t]))
  }

  function WalkParts(r: Registry, a: Aggregates, t: TypeId, visited: seq<TypeId>): (parts: seq<seq<Walk>>)
    requires ValidRegistry(r) && ValidAggregates(r, a) && t < |r.types|
    ensures |parts| == |Steps(r, a, t)|
    decreases Room(r, visited), 1
  {
    seq(|Steps(r, a, t)|, i requires 0 <= i < |Steps(r, a, t)| => Prefixed(i, Walks(r, a, Target(r, a, t, i), visited)))
  }

  lemma {:induction false} InFlatten<T>(parts: seq<seq<T>>, x: T)
    ensures x in Flatten(parts) <==> exists i :: 0 <= i < |parts| && x in parts[i]
    decreases |parts|
  {
    if parts != [] {
      var n := |parts| - 1;
      InFlatten(parts[..n], x);
      assert forall i :: 0 <= i < n ==> parts[..n][i] == parts[i];
    }
  }

  // ---------- The list holds exactly the simple walks ----------

  lemma {:induction false} SimpleStep(r: Registry, a: Aggregates, t: TypeId, visited: seq<TypeId>, i: nat, w: Walk)
    requires ValidRegistry(r) && ValidAggregates(r, a) && t < |r.types| && i < |Steps(r, a, t)|
    ensures Simple(r, a, t, visited, [i] + w) <==> t !in visited && Simple(r, a, Target(r, a, t, i), visited + [t], w)
  {
    var u := Target(r, a, t, i);
    var v := [i] + w;
    assert v[0] == i && v[1..] == w;
    if IsWalk(r, a, u, w) {
      var n, m := Nodes(r, a, u, w), Nodes(r, a, t, v);
      assert m == [t] + n;
      if t !in visited && Simple(r, a, u, visited + [t], w) {
        forall j, k | 0 <= j < k < |m|
          ensures m[j] != m[k]
        {
          assert m[k] == n[k - 1] && n[k - 1] in n;
        }
      }
      if Simple(r, a, t, visited, v) {
        assert m[0] == t && t in m;
        forall x | x in n
          ensures x !in visited + [t]
        {
          var k :| 0 <= k < |n| && n[k] == x;
          assert m[k + 1] == x && m[0] != m[k + 1];
        }
        forall j, k | 0 <= j < k < |n|
          ensures n[j] != n[k]
        {
          assert m[j + 1] == n[j] && m[k + 1] == n[k];
        }
      }
    }
  }

  lemma {:induction false} StartOnStack(r: Registry, a: Aggregates, t: TypeId, visited: seq<TypeId>, w: Walk)
    requires ValidRegistry(r) && ValidAggregates(r, a) && t < |r.types|
    ensures t in visited ==> !Simple(r, a, t, visited, w)
    ensures Simple(r, a, t, visited, []) <==> t !in visited
  {
    assert Nodes(r, a, t, []) == [t];
    if IsWalk(r, a, t, w) {
      assert Nodes(r, a, t, w)[0] == t;
    }
  }

  lemma {:induction false} WalksFrom(r: Registry, a: Aggregates, t: TypeId, visited: seq<TypeId>, w: Walk)
    requires ValidRegistry(r) && ValidAggregates(r, a) && t < |r.types|
    ensures w in Walks(r, a, t, visited)
       <==> t !in visited && (w == [] || w in Flatten(WalkParts(r, a, t, visited + [t])))
  {
    hide WalkParts, Flatten, Steps;
    if t !in visited {
      assert Walks(r, a, t, visited)[0] == [];
    }
  }

  /** A walk is in the list exactly when it is simple. */
  lemma {:induction false} WalksAreTheSimpleOnes(r: Registry, a: Aggregates, t: TypeId, visited: seq<TypeId>, w: Walk)
    requires ValidRegistry(r) && ValidAggregates(r, a) && t < |r.types|
    ensures w in Walks(r, a, t, visited) <==> Simple(r, a, t, visited, w)
    decreases |w|
  {
    hide Walks, WalkParts, Flatten, Steps, Nodes;
    StartOnStack(r, a, t, visited, w);
    WalksFrom(r, a, t, visited, w);
    if t !in visited && w != [] {
      InWalkParts(r, a, t, visited + [t], w);
      if w[0] < |Steps(r, a, t)| {
        assert w == [w[0]] + w[1..];
        SimpleStep(r, a, t, visited, w[0], w[1..]);
        WalksAreTheSimpleOnes(r, a, Target(r, a, t, w[0]), visited + [t], w[1..]);
      }
    }
  }

  lemma {:induction false} InWalkParts(r: Registry, a: Aggregates, t: TypeId, visited: seq<TypeId>, w: Walk)
    requires ValidRegistry(r) && ValidAggregates(r, a) && t < |r.types| && w != []
    ensures w in Flatten(WalkParts(r, a, t, visited))
       <==> w[0] < |Steps(r, a, t)| && w[1..] in Walks(r, a, Target(r, a, t, w[0]), visited)
  {
    hide Walks, Steps, Flatten;
    var parts := WalkParts(r, a, t, visited);
    InFlatten(parts, w);
    forall j | 0 <= j < |parts|
      ensures w in parts[j] <==> j == w[0] && w[1..] in Walks(r, a, Target(r, a, t, j), visited)
    {
      InPrefixed(j, Walks(r, a, Target(r, a, t, j), visited), w);
    }
  }

  lemma {:induction false} InPrefixed(i: nat, ws: seq<Walk>, w: Walk)
    requires w != []
    ensures w in Prefixed(i, ws) <==> w[0] == i && w[1..] in ws
  {
    if w[0] == i && w[1..] in ws {
      var j :| 0 <= j < |ws| && ws[j] == w[1..];
      assert Prefixed(i, ws)[j] == w;
    }
  }

  // ---------- Each once, in depth-first order ----------

  /** v comes before w: it is a proper prefix of w, or smaller where they first differ. */
  predicate Before(v: Walk, w: Walk)
    decreases |v|
  {
    w != [] && (v == [] || v[0] < w[0] || (v[0] == w[0] && Before(v[1..], w[1..])))
  }

  lemma {:induction false} NotBeforeItself(v: Walk)
    ensures !Before(v, v)
    decreases |v|
  {
    if v != [] { NotBeforeItself(v[1..]); }
  }

  predicate Ordered(ws: seq<Walk>) {
    forall i, j :: 0 <= i < j < |ws| ==> Before(ws[i], ws[j])
  }

  predicate StartWith(k: nat, ws: seq<Walk>) {
    forall j :: 0 <= j < |ws| ==> ws[j] != [] && ws[j][0] == k
  }

  /** Lists whose k-th part is ordered and holds walks that start with edge k. */
  lemma {:induction false} OrderedFlatten(parts: seq<seq<Walk>>)
    requires forall k :: 0 <= k < |parts| ==> Ordered(parts[k])
    requires forall k :: 0 <= k < |parts| ==> StartWith(k, parts[k])
    ensures Ordered(Flatten(parts))
    ensures forall j :: 0 <= j < |Flatten(parts)| ==> Flatten(parts)[j] != [] && Flatten(parts)[j][0] < |parts|
    decreases |parts|
  {
    if parts != [] {
      var n := |parts| - 1;
      var front := parts[..n];
      assert forall k :: 0 <= k < n ==> front[k] == parts[k];
      OrderedFlatten(front);
      var x, y := Flatten(front), parts[n];
      forall i, j | 0 <= i < j < |x + y|
        ensures Before((x + y)[i], (x + y)[j])
      {
        if i < |x| && j >= |x| {
          assert StartWith(n, y);
          assert x[i][0] < n && y[j - |x|][0] == n;
        } else if i >= |x| {
          assert Ordered(y) && Before(y[i - |x|], y[j - |x|]);
        }
      }
    }
  }

  lemma {:induction false} WalksOrdered(r: Registry, a: Aggregates, t: TypeId, visited: seq<TypeId>)
    requires ValidRegistry(r) && ValidAggregates(r, a) && t < |r.types|
    ensures Ordered(Walks(r, a, t, visited))
    decreases Room(r, visited)
  {
    if t !in visited {
      VisitLess(r, visited, t);
      var parts := WalkParts(r, a, t, visited + [t]);
      forall k | 0 <= k < |parts|
        ensures Ordered(parts[k])
      {
        var ws := Walks(r, a, Target(r, a, t, k), visited + [t]);
        WalksOrdered(r, a, Target(r, a, t, k), visited + [t]);
        forall i, j | 0 <= i < j < |ws|
          ensures Before(parts[k][i], parts[k][j])
        {
          assert parts[k][i][1..] == ws[i] && parts[k][j][1..] == ws[j];
        }
      }
      OrderedFlatten(parts);
      var f := Flatten(parts);
      forall i, j | 0 <= i < j < |[[]] + f|
        ensures Before(([[]] + f)[i], ([[]] + f)[j])
      {
        assert f[j - 1] != [];
      }
    }
  }

  // ---------- The output is the list of their entries ----------

  predicate AllWalks(r: Registry, a: Aggregates, t: TypeId, ws: seq<Walk>)
    requires ValidRegistry(r) && ValidAggregates(r, a) && t < |r.types|
  {
    forall j :: 0 <= j < |ws| ==> IsWalk(r, a, t, ws[j])
  }

  function Entries(r: Registry, a: Aggregates, t: TypeId, path: seq<string>, ws: seq<Walk>): seq<Entry>
    requires ValidRegistry(r) && ValidAggregates(r, a) && t < |r.types| && AllWalks(r, a, t, ws)
  {
    seq(|ws|, j requires 0 <= j < |ws| => EntryOf(r, a, t, path, ws[j]))
  }

  lemma {:induction false} WalksAreWalks(r: Registry, a: Aggregates, t: TypeId, visited: seq<TypeId>)
    requires ValidRegistry(r) && ValidAggregates(r, a) && t < |r.types|
    ensures AllWalks(r, a, t, Walks(r, a, t, visited))
  {
    var ws := Walks(r, a, t, visited);
    forall j | 0 <= j < |ws|
      ensures IsWalk(r, a, t, ws[j])
    {
      WalksAreTheSimpleOnes(r, a, t, visited, ws[j]);
    }
  }

  lemma {:induction false} EntryStep(r: Registry, a: Aggregates, t: TypeId, path: seq<string>, i: nat, w: Walk)
    requires ValidRegistry(r) && ValidAggregates(r, a) && t < |r.types| && i < |Steps(r, a, t)|
    requires IsWalk(r, a, Target(r, a, t, i), w)
    ensures IsWalk(r, a, t, [i] + w)
    ensures EntryOf(r, a, t, path, [i] + w) == EntryOf(r, a, Target(r, a, t, i), path + [Steps(r, a, t)[i].via], w)
  {
    var v := [i] + w;
    assert v[0] == i && v[1..] == w;
    var via, rest := Steps(r, a, t)[i].via, Labels(r, a, Target(r, a, t, i), w);
    assert path + ([via] + rest) == path + [via] + rest;
  }

  lemma {:induction false} EntriesConcat(r: Registry, a: Aggregates, t: TypeId, path: seq<string>, v: seq<Walk>, w: seq<Walk>)
    requires ValidRegistry(r) && ValidAggregates(r, a) && t < |r.types| && AllWalks(r, a, t, v) && AllWalks(r, a, t, w)
    ensures AllWalks(r, a, t, v + w)
    ensures Entries(r, a, t, path, v + w) == Entries(r, a, t, path, v) + Entries(r, a, t, path, w)
  {
    hide IsWalk, EntryOf, Steps;
    var u := v + w;
    forall j | 0 <= j < |u|
      ensures IsWalk(r, a, t, u[j])
    {
      assert u[j] == if j < |v| then v[j] else w[j - |v|];
    }
    var e, f := Entries(r, a, t, path, v), Entries(r, a, t, path, w);
    forall j | 0 <= j < |u|
      ensures (e + f)[j] == EntryOf(r, a, t, path, u[j])
    {
      assert j >= |v| ==> (e + f)[j] == f[j - |v|] && u[j] == w[j - |v|];
    }
  }

  lemma {:induction false} EntriesFlatten(r: Registry, a: Aggregates, t: TypeId, path: seq<string>,
                                          parts: seq<seq<Entry>>, walks: seq<seq<Walk>>)
    requires ValidRegistry(r) && ValidAggregates(r, a) && t < |r.types| && |parts| == |walks|
    requires forall i :: 0 <= i < |parts| ==> AllWalks(r, a, t, walks[i]) && parts[i] == Entries(r, a, t, path, walks[i])
    ensures AllWalks(r, a, t, Flatten(walks)) && Flatten(parts) == Entries(r, a, t, path, Flatten(walks))
    decreases |parts|
  {
    if parts != [] {
      var n := |parts| - 1;
      EntriesFlatten(r, a, t, path, parts[..n], walks[..n]);
      EntriesConcat(r, a, t, path, Flatten(walks[..n]), walks[n]);
    }
  }

  lemma {:induction false} PartEntries(r: Registry, a: Aggregates, t: TypeId, path: seq<string>, visited: seq<TypeId>, i: nat)
    requires ValidRegistry(r) && ValidAggregates(r, a) && t < |r.types| && i < |Steps(r, a, t)|
    ensures AllWalks(r, a, t, WalkParts(r, a, t, visited)[i])
    ensures ValidSteps(r, Steps(r, a, t))
    ensures Parts(r, a, Steps(r, a, t), path, visited)[i] == Entries(r, a, t, path, WalkParts(r, a, t, visited)[i])
    decreases Room(r, visited), 1
  {
    StepsValid(r, a, t);
    var u, p := Target(r, a, t, i), path + [Steps(r, a, t)[i].via];
    OutputIsEntries(r, a, u, p, visited);
    WalksAreWalks(r, a, u, visited);
    var ws := Walks(r, a, u, visited);
    forall j | 0 <= j < |ws|
      ensures IsWalk(r, a, t, [i] + ws[j]) && EntryOf(r, a, t, path, [i] + ws[j]) == EntryOf(r, a, u, p, ws[j])
    {
      EntryStep(r, a, t, path, i, ws[j]);
    }
    assert Entries(r, a, u, p, ws) == Entries(r, a, t, path, Prefixed(i, ws));
  }

  lemma {:induction false} NoStep(r: Registry, a: Aggregates, t: TypeId, path: seq<string>)
    requires ValidRegistry(r) && ValidAggregates(r, a) && t < |r.types|
    ensures AllWalks(r, a, t, [[]]) && Entries(r, a, t, path, [[]]) == [(t, Render(path))]
  {
    assert path + [] == path;
    assert Labels(r, a, t, []) == [] && Nodes(r, a, t, []) == [t];
  }

  /** What a call of DoGather appends is the list of the entries of its walks. */
  lemma {:induction false} OutputIsEntries(r: Registry, a: Aggregates, t: TypeId, path: seq<string>, visited: seq<TypeId>)
    requires ValidRegistry(r) && ValidAggregates(r, a) && t < |r.types|
    ensures AllWalks(r, a, t, Walks(r, a, t, visited))
    ensures Gathered(r, a, t, path, visited) == Entries(r, a, t, path, Walks(r, a, t, visited))
    decreases Room(r, visited), 0
  {
    WalksAreWalks(r, a, t, visited);
    if t !in visited {
      VisitLess(r, visited, t);
      StepsValid(r, a, t);
      var parts := Parts(r, a, Steps(r, a, t), path, visited + [t]);
      var walks := WalkParts(r, a, t, visited + [t]);
      forall i | 0 <= i < |parts|
        ensures AllWalks(r, a, t, walks[i]) && parts[i] == Entries(r, a, t, path, walks[i])
      {
        PartEntries(r, a, t, path, visited + [t], i);
      }
      EntriesFlatten(r, a, t, path, parts, walks);
      NoStep(r, a, t, path);
      EntriesConcat(r, a, t, path, [[]], Flatten(walks));
    }
  }

  // ---------- The result of gathering from a root ----------

  lemma {:induction false} InPathsOf(output: seq<Entry>, t: TypeId, p: string)
    ensures p in PathsOf(output, t) <==> (t, p) in output
    decreases |output|
  {
    if output != [] {
      var n := |output| - 1;
      InPathsOf(output[..n], t, p);
      assert output == output[..n] + [output[n]];
    }
  }

  /** After gathering from a root with empty stacks and an empty output, the paths recorded for a
      type are exactly the renderings of the simple walks from the root to it. */
  lemma {:induction false} PathsAreSimpleWalks(r: Registry, a: Aggregates, root: TypeId, t: TypeId, p: string)
    requires ValidRegistry(r) && ValidAggregates(r, a) && root < |r.types|
    ensures p in PathsOf(Gathered(r, a, root, [], []), t)
       <==> exists w :: Simple(r, a, root, [], w) && EntryOf(r, a, root, [], w) == (t, p)
  {
    hide Gathered, Walks, PathsOf, IsWalk, Nodes, Labels, Render;
    var ws := Walks(r, a, root, []);
    OutputIsEntries(r, a, root, [], []);
    var out := Gathered(r, a, root, [], []);
    InPathsOf(out, t, p);
    if (t, p) in out {
      var j :| 0 <= j < |out| && out[j] == (t, p);
      WalksAreTheSimpleOnes(r, a, root, [], ws[j]);
    }
    if w :| Simple(r, a, root, [], w) && EntryOf(r, a, root, [], w) == (t, p) {
      WalksAreTheSimpleOnes(r, a, root, [], w);
      var j :| 0 <= j < |ws| && ws[j] == w;
      assert out[j] == (t, p);
    }
  }

  /** One entry per simple walk: the output is as long as the list of walks, the j-th entry belongs
      to the j-th walk, and no walk is listed twice. */
  lemma {:induction false} OneEntryPerWalk(r: Registry, a: Aggregates, root: TypeId)
    requires ValidRegistry(r) && ValidAggregates(r, a) && root < |r.types|
    ensures var ws, out := Walks(r, a, root, []), Gathered(r, a, root, [], []);
      && |out| == |ws|
      && (forall j :: 0 <= j < |ws| ==> Simple(r, a, root, [], ws[j]) && out[j] == EntryOf(r, a, root, [], ws[j]))
      && (forall w :: Simple(r, a, root, [], w) ==> w in ws)
      && (forall i, j :: 0 <= i < j < |ws| ==> ws[i] != ws[j])
  {
    hide Gathered, Walks, IsWalk, Nodes, Labels, Render;
    OutputIsEntries(r, a, root, [], []);
    WalksOrdered(r, a, root, []);
    var ws := Walks(r, a, root, []);
    forall w: Walk
      ensures w in ws <==> Simple(r, a, root, [], w)
    {
      WalksAreTheSimpleOnes(r, a, root, [], w);
    }
    forall i, j | 0 <= i < j < |ws|
      ensures ws[i] != ws[j]
    {
      NotBeforeItself(ws[i]);
    }
  }
}
