/**
 The configuration paths collected by ns-3/utils/print-introspected-doxygen.cc: DoGather walks
 the graph of types, using the stack of types on the current path as its visited set.
 */
module PathGather {
  import opened Common

  // ---------- The type registry ----------

  type TypeId = nat

  /** What an attribute may hold: a pointer, a container of pointers, or something else. */
  datatype Checker = PointerTo(pointee: TypeId) | ContainerOf(item: TypeId) | Plain

  datatype Attribute = Attribute(name: string, checker: Checker)

  /** height is the number of parents above the type; the root is its own parent. */
  datatype TypeInfo = TypeInfo(name: string, attributes: seq<Attribute>, parent: TypeId, height: nat)

  datatype Registry = Registry(types: seq<TypeInfo>, objectType: TypeId)

  predicate ValidAttribute(r: Registry, a: Attribute) {
    match a.checker
    case PointerTo(t) => t < |r.types|
    case ContainerOf(t) => t < |r.types|
    case Plain => true
  }

  predicate ValidType(r: Registry, t: TypeId)
    requires t < |r.types|
  {
    var p := r.types[t].parent;
    && (p == t || (p < |r.types| && r.types[p].height < r.types[t].height))
    && forall i :: 0 <= i < |r.types[t].attributes| ==> ValidAttribute(r, r.types[t].attributes[i])
  }

  predicate ValidRegistry(r: Registry) {
    forall t :: 0 <= t < |r.types| ==> ValidType(r, t)
  }

  type Aggregates = seq<(TypeId, TypeId)>

  predicate ValidAggregates(r: Registry, a: Aggregates) {
    forall i :: 0 <= i < |a| ==> a[i].0 < |r.types| && a[i].1 < |r.types|
  }

  /** The first of t, its parent, the parent of that, ... that is other or has no parent. */
  function Climb(r: Registry, t: TypeId, other: TypeId): TypeId
    requires ValidRegistry(r) && t < |r.types|
    decreases r.types[t].height
  {
    assert ValidType(r, t);
    if t == other || r.types[t].parent == t then t else Climb(r, r.types[t].parent, other)
  }

  predicate IsChildOf(r: Registry, t: TypeId, other: TypeId)
    requires ValidRegistry(r) && t < |r.types|
  {
    Climb(r, t, other) == other && t != other
  }

  // ---------- The labelled edges of a type ----------

  datatype Step = Step(via: string, target: TypeId)

  /** A pointer to ns3::Object itself is not followed. */
  function AttributeStep(r: Registry, a: Attribute): seq<Step> {
    match a.checker
    case PointerTo(t) => if t == r.objectType then [] else [Step(a.name, t)]
    case ContainerOf(t) => [Step(a.name + "/[i]", t)]
    case Plain => []
  }

  function AttributeSteps(r: Registry, t: TypeId, n: nat): seq<Step>
    requires t < |r.types| && n <= |r.types[t].attributes|
  {
    if n == 0 then [] else AttributeSteps(r, t, n - 1) + AttributeStep(r, r.types[t].attributes[n - 1])
  }

  function ChildStep(r: Registry, t: TypeId, child: TypeId): seq<Step>
    requires ValidRegistry(r) && child < |r.types|
  {
    if IsChildOf(r, child, t) then [Step("$" + r.types[child].name, child)] else []
  }

  function ChildSteps(r: Registry, t: TypeId, n: nat): seq<Step>
    requires ValidRegistry(r) && n <= |r.types|
  {
    if n == 0 then [] else ChildSteps(r, t, n - 1) + ChildStep(r, t, n - 1)
  }

  function AggregateStep(r: Registry, t: TypeId, pair: (TypeId, TypeId)): seq<Step>
    requires pair.0 < |r.types| && pair.1 < |r.types|
  {
    if pair.1 == t then [Step("$" + r.types[pair.0].name, pair.0)]
    else if pair.0 == t then [Step("$" + r.types[pair.1].name, pair.1)]
    else []
  }

  function AggregateSteps(r: Registry, a: Aggregates, t: TypeId, n: nat): seq<Step>
    requires ValidAggregates(r, a) && n <= |a|
  {
    if n == 0 then [] else AggregateSteps(r, a, t, n - 1) + AggregateStep(r, t, a[n - 1])
  }

  /** All edges of t: attributes, then children, then aggregates. */
  function Steps(r: Registry, a: Aggregates, t: TypeId): seq<Step>
    requires ValidRegistry(r) && ValidAggregates(r, a) && t < |r.types|
  {
    AttributeSteps(r, t, |r.types[t].attributes|) + ChildSteps(r, t, |r.types|) + AggregateSteps(r, a, t, |a|)
  }

  predicate ValidSteps(r: Registry, ss: seq<Step>) {
    forall i :: 0 <= i < |ss| ==> ss[i].target < |r.types|
  }

  lemma {:induction false} AttributeStepsValid(r: Registry, t: TypeId, n: nat)
    requires ValidRegistry(r) && t < |r.types| && n <= |r.types[t].attributes|
    ensures ValidSteps(r, AttributeSteps(r, t, n))
    decreases n
  {
    if n > 0 {
      AttributeStepsValid(r, t, n - 1);
      assert ValidType(r, t);
    }
  }

  lemma {:induction false} ChildStepsValid(r: Registry, t: TypeId, n: nat)
    requires ValidRegistry(r) && n <= |r.types|
    ensures ValidSteps(r, ChildSteps(r, t, n))
    decreases n
  {
    if n > 0 { ChildStepsValid(r, t, n - 1); }
  }

  lemma {:induction false} AggregateStepsValid(r: Registry, a: Aggregates, t: TypeId, n: nat)
    requires ValidAggregates(r, a) && n <= |a|
    ensures ValidSteps(r, AggregateSteps(r, a, t, n))
    decreases n
  {
    if n > 0 { AggregateStepsValid(r, a, t, n - 1); }
  }

  lemma {:induction false} StepsValid(r: Registry, a: Aggregates, t: TypeId)
    requires ValidRegistry(r) && ValidAggregates(r, a) && t < |r.types|
    ensures ValidSteps(r, Steps(r, a, t))
  {
    AttributeStepsValid(r, t, |r.types[t].attributes|);
    ChildStepsValid(r, t, |r.types|);
    AggregateStepsValid(r, a, t, |a|);
  }

  // ---------- The edges spelled out ----------

  /** A chain of parents leads from t up to other. */
  ghost predicate Descends(r: Registry, t: TypeId, other: TypeId) {
    exists chain: seq<TypeId> :: IsChain(r, chain, t, other)
  }

  ghost predicate IsChain(r: Registry, chain: seq<TypeId>, t: TypeId, other: TypeId) {
    && chain != [] && chain[0] == t && chain[|chain| - 1] == other
    && (forall i :: 0 <= i < |chain| ==> chain[i] < |r.types|)
    && forall i :: 0 <= i < |chain| - 1 ==> chain[i + 1] == r.types[chain[i]].parent
  }

  lemma {:induction false} ClimbIsChain(r: Registry, t: TypeId, other: TypeId)
    requires ValidRegistry(r) && t < |r.types|
    ensures Climb(r, t, other) == other <==> Descends(r, t, other)
    decreases r.types[t].height
  {
    assert ValidType(r, t);
    var p := r.types[t].parent;
    if t == other {
      assert IsChain(r, [t], t, other);
    } else if p == t {
      if chain: seq<TypeId> :| IsChain(r, chain, t, other) {
        RootChain(r, chain, t);
      }
    } else {
      ClimbIsChain(r, p, other);
      if chain: seq<TypeId> :| IsChain(r, chain, p, other) {
        assert IsChain(r, [t] + chain, t, other);
      }
      if chain: seq<TypeId> :| IsChain(r, chain, t, other) {
        assert chain[1] == p && IsChain(r, chain[1..], p, other);
      }
    }
  }

  /** A chain from a type without a parent of its own stays there. */
  lemma {:induction false} RootChain(r: Registry, chain: seq<TypeId>, t: TypeId)
    requires t < |r.types| && r.types[t].parent == t && chain != [] && chain[0] == t
    requires forall i :: 0 <= i < |chain| ==> chain[i] < |r.types|
    requires forall i :: 0 <= i < |chain| - 1 ==> chain[i + 1] == r.types[chain[i]].parent
    ensures chain[|chain| - 1] == t
    decreases |chain|
  {
    if |chain| > 1 {
      RootChain(r, chain[1..], t);
    }
  }

  /** The edge leads to a type below t and is labelled with that type's name. */
  ghost predicate IsChildEdge(r: Registry, s: Step, t: TypeId) {
    s.target < |r.types| && s.target != t && Descends(r, s.target, t) && s.via == "$" + r.types[s.target].name
  }

  /** Such edges to all types below t with numbers under n, in the order of the registry. */
  ghost predicate ChildPart(r: Registry, t: TypeId, n: nat, ss: seq<Step>) {
    && (forall i :: 0 <= i < |ss| ==> IsChildEdge(r, ss[i], t) && ss[i].target < n)
    && (forall i, j :: 0 <= i < j < |ss| ==> ss[i].target < ss[j].target)
    && (forall u: TypeId :: u < n && u != t && Descends(r, u, t) ==> LeadsTo(ss, u))
  }

  predicate LeadsTo(ss: seq<Step>, u: TypeId) {
    exists i :: 0 <= i < |ss| && ss[i].target == u
  }

  lemma {:induction false} LeadsToPush(ss: seq<Step>, s: Step)
    ensures forall u :: LeadsTo(ss + [s], u) <==> LeadsTo(ss, u) || u == s.target
  {
    forall u
      ensures LeadsTo(ss + [s], u) <==> LeadsTo(ss, u) || u == s.target
    {
      assert (ss + [s])[|ss|] == s;
      if LeadsTo(ss, u) {
        var i :| 0 <= i < |ss| && ss[i].target == u;
        assert (ss + [s])[i].target == u;
      }
    }
  }

  lemma {:induction false} ChildPush(r: Registry, t: TypeId, n: nat, ss: seq<Step>)
    requires ChildPart(r, t, n, ss) && n < |r.types| && n != t && Descends(r, n, t)
    ensures ChildPart(r, t, n + 1, ss + [Step("$" + r.types[n].name, n)])
  {
    hide Descends;
    LeadsToPush(ss, Step("$" + r.types[n].name, n));
    hide LeadsTo;
  }

  lemma {:induction false} ChildSkip(r: Registry, t: TypeId, n: nat, ss: seq<Step>)
    requires ChildPart(r, t, n, ss) && !(n != t && Descends(r, n, t))
    ensures ChildPart(r, t, n + 1, ss)
  {
    hide Descends, LeadsTo;
  }

  lemma {:induction false} ChildrenOf(r: Registry, t: TypeId, n: nat)
    requires ValidRegistry(r) && t < |r.types| && n <= |r.types|
    ensures ChildPart(r, t, n, ChildSteps(r, t, n))
    decreases n
  {
    if n == 0 {
      hide Descends;
    } else {
      ChildrenOf(r, t, n - 1);
      ClimbIsChain(r, n - 1, t);
      hide Descends, Climb, ChildPart, ValidRegistry;
      var before := ChildSteps(r, t, n - 1);
      if n - 1 != t && Descends(r, n - 1, t) {
        ChildPush(r, t, n - 1, before);
      } else {
        ChildSkip(r, t, n - 1, before);
        assert before + [] == before;
      }
    }
  }

  /** An attribute that is followed: a container, or a pointer to something other than Object. */
  predicate IsFollowed(r: Registry, a: Attribute) {
    a.checker.ContainerOf? || (a.checker.PointerTo? && a.checker.pointee != r.objectType)
  }

  /** The edge of attribute a: to what it points to, or to what it contains. */
  predicate IsAttributeEdge(a: Attribute, s: Step) {
    || (a.checker.PointerTo? && s == Step(a.name, a.checker.pointee))
    || (a.checker.ContainerOf? && s == Step(a.name + "/[i]", a.checker.item))
  }

  function Followed(r: Registry, t: TypeId, n: nat): set<nat>
    requires t < |r.types| && n <= |r.types[t].attributes|
  {
    set k: nat | k < n && IsFollowed(r, r.types[t].attributes[k])
  }

  /** idx lists the first n attributes of t that are followed, and ss their edges, in order. */
  ghost predicate AttributePart(r: Registry, t: TypeId, n: nat, ss: seq<Step>, idx: seq<nat>)
    requires t < |r.types| && n <= |r.types[t].attributes|
  {
    && |idx| == |ss| && Lists(Followed(r, t, n), idx)
    && forall i :: 0 <= i < |ss| ==> idx[i] < n && IsAttributeEdge(r.types[t].attributes[idx[i]], ss[i])
  }

  lemma {:induction false} AttributesOf(r: Registry, t: TypeId, n: nat) returns (idx: seq<nat>)
    requires t < |r.types| && n <= |r.types[t].attributes|
    ensures AttributePart(r, t, n, AttributeSteps(r, t, n), idx)
    decreases n
  {
    if n == 0 {
      idx := [];
    } else {
      idx := AttributesOf(r, t, n - 1);
      var s := Followed(r, t, n - 1);
      if IsFollowed(r, r.types[t].attributes[n - 1]) {
        ListsPush(s, idx, n - 1);
        assert Followed(r, t, n) == s + {n - 1};
        hide Lists, Followed;
        idx := idx + [n - 1];
      } else {
        assert Followed(r, t, n) == s;
      }
    }
  }

  /** The edge of the pair leads from t to the other type of the pair and bears its name. */
  predicate IsAggregateEdge(r: Registry, pair: (TypeId, TypeId), t: TypeId, s: Step) {
    s.target < |r.types| && s.via == "$" + r.types[s.target].name && (pair == (t, s.target) || pair == (s.target, t))
  }

  function PairsWith(a: Aggregates, t: TypeId, n: nat): set<nat>
    requires n <= |a|
  {
    set k: nat | k < n && (a[k].0 == t || a[k].1 == t)
  }

  /** idx lists the first n pairs that t is in, and ss their edges, in order. */
  ghost predicate AggregatePart(r: Registry, a: Aggregates, t: TypeId, n: nat, ss: seq<Step>, idx: seq<nat>)
    requires n <= |a|
  {
    && |idx| == |ss| && Lists(PairsWith(a, t, n), idx)
    && forall i :: 0 <= i < |ss| ==> idx[i] < n && IsAggregateEdge(r, a[idx[i]], t, ss[i])
  }

  lemma {:induction false} PairPush(r: Registry, a: Aggregates, t: TypeId, n: nat, ss: seq<Step>, idx: seq<nat>, s: Step)
    requires n < |a| && AggregatePart(r, a, t, n, ss, idx) && IsAggregateEdge(r, a[n], t, s)
    ensures AggregatePart(r, a, t, n + 1, ss + [s], idx + [n])
  {
    ListsPush(PairsWith(a, t, n), idx, n);
    assert PairsWith(a, t, n + 1) == PairsWith(a, t, n) + {n};
    hide Lists, PairsWith, IsAggregateEdge;
  }

  lemma {:induction false} AggregatesOf(r: Registry, a: Aggregates, t: TypeId, n: nat) returns (idx: seq<nat>)
    requires ValidAggregates(r, a) && n <= |a|
    ensures AggregatePart(r, a, t, n, AggregateSteps(r, a, t, n), idx)
    decreases n
  {
    if n == 0 {
      idx := [];
    } else {
      idx := AggregatesOf(r, a, t, n - 1);
      var before := AggregateSteps(r, a, t, n - 1);
      if a[n - 1].0 == t || a[n - 1].1 == t {
        PairPush(r, a, t, n - 1, before, idx, AggregateStep(r, t, a[n - 1])[0]);
        hide AggregatePart;
        idx := idx + [n - 1];
      } else {
        assert PairsWith(a, t, n) == PairsWith(a, t, n - 1);
        assert before + [] == before;
      }
    }
  }

  /** The edges of t: its followed attributes, then the types below it, then those aggregated with it. */
  lemma {:induction false} EdgesOf(r: Registry, a: Aggregates, t: TypeId)
    returns (x: seq<Step>, y: seq<Step>, z: seq<Step>, followed: seq<nat>, pairs: seq<nat>)
    requires ValidRegistry(r) && ValidAggregates(r, a) && t < |r.types|
    ensures Steps(r, a, t) == x + y + z
    ensures AttributePart(r, t, |r.types[t].attributes|, x, followed)
    ensures ChildPart(r, t, |r.types|, y)
    ensures AggregatePart(r, a, t, |a|, z, pairs)
  {
    followed := AttributesOf(r, t, |r.types[t].attributes|);
    ChildrenOf(r, t, |r.types|);
    pairs := AggregatesOf(r, a, t, |a|);
    x, y, z := AttributeSteps(r, t, |r.types[t].attributes|), ChildSteps(r, t, |r.types|), AggregateSteps(r, a, t, |a|);
  }

  // ---------- Paths and the recursion of DoGather ----------

  function Render(path: seq<string>): string
    decreases |path|
  {
    if path == [] then "" else Render(path[..|path| - 1]) + "/" + path[|path| - 1]
  }

  /** Each element comes after a slash, in order. */
  lemma {:induction false} RenderConcat(a: seq<string>, b: seq<string>)
    ensures Render(a + b) == Render(a) + Render(b)
    ensures forall name :: Render([name]) == "/" + name
    decreases |b|
  {
    forall name: string
      ensures Render([name]) == "/" + name
    {
      assert [name][..0] == [];
    }
    if b == [] {
      assert a + b == a;
    } else {
      var n := |b| - 1;
      RenderConcat(a, b[..n]);
      assert (a + b)[..|a| + n] == a + b[..n];
    }
  }

  /** The types that are not on the stack. */
  function Unvisited(r: Registry, visited: seq<TypeId>): set<TypeId> {
    set t | 0 <= t < |r.types| && t !in visited
  }

  function Room(r: Registry, visited: seq<TypeId>): nat { |Unvisited(r, visited)| }

  lemma {:induction false} VisitLess(r: Registry, visited: seq<TypeId>, t: TypeId)
    requires t < |r.types| && t !in visited
    ensures Room(r, visited + [t]) < Room(r, visited)
  {
    assert Unvisited(r, visited) == Unvisited(r, visited + [t]) + {t};
  }

  type Entry = (TypeId, string)

  function Flatten<T>(parts: seq<seq<T>>): seq<T>
    decreases |parts|
  {
    if parts == [] then [] else Flatten(parts[..|parts| - 1]) + parts[|parts| - 1]
  }

  lemma {:induction false} FlattenPush<T>(parts: seq<seq<T>>, p: seq<T>)
    ensures Flatten(parts + [p]) == Flatten(parts) + p
  {
    assert (parts + [p])[..|parts|] == parts;
  }

  lemma {:induction false} FlattenConcat<T>(p: seq<seq<T>>, q: seq<seq<T>>)
    ensures Flatten(p + q) == Flatten(p) + Flatten(q)
    decreases |q|
  {
    if q == [] {
      assert p + q == p;
    } else {
      var n := |q| - 1;
      FlattenConcat(p, q[..n]);
      assert q == q[..n] + [q[n]] && p + q == (p + q[..n]) + [q[n]];
      FlattenPush(p + q[..n], q[n]);
      FlattenPush(q[..n], q[n]);
    }
  }

  /** What a call appends to the output, given the path and the stack it starts with. */
  function Gathered(r: Registry, a: Aggregates, t: TypeId, path: seq<string>, visited: seq<TypeId>): seq<Entry>
    requires ValidRegistry(r) && ValidAggregates(r, a) && t < |r.types|
    decreases Room(r, visited), 0
  {
    if t in visited then []
    else
      VisitLess(r, visited, t);
      StepsValid(r, a, t);
      [(t, Render(path))] + Flatten(Parts(r, a, Steps(r, a, t), path, visited + [t]))
  }

  /** What the recursive calls for the given steps append, one by one. */
  function Parts(r: Registry, a: Aggregates, ss: seq<Step>, path: seq<string>, visited: seq<TypeId>): (parts: seq<seq<Entry>>)
    requires ValidRegistry(r) && ValidAggregates(r, a) && ValidSteps(r, ss)
    ensures |parts| == |ss|
    decreases Room(r, visited), 1
  {
    seq(|ss|, i requires 0 <= i < |ss| => Gathered(r, a, ss[i].target, path + [ss[i].via], visited))
  }

  lemma {:induction false} PartsPush(r: Registry, a: Aggregates, ss: seq<Step>, s: Step, path: seq<string>, visited: seq<TypeId>)
    requires ValidRegistry(r) && ValidAggregates(r, a) && ValidSteps(r, ss) && s.target < |r.types|
    ensures ValidSteps(r, ss + [s])
    ensures Flatten(Parts(r, a, ss + [s], path, visited))
         == Flatten(Parts(r, a, ss, path, visited)) + Gathered(r, a, s.target, path + [s.via], visited)
  {
    var g := Gathered(r, a, s.target, path + [s.via], visited);
    assert Parts(r, a, ss + [s], path, visited) == Parts(r, a, ss, path, visited) + [g];
    FlattenPush(Parts(r, a, ss, path, visited), g);
  }

  lemma {:induction false} PartsConcat(r: Registry, a: Aggregates, s1: seq<Step>, s2: seq<Step>, path: seq<string>, visited: seq<TypeId>)
    requires ValidRegistry(r) && ValidAggregates(r, a) && ValidSteps(r, s1) && ValidSteps(r, s2)
    ensures ValidSteps(r, s1 + s2)
    ensures Flatten(Parts(r, a, s1 + s2, path, visited))
         == Flatten(Parts(r, a, s1, path, visited)) + Flatten(Parts(r, a, s2, path, visited))
  {
    hide Gathered, ValidRegistry, ValidAggregates, Flatten;
    var p, q := Parts(r, a, s1, path, visited), Parts(r, a, s2, path, visited);
    assert Parts(r, a, s1 + s2, path, visited) == p + q;
    FlattenConcat(p, q);
  }

  /** A type that is not on the stack contributes itself and the three lists of steps. */
  lemma {:induction false} ThreeParts(r: Registry, a: Aggregates, t: TypeId, path: seq<string>, visited: seq<TypeId>)
    requires ValidRegistry(r) && ValidAggregates(r, a) && t < |r.types| && t !in visited
    ensures ValidSteps(r, AttributeSteps(r, t, |r.types[t].attributes|))
    ensures ValidSteps(r, ChildSteps(r, t, |r.types|)) && ValidSteps(r, AggregateSteps(r, a, t, |a|))
    ensures Gathered(r, a, t, path, visited) == [(t, Render(path))]
      + Flatten(Parts(r, a, AttributeSteps(r, t, |r.types[t].attributes|), path, visited + [t]))
      + Flatten(Parts(r, a, ChildSteps(r, t, |r.types|), path, visited + [t]))
      + Flatten(Parts(r, a, AggregateSteps(r, a, t, |a|), path, visited + [t]))
  {
    StepsValid(r, a, t);
    AttributeStepsValid(r, t, |r.types[t].attributes|);
    ChildStepsValid(r, t, |r.types|);
    AggregateStepsValid(r, a, t, |a|);
    var s1, s2, s3 := AttributeSteps(r, t, |r.types[t].attributes|), ChildSteps(r, t, |r.types|), AggregateSteps(r, a, t, |a|);
    PartsConcat(r, a, s1, s2, path, visited + [t]);
    PartsConcat(r, a, s1 + s2, s3, path, visited + [t]);
    var v := visited + [t];
    Regroup([(t, Render(path))], Flatten(Parts(r, a, s1, path, v)), Flatten(Parts(r, a, s2, path, v)),
            Flatten(Parts(r, a, s3, path, v)));
  }

  lemma {:induction false} Regroup(e: seq<Entry>, x: seq<Entry>, y: seq<Entry>, z: seq<Entry>)
    ensures e + (x + y + z) == e + x + y + z
  {}

  lemma {:induction false} NextAggregate(r: Registry, a: Aggregates, t: TypeId, k: nat)
    requires ValidAggregates(r, a) && k < |a|
    ensures a[k].0 < |r.types| && a[k].1 < |r.types|
    ensures AggregateSteps(r, a, t, k + 1) == AggregateSteps(r, a, t, k) + AggregateStep(r, t, a[k])
  {}

  // ---------- The object ----------

  class StaticInformation {
    const reg: Registry
    var output: seq<(TypeId, string)>
    var currentPath: seq<string>
    var alreadyProcessed: seq<TypeId>
    var aggregates: Aggregates

    ghost predicate Valid()
      reads this`aggregates
    {
      ValidRegistry(reg) && ValidAggregates(reg, aggregates)
    }

    constructor (r: Registry)
      requires ValidRegistry(r)
      ensures Valid() && reg == r && aggregates == [] && output == []
      ensures currentPath == [] && alreadyProcessed == []
    {
      reg, aggregates, output, currentPath, alreadyProcessed := r, [], [], [], [];
    }

    /** The part of RecordAggregationInfo that follows the two lookups by name. */
    method RecordAggregation(a: TypeId, b: TypeId)
      requires Valid() && a < |reg.types| && b < |reg.types|
      modifies this`aggregates
      ensures Valid() && aggregates == old(aggregates) + [(a, b)]
    {
      aggregates := aggregates + [(a, b)];
    }

    method GetCurrentPath() returns (s: string)
      ensures s == Render(currentPath)
    {
      s := "";
      for i := 0 to |currentPath|
        invariant s == Render(currentPath[..i])
      {
        assert currentPath[..i + 1][..i] == currentPath[..i];
        s := s + "/" + currentPath[i];
      }
      assert currentPath[..|currentPath|] == currentPath;
    }

    method RecordOutput(tid: TypeId)
      modifies this`output
      ensures output == old(output) + [(tid, Render(currentPath))]
    {
      var path := GetCurrentPath();
      output := output + [(tid, path)];
    }

    method HasAlreadyBeenProcessed(tid: TypeId) returns (b: bool)
      ensures b <==> tid in alreadyProcessed
    {
      for i := 0 to |alreadyProcessed|
        invariant tid !in alreadyProcessed[..i]
      {
        if alreadyProcessed[i] == tid { return true; }
      }
      b := false;
    }

    /** TypeId::IsChildOf. */
    method TestChildOf(t: TypeId, other: TypeId) returns (b: bool)
      requires ValidRegistry(reg) && t < |reg.types|
      ensures b == IsChildOf(reg, t, other)
    {
      var tmp: TypeId := t;
      while tmp != other && tmp != reg.types[tmp].parent
        invariant tmp < |reg.types| && Climb(reg, tmp, other) == Climb(reg, t, other)
        decreases reg.types[tmp].height
      {
        assert ValidType(reg, tmp);
        tmp := reg.types[tmp].parent;
      }
      b := tmp == other && t != other;
    }

    /** Push one step, gather from its target, and pop; g is what one more step after ss appends. */
    method Follow(tid: TypeId, ghost ss: seq<Step>, via: string, target: TypeId) returns (ghost g: seq<Entry>)
      requires Valid() && target < |reg.types| && tid < |reg.types| && tid !in alreadyProcessed
      requires ValidSteps(reg, ss)
      modifies this`output, this`currentPath, this`alreadyProcessed
      ensures currentPath == old(currentPath) && alreadyProcessed == old(alreadyProcessed)
      ensures ValidSteps(reg, ss + [Step(via, target)])
      ensures output == old(output) + g
      ensures Along(ss + [Step(via, target)], tid) == Along(ss, tid) + g
      decreases Room(reg, alreadyProcessed), 0
    {
      PartsPush(reg, aggregates, ss, Step(via, target), currentPath, alreadyProcessed + [tid]);
      VisitLess(reg, alreadyProcessed, tid);
      g := Gathered(reg, aggregates, target, currentPath + [via], alreadyProcessed + [tid]);
      currentPath := currentPath + [via];
      alreadyProcessed := alreadyProcessed + [tid];
      DoGather(target);
      alreadyProcessed := alreadyProcessed[..|alreadyProcessed| - 1];
      currentPath := currentPath[..|currentPath| - 1];
    }

    /** What following the steps from tid appends. */
    ghost function Along(ss: seq<Step>, tid: TypeId): seq<Entry>
      requires Valid() && ValidSteps(reg, ss)
      reads this`aggregates, this`currentPath, this`alreadyProcessed
    {
      Flatten(Parts(reg, aggregates, ss, currentPath, alreadyProcessed + [tid]))
    }

    method GatherAttributes(tid: TypeId) returns (ghost done: seq<Entry>)
      requires Valid() && tid < |reg.types| && tid !in alreadyProcessed
      modifies this`output, this`currentPath, this`alreadyProcessed
      ensures currentPath == old(currentPath) && alreadyProcessed == old(alreadyProcessed)
      ensures ValidSteps(reg, AttributeSteps(reg, tid, |reg.types[tid].attributes|))
      ensures done == Along(AttributeSteps(reg, tid, |reg.types[tid].attributes|), tid) && output == old(output) + done
      decreases Room(reg, alreadyProcessed), 2
    {
      done := [];
      ghost var before := output;
      assert ValidType(reg, tid);
      hide ValidRegistry, ValidAggregates, Parts, Gathered, Flatten, Room;
      for i := 0 to |reg.types[tid].attributes|
        invariant currentPath == old(currentPath) && alreadyProcessed == old(alreadyProcessed)
        invariant ValidSteps(reg, AttributeSteps(reg, tid, i))
        invariant done == Along(AttributeSteps(reg, tid, i), tid) && output == before + done
      {
        var info := reg.types[tid].attributes[i];
        ghost var ss, g := AttributeSteps(reg, tid, i), [];
        assert ValidAttribute(reg, info);
        assert AttributeSteps(reg, tid, i + 1) == ss + AttributeStep(reg, info);
        assert ss + [] == ss;
        match info.checker {
          case PointerTo(pointee) =>
            if pointee == reg.objectType { continue; }
            g := Follow(tid, ss, info.name, pointee);
          case ContainerOf(item) =>
            g := Follow(tid, ss, info.name + "/[i]", item);
          case Plain =>
        }
        Associate(before, done, g);
        done := done + g;
      }
    }

    method FollowIfChild(tid: TypeId, ghost ss: seq<Step>, j: TypeId) returns (ghost g: seq<Entry>)
      requires Valid() && tid < |reg.types| && tid !in alreadyProcessed && ValidSteps(reg, ss)
      requires j < |reg.types|
      modifies this`output, this`currentPath, this`alreadyProcessed
      ensures currentPath == old(currentPath) && alreadyProcessed == old(alreadyProcessed)
      ensures ValidSteps(reg, ss + ChildStep(reg, tid, j))
      ensures output == old(output) + g && Along(ss + ChildStep(reg, tid, j), tid) == Along(ss, tid) + g
      decreases Room(reg, alreadyProcessed), 1
    {
      g := [];
      assert ss + [] == ss;
      hide Parts, Gathered, Flatten, Room, Climb;
      var child := TestChildOf(j, tid);
      if child {
        g := Follow(tid, ss, "$" + reg.types[j].name, j);
      }
    }

    method GatherChildren(tid: TypeId) returns (ghost done: seq<Entry>)
      requires Valid() && tid < |reg.types| && tid !in alreadyProcessed
      modifies this`output, this`currentPath, this`alreadyProcessed
      ensures currentPath == old(currentPath) && alreadyProcessed == old(alreadyProcessed)
      ensures ValidSteps(reg, ChildSteps(reg, tid, |reg.types|))
      ensures done == Along(ChildSteps(reg, tid, |reg.types|), tid) && output == old(output) + done
      decreases Room(reg, alreadyProcessed), 2
    {
      done := [];
      ghost var before := output;
      assert Along([], tid) == [] && ChildSteps(reg, tid, 0) == [];
      hide ValidAggregates, Parts, Gathered, Flatten, Room, Climb;
      for j := 0 to |reg.types|
        invariant currentPath == old(currentPath) && alreadyProcessed == old(alreadyProcessed)
        invariant ValidSteps(reg, ChildSteps(reg, tid, j))
        invariant done == Along(ChildSteps(reg, tid, j), tid) && output == before + done
      {
        assert ChildSteps(reg, tid, j + 1) == ChildSteps(reg, tid, j) + ChildStep(reg, tid, j);
        ghost var g := FollowIfChild(tid, ChildSteps(reg, tid, j), j);
        Associate(before, done, g);
        done := done + g;
      }
    }

    method FollowIfPaired(tid: TypeId, ghost ss: seq<Step>, k: nat) returns (ghost g: seq<Entry>)
      requires Valid() && tid < |reg.types| && tid !in alreadyProcessed && ValidSteps(reg, ss)
      requires k < |aggregates|
      modifies this`output, this`currentPath, this`alreadyProcessed
      ensures currentPath == old(currentPath) && alreadyProcessed == old(alreadyProcessed)
      ensures ValidSteps(reg, ss + AggregateStep(reg, tid, aggregates[k]))
      ensures output == old(output) + g && Along(ss + AggregateStep(reg, tid, aggregates[k]), tid) == Along(ss, tid) + g
      decreases Room(reg, alreadyProcessed), 1
    {
      g := [];
      assert ss + [] == ss;
      hide Parts, Gathered, Flatten, Room;
      var tmp := aggregates[k];
      if tmp.0 == tid || tmp.1 == tid {
        var other: TypeId := 0;
        if tmp.0 == tid { other := tmp.1; }
        if tmp.1 == tid { other := tmp.0; }
        g := Follow(tid, ss, "$" + reg.types[other].name, other);
      }
    }

    method GatherAggregates(tid: TypeId) returns (ghost done: seq<Entry>)
      requires Valid() && tid < |reg.types| && tid !in alreadyProcessed
      modifies this`output, this`currentPath, this`alreadyProcessed
      ensures currentPath == old(currentPath) && alreadyProcessed == old(alreadyProcessed)
      ensures ValidSteps(reg, AggregateSteps(reg, aggregates, tid, |aggregates|))
      ensures done == Along(AggregateSteps(reg, aggregates, tid, |aggregates|), tid) && output == old(output) + done
      decreases Room(reg, alreadyProcessed), 2
    {
      done := [];
      ghost var before := output;
      assert Along([], tid) == [] && AggregateSteps(reg, aggregates, tid, 0) == [];
      hide ValidRegistry, ValidAggregates, AggregateSteps, AggregateStep, Parts, Gathered, Flatten, Room;
      for k := 0 to |aggregates|
        invariant currentPath == old(currentPath) && alreadyProcessed == old(alreadyProcessed)
        invariant ValidSteps(reg, AggregateSteps(reg, aggregates, tid, k))
        invariant done == Along(AggregateSteps(reg, aggregates, tid, k), tid) && output == before + done
      {
        NextAggregate(reg, aggregates, tid, k);
        ghost var g := FollowIfPaired(tid, AggregateSteps(reg, aggregates, tid, k), k);
        Associate(before, done, g);
        done := done + g;
      }
    }

    /** Appends exactly the entries of the recursion above, and leaves both stacks as they were. */
    method DoGather(tid: TypeId)
      requires Valid() && tid < |reg.types|
      modifies this`output, this`currentPath, this`alreadyProcessed
      ensures currentPath == old(currentPath) && alreadyProcessed == old(alreadyProcessed)
      ensures output == old(output) + Gathered(reg, aggregates, tid, currentPath, alreadyProcessed)
      decreases Room(reg, alreadyProcessed), 3
    {
      var processed := HasAlreadyBeenProcessed(tid);
      if processed { return; }
      ThreeParts(reg, aggregates, tid, currentPath, alreadyProcessed);
      RecordOutput(tid);
      ghost var g1 := GatherAttributes(tid);
      ghost var g2 := GatherChildren(tid);
      ghost var g3 := GatherAggregates(tid);
      Regroup(old(output), [(tid, Render(currentPath))] + g1, g2, g3);
      Associate(old(output), [(tid, Render(currentPath))], g1);
    }

    /** Uniquefy works on a copy, so Gather is DoGather. */
    method Gather(tid: TypeId)
      requires Valid() && tid < |reg.types|
      modifies this`output, this`currentPath, this`alreadyProcessed
      ensures currentPath == old(currentPath) && alreadyProcessed == old(alreadyProcessed)
      ensures output == old(output) + Gathered(reg, aggregates, tid, currentPath, alreadyProcessed)
    {
      DoGather(tid);
    }

    method Get(tid: TypeId) returns (paths: seq<string>)
      ensures paths == PathsOf(output, tid)
    {
      paths := [];
      for i := 0 to |output|
        invariant paths == PathsOf(output[..i], tid)
      {
        assert output[..i + 1][..i] == output[..i];
        if output[i].0 == tid {
          paths := paths + [output[i].1];
        }
      }
      assert output[..|output|] == output;
    }
  }

  /** The paths recorded for a type, in order. */
  function PathsOf(output: seq<(TypeId, string)>, t: TypeId): seq<string>
    decreases |output|
  {
    if output == [] then []
    else
      var n := |output| - 1;
      PathsOf(output[..n], t) + if output[n].0 == t then [output[n].1] else []
  }
}
