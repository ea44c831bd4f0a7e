/**
 The class walk of pybindgen/pybindgen/cppclass.py: get_mro visits the bases of a class breadth
 first and may queue a class more than once; is_subclass asks whether the walk meets a class.
 Classes are numbered, and bases[c] are the direct bases of class c.
 */
module ClassOrder {
  import opened Common

  predicate ValidBases(bases: seq<seq<nat>>) {
    forall c, i :: 0 <= c < |bases| && 0 <= i < |bases[c]| ==> bases[c][i] < |bases|
  }

  /** v can be reached from u by following exactly k base links. */
  ghost predicate Linked(bases: seq<seq<nat>>, u: nat, v: nat, k: nat)
    decreases k
  {
    if k == 0 then u == v
    else exists m: nat :: m < |bases| && v in bases[m] && Linked(bases, u, m, k - 1)
  }

  ghost predicate Ancestor(bases: seq<seq<nat>>, u: nat, v: nat) {
    exists k: nat :: Linked(bases, u, v, k)
  }

  /** k is the number of links on the shortest way from u to v. */
  ghost predicate Distance(bases: seq<seq<nat>>, u: nat, v: nat, k: nat) {
    Linked(bases, u, v, k) && forall j: nat :: j < k ==> !Linked(bases, u, v, j)
  }

  function Unvisited(n: nat, visited: set<nat>): set<nat> {
    AllBelow(n) - visited
  }

  function AllBelow(n: nat): set<nat> {
    if n == 0 then {} else AllBelow(n - 1) + {n - 1}
  }

  lemma {:induction false} InAllBelow(n: nat, x: nat)
    ensures x in AllBelow(n) <==> x < n
  {
    if n > 0 { InAllBelow(n - 1, x); }
  }

  /** How many queue entries are classes visited before. */
  function Repeats(queue: seq<nat>, visited: set<nat>): nat
    decreases |queue|
  {
    if queue == [] then 0 else (if queue[0] in visited then 1 else 0) + Repeats(queue[1..], visited)
  }

  lemma {:induction false} RepeatsPush(queue: seq<nat>, visited: set<nat>, c: nat)
    ensures Repeats(queue + [c], visited) == Repeats(queue, visited) + if c in visited then 1 else 0
    decreases |queue|
  {
    if queue == [] {
      assert (queue + [c])[1..] == [];
    } else {
      assert (queue + [c])[1..] == queue[1..] + [c];
      RepeatsPush(queue[1..], visited, c);
    }
  }

  // ---------- The invariant of the walk ----------

  /** The queue with the number of links by which each entry was found, oldest first. */
  ghost predicate GoodQueue(bases: seq<seq<nat>>, start: nat, queue: seq<nat>, links: seq<nat>) {
    && |queue| == |links|
    && (forall i :: 0 <= i < |queue| ==> queue[i] < |bases| && Linked(bases, start, queue[i], links[i]))
    && (forall i, j :: 0 <= i < j < |links| ==> links[i] <= links[j])
    && (links != [] ==> links[|links| - 1] <= links[0] + 1)
  }

  ghost predicate Queued(queue: seq<nat>, links: seq<nat>, c: nat, k: nat)
    requires |queue| == |links|
  {
    exists i :: 0 <= i < |queue| && queue[i] == c && links[i] <= k
  }

  /** Every base of a visited class is visited or queued, at most one link further. */
  ghost predicate Covered(bases: seq<seq<nat>>, queue: seq<nat>, links: seq<nat>, found: map<nat, nat>)
    requires |queue| == |links|
  {
    forall c, b :: c in found && c < |bases| && b in bases[c] ==>
      (b in found && found[b] <= found[c] + 1) || Queued(queue, links, b, found[c] + 1)
  }

  /** found maps each visited class to the number of links at its first visit: its distance. */
  ghost predicate GoodFound(bases: seq<seq<nat>>, start: nat, found: map<nat, nat>) {
    forall c :: c in found ==> c < |bases| && Distance(bases, start, c, found[c])
  }

  ghost predicate Started(start: nat, queue: seq<nat>, links: seq<nat>, found: map<nat, nat>) {
    (start in found && found[start] == 0) || (queue == [start] && links == [0] && found == map[])
  }

  ghost predicate WalkInv(bases: seq<seq<nat>>, start: nat, queue: seq<nat>, links: seq<nat>, found: map<nat, nat>) {
    && ValidBases(bases) && start < |bases|
    && GoodQueue(bases, start, queue, links) && GoodFound(bases, start, found)
    && Covered(bases, queue, links, found) && Started(start, queue, links, found)
  }

  /** Whatever is k links away is visited, at most k links out, or the queue starts at most k out. */
  lemma {:induction false} Reached(bases: seq<seq<nat>>, start: nat, queue: seq<nat>, links: seq<nat>,
                                   found: map<nat, nat>, c: nat, k: nat)
    requires WalkInv(bases, start, queue, links, found) && Linked(bases, start, c, k)
    ensures (c in found && found[c] <= k) || (links != [] && links[0] <= k)
    decreases k
  {
    if k > 0 {
      var m: nat :| m < |bases| && c in bases[m] && Linked(bases, start, m, k - 1);
      Reached(bases, start, queue, links, found, m, k - 1);
      if m in found && Queued(queue, links, c, found[m] + 1) {
        var i :| 0 <= i < |queue| && queue[i] == c && links[i] <= found[m] + 1;
        assert i == 0 || links[0] <= links[i];
      }
    }
  }

  /** The class at the front of the queue, if it is new, is at its distance. */
  lemma {:induction false} FrontDistance(bases: seq<seq<nat>>, start: nat, queue: seq<nat>, links: seq<nat>, found: map<nat, nat>)
    requires WalkInv(bases, start, queue, links, found) && queue != [] && queue[0] !in found
    ensures Distance(bases, start, queue[0], links[0])
  {
    forall j: nat | j < links[0]
      ensures !Linked(bases, start, queue[0], j)
    {
      if Linked(bases, start, queue[0], j) {
        Reached(bases, start, queue, links, found, queue[0], j);
      }
    }
  }

  /** The bases of cls that were not visited, in order. */
  function NewBases(bs: seq<nat>, visited: set<nat>): seq<nat>
    decreases |bs|
  {
    if bs == [] then []
    else NewBases(bs[..|bs| - 1], visited) + if bs[|bs| - 1] in visited then [] else [bs[|bs| - 1]]
  }

  lemma {:induction false} NewBasesHold(bs: seq<nat>, visited: set<nat>)
    ensures forall b :: b in NewBases(bs, visited) <==> b in bs && b !in visited
    decreases |bs|
  {
    if bs != [] {
      NewBasesHold(bs[..|bs| - 1], visited);
      assert bs == bs[..|bs| - 1] + [bs[|bs| - 1]];
    }
  }

  lemma {:induction false} NewBasesNoRepeats(queue: seq<nat>, bs: seq<nat>, visited: set<nat>)
    ensures Repeats(queue + NewBases(bs, visited), visited) == Repeats(queue, visited)
    decreases |bs|
  {
    if bs == [] {
      assert queue + NewBases(bs, visited) == queue;
    } else {
      var n := |bs| - 1;
      NewBasesNoRepeats(queue, bs[..n], visited);
      if bs[n] !in visited {
        assert queue + NewBases(bs, visited) == queue + NewBases(bs[..n], visited) + [bs[n]];
        RepeatsPush(queue + NewBases(bs[..n], visited), visited, bs[n]);
      } else {
        assert NewBases(bs, visited) == NewBases(bs[..n], visited);
      }
    }
  }

  function Copies(k: nat, n: nat): (s: seq<nat>)
    ensures |s| == n && forall i :: 0 <= i < n ==> s[i] == k
  {
    seq(n, _ => k)
  }

  /** Visiting the front class and queueing its unvisited bases keeps the invariant. */
  lemma {:induction false} VisitKeeps(bases: seq<seq<nat>>, start: nat, queue: seq<nat>, links: seq<nat>,
                                      found: map<nat, nat>, found1: map<nat, nat>, added: seq<nat>)
    requires WalkInv(bases, start, queue, links, found) && queue != []
    requires found1 == if queue[0] in found then found else found[queue[0] := links[0]]
    requires added == NewBases(bases[queue[0]], found1.Keys)
    ensures WalkInv(bases, start, queue[1..] + added, links[1..] + Copies(links[0] + 1, |added|), found1)
  {
    if queue[0] !in found { FrontDistance(bases, start, queue, links, found); }
    NewBasesHold(bases[queue[0]], found1.Keys);
    QueueGrows(bases, start, queue, links, added);
    CoverKept(bases, start, queue, links, found, found1, added);
  }

  lemma {:induction false} CoverKept(bases: seq<seq<nat>>, start: nat, queue: seq<nat>, links: seq<nat>,
                                     found: map<nat, nat>, found1: map<nat, nat>, added: seq<nat>)
    requires WalkInv(bases, start, queue, links, found) && queue != []
    requires found1 == if queue[0] in found then found else found[queue[0] := links[0]]
    requires added == NewBases(bases[queue[0]], found1.Keys)
    ensures Covered(bases, queue[1..] + added, links[1..] + Copies(links[0] + 1, |added|), found1)
  {
    var q, l := queue[1..] + added, links[1..] + Copies(links[0] + 1, |added|);
    forall c, b | c in found1 && c < |bases| && b in bases[c]
      ensures (b in found1 && found1[b] <= found1[c] + 1) || Queued(q, l, b, found1[c] + 1)
    {
      if c == queue[0] && c !in found {
        NewlyCovered(bases, start, queue, links, found, b);
      } else {
        assert c in found && found1[c] == found[c];
        StaysCovered(queue, links, added, b, found[c] + 1);
        if queue[0] in found { assert Distance(bases, start, queue[0], found[queue[0]]); }
      }
    }
  }

  lemma {:induction false} QueueGrows(bases: seq<seq<nat>>, start: nat, queue: seq<nat>, links: seq<nat>, added: seq<nat>)
    requires ValidBases(bases) && GoodQueue(bases, start, queue, links) && queue != []
    requires forall b :: b in added ==> b in bases[queue[0]]
    ensures GoodQueue(bases, start, queue[1..] + added, links[1..] + Copies(links[0] + 1, |added|))
  {
    var q, l := queue[1..] + added, links[1..] + Copies(links[0] + 1, |added|);
    forall i | 0 <= i < |q|
      ensures q[i] < |bases| && Linked(bases, start, q[i], l[i])
    {
      if i >= |queue| - 1 {
        assert q[i] in added;
      }
    }
  }

  /** A queue entry survives, unless it was the front one, which is now visited. */
  lemma {:induction false} StaysCovered(queue: seq<nat>, links: seq<nat>, added: seq<nat>, b: nat, k: nat)
    requires |queue| == |links| && queue != []
    requires forall i :: 0 <= i < |links| ==> links[0] <= links[i]
    ensures Queued(queue, links, b, k) ==>
      (b == queue[0] && links[0] <= k) || Queued(queue[1..] + added, links[1..] + Copies(links[0] + 1, |added|), b, k)
  {
    if Queued(queue, links, b, k) && !(b == queue[0] && links[0] <= k) {
      var i :| 0 <= i < |queue| && queue[i] == b && links[i] <= k;
      var q, l := queue[1..] + added, links[1..] + Copies(links[0] + 1, |added|);
      assert q[i - 1] == b && l[i - 1] <= k;
    }
  }

  /** The bases of a class just visited are queued one link further, or were visited before. */
  lemma {:induction false} NewlyCovered(bases: seq<seq<nat>>, start: nat, queue: seq<nat>, links: seq<nat>,
                                        found: map<nat, nat>, b: nat)
    requires WalkInv(bases, start, queue, links, found) && queue != [] && queue[0] !in found
    requires b in bases[queue[0]]
    ensures var found1 := found[queue[0] := links[0]];
      var added := NewBases(bases[queue[0]], found1.Keys);
      (b in found1 && found1[b] <= links[0] + 1)
      || Queued(queue[1..] + added, links[1..] + Copies(links[0] + 1, |added|), b, links[0] + 1)
  {
    var found1 := found[queue[0] := links[0]];
    var added := NewBases(bases[queue[0]], found1.Keys);
    NewBasesHold(bases[queue[0]], found1.Keys);
    if b in added {
      var i :| 0 <= i < |added| && added[i] == b;
      var q, l := queue[1..] + added, links[1..] + Copies(links[0] + 1, |added|);
      assert q[|queue| - 1 + i] == b && l[|queue| - 1 + i] == links[0] + 1;
    } else {
      assert Linked(bases, start, b, links[0] + 1);
      if b != queue[0] {
        assert Distance(bases, start, b, found[b]);
      }
    }
  }

  // ---------- get_mro and is_subclass ----------

  ghost predicate NonDecreasing(s: seq<nat>) {
    forall i, j :: 0 <= i < j < |s| ==> s[i] <= s[j]
  }

  /** Position i holds a class that does not occur earlier. */
  predicate FirstAt(mro: seq<nat>, i: nat) {
    i < |mro| && forall j :: 0 <= j < i ==> mro[j] != mro[i]
  }

  /** First visits happen at the distance of the class. */
  ghost predicate FirstVisits(bases: seq<seq<nat>>, start: nat, mro: seq<nat>, depth: seq<nat>)
    requires |depth| == |mro|
  {
    forall i: nat {:trigger FirstAt(mro, i)} :: FirstAt(mro, i) ==> Distance(bases, start, mro[i], depth[i])
  }

  lemma {:induction false} FirstVisitsPush(bases: seq<seq<nat>>, start: nat, mro: seq<nat>, depth: seq<nat>, c: nat, d: nat)
    requires |depth| == |mro| && FirstVisits(bases, start, mro, depth) && (c !in mro ==> Distance(bases, start, c, d))
    ensures FirstVisits(bases, start, mro + [c], depth + [d])
  {
    forall i: nat | FirstAt(mro + [c], i)
      ensures Distance(bases, start, (mro + [c])[i], (depth + [d])[i])
    {
      if i < |mro| {
        assert forall j :: 0 <= j <= i ==> (mro + [c])[j] == mro[j];
        assert FirstAt(mro, i);
      } else {
        assert forall j :: 0 <= j < i ==> mro[j] == (mro + [c])[j];
      }
    }
  }

  /** The loop over the bases of one class. */
  method QueueBases(queue: seq<nat>, bs: seq<nat>, visited: set<nat>) returns (toVisit: seq<nat>)
    ensures toVisit == queue + NewBases(bs, visited)
  {
    toVisit := queue;
    for k := 0 to |bs|
      invariant toVisit == queue + NewBases(bs[..k], visited)
    {
      assert bs[..k + 1][..k] == bs[..k];
      var base := bs[k];
      if base !in visited {
        toVisit := toVisit + [base];
      }
    }
    assert bs[..|bs|] == bs;
  }

  /** Visiting a class that was visited before leaves one repeat less, a new one a smaller rest. */
  lemma {:induction false} VisitShrinks(n: nat, queue: seq<nat>, visited: set<nat>, bs: seq<nat>)
    requires queue != [] && queue[0] < n
    ensures var v := visited + {queue[0]};
      var q := queue[1..] + NewBases(bs, v);
      Unvisited(n, v) < Unvisited(n, visited)
      || (Unvisited(n, v) == Unvisited(n, visited) && Repeats(q, v) < Repeats(queue, visited))
  {
    var v := visited + {queue[0]};
    InAllBelow(n, queue[0]);
    NewBasesNoRepeats(queue[1..], bs, v);
    if queue[0] in visited {
      assert v == visited;
    } else {
      assert queue[0] in Unvisited(n, visited) && queue[0] !in Unvisited(n, v);
    }
  }

  /** Everything the loop of get_mro keeps. */
  ghost predicate LoopInv(bases: seq<seq<nat>>, start: nat, queue: seq<nat>, links: seq<nat>, found: map<nat, nat>,
                          mro: seq<nat>, depth: seq<nat>) {
    && WalkInv(bases, start, queue, links, found)
    && |depth| == |mro| && NonDecreasing(depth) && FirstVisits(bases, start, mro, depth)
    && (depth != [] && links != [] ==> depth[|depth| - 1] <= links[0])
    && (forall c :: c in mro <==> c in found)
    && (if mro == [] then queue == [start] else mro[0] == start)
  }

  lemma {:induction false} LoopKeeps(bases: seq<seq<nat>>, start: nat, queue: seq<nat>, links: seq<nat>,
                                     found: map<nat, nat>, found1: map<nat, nat>, mro: seq<nat>, depth: seq<nat>)
    requires LoopInv(bases, start, queue, links, found, mro, depth) && queue != []
    requires found1 == if queue[0] in found then found else found[queue[0] := links[0]]
    ensures var added := NewBases(bases[queue[0]], found1.Keys);
      LoopInv(bases, start, queue[1..] + added, links[1..] + Copies(links[0] + 1, |added|), found1,
              mro + [queue[0]], depth + [links[0]])
  {
    var added := NewBases(bases[queue[0]], found1.Keys);
    assert found1.Keys == found.Keys + {queue[0]};
    hide NonDecreasing, FirstVisits;
    VisitKeeps(bases, start, queue, links, found, found1, added);
    if queue[0] !in found { FrontDistance(bases, start, queue, links, found); }
    FirstVisitsPush(bases, start, mro, depth, queue[0], links[0]);
    NonDecreasingPush(depth, links[0]);
  }

  lemma {:induction false} NonDecreasingPush(s: seq<nat>, x: nat)
    requires NonDecreasing(s) && (s != [] ==> s[|s| - 1] <= x)
    ensures NonDecreasing(s + [x])
  {}

  lemma {:induction false} LoopEnds(bases: seq<seq<nat>>, start: nat, links: seq<nat>, found: map<nat, nat>,
                                    mro: seq<nat>, depth: seq<nat>)
    requires LoopInv(bases, start, [], links, found, mro, depth)
    ensures mro != [] && mro[0] == start && forall c :: c in mro <==> Ancestor(bases, start, c)
  {
    EndsComplete(bases, start, found);
  }

  /** One turn of the loop: where the queue, the visited classes and the output go. */
  lemma {:induction false} LoopTurn(bases: seq<seq<nat>>, start: nat, queue: seq<nat>, links: seq<nat>,
                                    found: map<nat, nat>, mro: seq<nat>, depth: seq<nat>)
      returns (queue1: seq<nat>, links1: seq<nat>, found1: map<nat, nat>)
    requires LoopInv(bases, start, queue, links, found, mro, depth) && queue != []
    ensures queue[0] < |bases| && |links| == |queue|
    ensures found1.Keys == found.Keys + {queue[0]}
    ensures queue1 == queue[1..] + NewBases(bases[queue[0]], found1.Keys)
    ensures LoopInv(bases, start, queue1, links1, found1, mro + [queue[0]], depth + [links[0]])
    ensures Unvisited(|bases|, found1.Keys) < Unvisited(|bases|, found.Keys)
      || (Unvisited(|bases|, found1.Keys) == Unvisited(|bases|, found.Keys)
          && Repeats(queue1, found1.Keys) < Repeats(queue, found.Keys))
  {
    found1 := if queue[0] in found then found else found[queue[0] := links[0]];
    assert found1.Keys == found.Keys + {queue[0]};
    LoopKeeps(bases, start, queue, links, found, found1, mro, depth);
    VisitShrinks(|bases|, queue, found.Keys, bases[queue[0]]);
    var added := NewBases(bases[queue[0]], found1.Keys);
    queue1, links1 := queue[1..] + added, links[1..] + Copies(links[0] + 1, |added|);
  }

  /** All of them are classes. */
  predicate Known(bases: seq<seq<nat>>, s: seq<nat>) {
    forall i :: 0 <= i < |s| ==> s[i] < |bases|
  }

  /** The queue after its first class is visited; visited holds that class. */
  function AfterVisit(bases: seq<seq<nat>>, queue: seq<nat>, visited: set<nat>): seq<nat>
    requires queue != [] && queue[0] < |bases|
  {
    queue[1..] + NewBases(bases[queue[0]], visited)
  }

  lemma {:induction false} KnownAfter(bases: seq<seq<nat>>, queue: seq<nat>, visited: set<nat>)
    requires ValidBases(bases) && Known(bases, queue) && queue != []
    ensures Known(bases, AfterVisit(bases, queue, visited))
  {
    var added := NewBases(bases[queue[0]], visited);
    NewBasesHold(bases[queue[0]], visited);
    forall i | 0 <= i < |queue| - 1 + |added|
      ensures (queue[1..] + added)[i] < |bases|
    {
      if i >= |queue| - 1 {
        assert added[i - (|queue| - 1)] in bases[queue[0]];
      }
    }
  }

  /** What get_mro yields from a queue of classes on. */
  function Mro(bases: seq<seq<nat>>, queue: seq<nat>, visited: set<nat>): (r: seq<nat>)
    requires ValidBases(bases) && Known(bases, queue)
    decreases Unvisited(|bases|, visited), Repeats(queue, visited)
  {
    if queue == [] then []
    else
      var v := visited + {queue[0]};
      VisitShrinks(|bases|, queue, visited, bases[queue[0]]);
      KnownAfter(bases, queue, v);
      [queue[0]] + Mro(bases, AfterVisit(bases, queue, v), v)
  }

  lemma {:induction false} MroStep(bases: seq<seq<nat>>, queue: seq<nat>, visited: set<nat>)
    requires ValidBases(bases) && Known(bases, queue) && queue != []
    ensures var v := visited + {queue[0]};
      var q := AfterVisit(bases, queue, v);
      && Known(bases, q)
      && Mro(bases, queue, visited) == [queue[0]] + Mro(bases, q, v)
      && (Unvisited(|bases|, v) < Unvisited(|bases|, visited)
          || (Unvisited(|bases|, v) == Unvisited(|bases|, visited) && Repeats(q, v) < Repeats(queue, visited)))
  {
    VisitShrinks(|bases|, queue, visited, bases[queue[0]]);
    KnownAfter(bases, queue, visited + {queue[0]});
  }

  lemma {:induction false} MroEnd(bases: seq<seq<nat>>, queue: seq<nat>, mro: seq<nat>, visited: set<nat>)
    requires ValidBases(bases) && queue == []
    ensures mro + Mro(bases, queue, visited) == mro
  {
    assert mro + [] == mro;
  }

  /** mro as the walk's output: the class and its ancestors, the class first, with depths. */
  ghost predicate Visits(bases: seq<seq<nat>>, start: nat, mro: seq<nat>, depth: seq<nat>) {
    && mro != [] && mro[0] == start && (forall c :: c in mro <==> Ancestor(bases, start, c))
    && |depth| == |mro| && NonDecreasing(depth) && FirstVisits(bases, start, mro, depth)
  }

  lemma {:induction false} LoopVisits(bases: seq<seq<nat>>, start: nat, links: seq<nat>, found: map<nat, nat>,
                                      mro: seq<nat>, depth: seq<nat>)
    requires LoopInv(bases, start, [], links, found, mro, depth)
    ensures Visits(bases, start, mro, depth)
  {
    LoopEnds(bases, start, links, found, mro, depth);
    hide Ancestor, WalkInv;
  }

  lemma {:induction false} LoopKnown(bases: seq<seq<nat>>, start: nat, queue: seq<nat>, links: seq<nat>,
                                     found: map<nat, nat>, mro: seq<nat>, depth: seq<nat>)
    requires LoopInv(bases, start, queue, links, found, mro, depth)
    ensures ValidBases(bases) && Known(bases, queue)
  {}

  /** The whole output, given what was yielded so far, and the number of links at each visit. */
  lemma {:induction false} MroFrom(bases: seq<seq<nat>>, start: nat, queue: seq<nat>, links: seq<nat>,
                                   found: map<nat, nat>, mro: seq<nat>, depth: seq<nat>)
      returns (depths: seq<nat>)
    requires LoopInv(bases, start, queue, links, found, mro, depth)
    ensures ValidBases(bases) && Known(bases, queue)
    ensures Visits(bases, start, mro + Mro(bases, queue, found.Keys), depths)
    decreases Unvisited(|bases|, found.Keys), Repeats(queue, found.Keys)
  {
    LoopKnown(bases, start, queue, links, found, mro, depth);
    hide LoopInv, Visits, ValidBases, Known, Mro, NewBases, Unvisited, Repeats;
    if queue == [] {
      LoopVisits(bases, start, links, found, mro, depth);
      MroEnd(bases, queue, mro, found.Keys);
      depths := depth;
    } else {
      var queue1, links1, found1 := LoopTurn(bases, start, queue, links, found, mro, depth);
      MroStep(bases, queue, found.Keys);
      depths := MroFrom(bases, start, queue1, links1, found1, mro + [queue[0]], depth + [links[0]]);
      Associate(mro, [queue[0]], Mro(bases, queue1, found1.Keys));
    }
  }

  /** All that a class's walk yields. */
  function Walk(bases: seq<seq<nat>>, start: nat): (r: seq<nat>)
    requires ValidBases(bases) && start < |bases|
  {
    Mro(bases, [start], {})
  }

  /** Exactly the class and its ancestors, the class first, first visits at their distance, nearer
      ones never later. */
  lemma {:induction false} WalkVisits(bases: seq<seq<nat>>, start: nat) returns (depth: seq<nat>)
    requires ValidBases(bases) && start < |bases|
    ensures var mro := Walk(bases, start);
      && mro != [] && mro[0] == start && (forall c :: c in mro <==> Ancestor(bases, start, c))
      && |depth| == |mro| && NonDecreasing(depth) && FirstVisits(bases, start, mro, depth)
  {
    var none: map<nat, nat> := map[];
    depth := MroFrom(bases, start, [start], [0], none, [], []);
    hide Mro, Ancestor, NonDecreasing, FirstVisits;
    assert none.Keys == {};
    assert [] + Walk(bases, start) == Walk(bases, start);
  }

  /** The generator get_mro, run to its end. */
  method GetMro(bases: seq<seq<nat>>, start: nat) returns (mro: seq<nat>)
    requires ValidBases(bases) && start < |bases|
    ensures mro == Walk(bases, start)
    ensures mro != [] && mro[0] == start && forall c :: c in mro <==> Ancestor(bases, start, c)
  {
    var toVisit: seq<nat> := [start];
    var visited: set<nat> := {};
    mro := [];
    assert Known(bases, toVisit);
    hide Mro, NewBases, Ancestor, Unvisited, Repeats;
    while toVisit != []
      invariant Known(bases, toVisit)
      invariant mro + Mro(bases, toVisit, visited) == Walk(bases, start)
      decreases Unvisited(|bases|, visited), Repeats(toVisit, visited)
    {
      MroStep(bases, toVisit, visited);
      var cls, rest := toVisit[0], toVisit[1..];
      ghost var before := mro;
      visited := visited + {cls};
      mro := mro + [cls];
      toVisit := QueueBases(rest, bases[cls], visited);
      Associate(before, [cls], Mro(bases, toVisit, visited));
    }
    MroEnd(bases, toVisit, mro, visited);
    ghost var depth := WalkVisits(bases, start);
  }

  lemma {:induction false} EndsComplete(bases: seq<seq<nat>>, start: nat, found: map<nat, nat>)
    requires WalkInv(bases, start, [], [], found)
    ensures forall c :: c in found <==> Ancestor(bases, start, c)
  {
    forall c: nat
      ensures c in found <==> Ancestor(bases, start, c)
    {
      if Ancestor(bases, start, c) {
        var k: nat :| Linked(bases, start, c, k);
        Reached(bases, start, [], [], found, c, k);
      }
    }
  }

  /** is_subclass decides whether other is the class itself or one of its ancestors. */
  method IsSubclass(bases: seq<seq<nat>>, cls: nat, other: nat) returns (b: bool)
    requires ValidBases(bases) && cls < |bases|
    ensures b <==> Ancestor(bases, cls, other)
  {
    var mro := GetMro(bases, cls);
    b := other in mro;
  }
}
