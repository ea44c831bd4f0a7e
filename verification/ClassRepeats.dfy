/**
 What get_mro yields more than once, and in what order, in terms of the base lists: its queue
 holds a class as often as it is listed by classes visited before it.
 */
module ClassRepeats {
  import opened Common
  import opened ClassOrder

  // ---------- The law of the walk ----------

  function SetOf(s: seq<nat>): set<nat> {
    set c | c in s
  }

  /** What the visits of mro queue: of each class's base list the classes not visited by then. */
  function Pushed(bases: seq<seq<nat>>, mro: seq<nat>): seq<nat>
    requires Known(bases, mro)
    decreases |mro|
  {
    if mro == [] then []
    else
      var n := |mro| - 1;
      Pushed(bases, mro[..n]) + NewBases(bases[mro[n]], SetOf(mro))
  }

  lemma {:induction false} PushedMore(bases: seq<seq<nat>>, mro: seq<nat>, c: nat)
    requires Known(bases, mro) && c < |bases|
    ensures Known(bases, mro + [c])
    ensures Pushed(bases, mro + [c]) == Pushed(bases, mro) + NewBases(bases[c], SetOf(mro) + {c})
  {
    var next := mro + [c];
    assert next[..|mro|] == mro;
    assert SetOf(next) == SetOf(mro) + {c};
  }

  /** What is still queued is what the visits so far have queued and no visit has taken. */
  lemma {:induction false} LawFrom(bases: seq<seq<nat>>, start: nat, queue: seq<nat>, mro: seq<nat>)
    requires ValidBases(bases) && Known(bases, queue) && Known(bases, mro)
    requires [start] + Pushed(bases, mro) == mro + queue
    ensures var all := mro + Mro(bases, queue, SetOf(mro));
      Known(bases, all) && all == [start] + Pushed(bases, all)
    decreases Unvisited(|bases|, SetOf(mro)), Repeats(queue, SetOf(mro))
  {
    if queue == [] {
      MroEnd(bases, queue, mro, SetOf(mro));
      assert mro + queue == mro;
    } else {
      var c, next := queue[0], mro + [queue[0]];
      PushedMore(bases, mro, c);
      MroStep(bases, queue, SetOf(mro));
      assert SetOf(next) == SetOf(mro) + {c};
      hide Mro, Pushed, Known, SetOf, NewBases, Unvisited, Repeats;
      var added := NewBases(bases[c], SetOf(next));
      TakeFront([start], Pushed(bases, mro), mro, queue, added);
      LawFrom(bases, start, AfterVisit(bases, queue, SetOf(next)), next);
      Associate(mro, [c], Mro(bases, AfterVisit(bases, queue, SetOf(next)), SetOf(next)));
    }
  }

  lemma {:induction false} TakeFront(a: seq<nat>, pushed: seq<nat>, mro: seq<nat>, queue: seq<nat>, added: seq<nat>)
    requires a + pushed == mro + queue && queue != []
    ensures a + (pushed + added) == mro + [queue[0]] + (queue[1..] + added)
  {
    assert a + (pushed + added) == mro + queue + added;
    assert queue == [queue[0]] + queue[1..];
  }

  /** The walk yields the class, and then what its own visits queue. */
  lemma {:induction false} WalkLaw(bases: seq<seq<nat>>, start: nat)
    requires ValidBases(bases) && start < |bases|
    ensures var mro := Walk(bases, start);
      Known(bases, mro) && mro == [start] + Pushed(bases, mro)
  {
    assert SetOf([]) == {} && [start] + [] == [] + [start];
    LawFrom(bases, start, [start], []);
    hide Mro, Pushed;
    assert [] + Walk(bases, start) == Walk(bases, start);
  }

  // ---------- Counting visits ----------

  /** How often the base lists of the visited classes hold c, up to the first visit of c. */
  function Listings(bases: seq<seq<nat>>, mro: seq<nat>, c: nat): nat
    requires Known(bases, mro)
    decreases |mro|
  {
    if mro == [] then 0
    else
      var n := |mro| - 1;
      Listings(bases, mro[..n], c) + if c in mro then 0 else multiset(bases[mro[n]])[c]
  }

  lemma {:induction false} NewBasesCount(bs: seq<nat>, visited: set<nat>, c: nat)
    ensures multiset(NewBases(bs, visited))[c] == if c in visited then 0 else multiset(bs)[c]
    decreases |bs|
  {
    if bs != [] {
      NewBasesCount(bs[..|bs| - 1], visited, c);
      assert bs == bs[..|bs| - 1] + [bs[|bs| - 1]];
    }
  }

  lemma {:induction false} PushedCount(bases: seq<seq<nat>>, mro: seq<nat>, c: nat)
    requires Known(bases, mro)
    ensures multiset(Pushed(bases, mro))[c] == Listings(bases, mro, c)
    decreases |mro|
  {
    if mro != [] {
      var n := |mro| - 1;
      PushedCount(bases, mro[..n], c);
      NewBasesCount(bases[mro[n]], SetOf(mro), c);
    }
  }

  /** A class is visited as often as it is listed before its first visit; the first class once more. */
  lemma {:induction false} VisitsCounted(bases: seq<seq<nat>>, start: nat, c: nat)
    requires ValidBases(bases) && start < |bases|
    ensures var mro := Walk(bases, start);
      && Known(bases, mro)
      && multiset(mro)[c] == (if c == start then 1 else 0) + Listings(bases, mro, c)
  {
    WalkLaw(bases, start);
    PushedCount(bases, Walk(bases, start), c);
  }

  // ---------- When a class comes more than once ----------

  predicate NoRepeats(s: seq<nat>) {
    forall i, j :: 0 <= i < j < |s| ==> s[i] != s[j]
  }

  /** m is visited before c is. */
  predicate MetBefore(mro: seq<nat>, m: nat, c: nat) {
    exists t :: 0 <= t < |mro| && mro[t] == m && c !in mro[..t + 1]
  }

  /** The i-th base of m is c, and m is visited before c. */
  predicate ListsBefore(bases: seq<seq<nat>>, mro: seq<nat>, m: nat, i: nat, c: nat) {
    m < |bases| && i < |bases[m]| && bases[m][i] == c && MetBefore(mro, m, c)
  }

  /** Two places in base lists of classes visited before c hold c. */
  ghost predicate ListedTwice(bases: seq<seq<nat>>, mro: seq<nat>, c: nat) {
    exists m: nat, i: nat, n: nat, j: nat ::
      (m != n || i != j) && ListsBefore(bases, mro, m, i, c) && ListsBefore(bases, mro, n, j, c)
  }

  lemma {:induction false} ListingsGrow(bases: seq<seq<nat>>, mro: seq<nat>, k: nat, c: nat)
    requires Known(bases, mro) && k <= |mro|
    ensures Listings(bases, mro[..k], c) <= Listings(bases, mro, c)
    ensures c in mro[..k] ==> Listings(bases, mro[..k], c) == Listings(bases, mro, c)
    decreases |mro|
  {
    if k == |mro| {
      assert mro[..k] == mro;
    } else {
      var n := |mro| - 1;
      ListingsGrow(bases, mro[..n], k, c);
      assert mro[..n][..k] == mro[..k];
    }
  }

  /** One visit adds what its class lists. */
  lemma {:induction false} ListingsAt(bases: seq<seq<nat>>, mro: seq<nat>, t: nat, c: nat)
    requires Known(bases, mro) && t < |mro| && c !in mro[..t + 1]
    ensures Listings(bases, mro[..t + 1], c) == Listings(bases, mro[..t], c) + multiset(bases[mro[t]])[c]
    ensures Listings(bases, mro[..t + 1], c) <= Listings(bases, mro, c)
  {
    assert mro[..t + 1][..t] == mro[..t];
    ListingsGrow(bases, mro, t + 1, c);
  }

  lemma {:induction false} CountAtLeast(s: seq<nat>, i: nat, j: nat, c: nat)
    requires i <= j < |s| && s[i] == c == s[j]
    ensures multiset(s)[c] >= if i < j then 2 else 1
  {
    if i < j {
      assert s == s[..j] + s[j..];
      assert c == s[..j][i] && c == s[j..][0];
      assert multiset(s)[c] == multiset(s[..j])[c] + multiset(s[j..])[c];
    }
  }

  lemma {:induction false} TwoAtDifferent(bases: seq<seq<nat>>, mro: seq<nat>, t: nat, u: nat, c: nat)
    requires Known(bases, mro) && t < u < |mro| && c !in mro[..u + 1]
    requires c in bases[mro[t]] && c in bases[mro[u]]
    ensures Listings(bases, mro, c) >= 2
  {
    ListingsAt(bases, mro[..u], t, c);
    assert mro[..u][..t + 1] == mro[..t + 1] && mro[..u][..t] == mro[..t];
    ListingsAt(bases, mro, u, c);
  }

  lemma {:induction false} TwiceCounted(bases: seq<seq<nat>>, mro: seq<nat>, c: nat)
    requires Known(bases, mro) && ListedTwice(bases, mro, c)
    ensures Listings(bases, mro, c) >= 2
  {
    var m: nat, i: nat, n: nat, j: nat :|
      (m != n || i != j) && ListsBefore(bases, mro, m, i, c) && ListsBefore(bases, mro, n, j, c);
    var t :| 0 <= t < |mro| && mro[t] == m && c !in mro[..t + 1];
    var u :| 0 <= u < |mro| && mro[u] == n && c !in mro[..u + 1];
    if m == n {
      CountAtLeast(bases[m], if i < j then i else j, if i < j then j else i, c);
      ListingsAt(bases, mro, t, c);
    } else if t < u {
      TwoAtDifferent(bases, mro, t, u, c);
    } else {
      TwoAtDifferent(bases, mro, u, t, c);
    }
  }

  lemma {:induction false} CountAround(s: seq<nat>, i: nat)
    requires i < |s|
    ensures multiset(s)[s[i]] == multiset(s[..i])[s[i]] + 1 + multiset(s[i + 1..])[s[i]]
  {
    assert s == s[..i] + ([s[i]] + s[i + 1..]);
  }

  /** A class counted in a list stands somewhere in it; counted twice, at two places. */
  lemma {:induction false} PlacesOf(s: seq<nat>, c: nat) returns (i: nat, j: nat)
    requires multiset(s)[c] >= 1
    ensures i <= j < |s| && s[i] == c == s[j] && (multiset(s)[c] >= 2 ==> i < j)
  {
    assert c in s;
    var k: nat :| k < |s| && s[k] == c;
    CountAround(s, k);
    i, j := k, k;
    if multiset(s[..k])[c] >= 1 {
      assert c in s[..k];
      i :| i < k && s[..k][i] == c;
    } else if multiset(s[k + 1..])[c] >= 1 {
      assert c in s[k + 1..];
      var l: nat :| l < |s[k + 1..]| && s[k + 1..][l] == c;
      j := k + 1 + l;
    }
  }

  lemma {:induction false} SomeLister(bases: seq<seq<nat>>, mro: seq<nat>, c: nat) returns (t: nat, i: nat)
    requires Known(bases, mro) && Listings(bases, mro, c) >= 1 && c !in mro
    ensures t < |mro| && i < |bases[mro[t]]| && bases[mro[t]][i] == c
    decreases |mro|
  {
    var n := |mro| - 1;
    if multiset(bases[mro[n]])[c] >= 1 {
      t := n;
      var j;
      i, j := PlacesOf(bases[mro[n]], c);
    } else {
      t, i := SomeLister(bases, mro[..n], c);
    }
  }

  /** Two listings by different classes, or at two places of one list. */
  lemma {:induction false} TwoListers(bases: seq<seq<nat>>, mro: seq<nat>, c: nat)
      returns (t: nat, i: nat, u: nat, j: nat)
    requires Known(bases, mro) && Listings(bases, mro, c) >= 2
    requires c !in mro && NoRepeats(mro)
    ensures t < |mro| && i < |bases[mro[t]]| && bases[mro[t]][i] == c
    ensures u < |mro| && j < |bases[mro[u]]| && bases[mro[u]][j] == c
    ensures mro[t] != mro[u] || i != j
    decreases |mro|
  {
    var n := |mro| - 1;
    var here := multiset(bases[mro[n]])[c];
    if here == 0 {
      t, i, u, j := TwoListers(bases, mro[..n], c);
    } else {
      u := n;
      i, j := PlacesOf(bases[mro[n]], c);
      if here == 1 {
        t, i := SomeLister(bases, mro[..n], c);
      } else {
        t := n;
      }
    }
  }

  /** The first repetition: everything before it is new. */
  lemma {:induction false} FirstRepeat(s: seq<nat>) returns (i: nat, j: nat)
    requires !NoRepeats(s)
    ensures i < j < |s| && s[i] == s[j] && NoRepeats(s[..j])
    decreases |s|
  {
    var t := s[..|s| - 1];
    if NoRepeats(t) {
      j := |t|;
      i :| i < j && s[i] == s[j];
    } else {
      i, j := FirstRepeat(t);
      assert t[..j] == s[..j];
    }
  }

  lemma {:induction false} ListingsUpTo(bases: seq<seq<nat>>, mro: seq<nat>, f: nat)
    requires Known(bases, mro) && f < |mro|
    ensures Listings(bases, mro, mro[f]) == Listings(bases, mro[..f], mro[f])
  {
    ListingsGrow(bases, mro, f + 1, mro[f]);
    assert mro[..f + 1][..f] == mro[..f] && mro[..f + 1][f] == mro[f];
  }

  /** The output repeats a class exactly when some class is listed twice, in two base lists or in
      one, by classes visited before it. */
  lemma {:induction false} RepeatsByVisits(bases: seq<seq<nat>>, start: nat)
    requires ValidBases(bases) && start < |bases|
    ensures NoRepeats(Walk(bases, start)) <==> forall c :: !ListedTwice(bases, Walk(bases, start), c)
  {
    var mro := Walk(bases, start);
    forall c | ListedTwice(bases, mro, c)
      ensures !NoRepeats(mro)
    {
      VisitsCounted(bases, start, c);
      TwiceCounted(bases, mro, c);
      var i, j := PlacesOf(mro, c);
    }
    if !NoRepeats(mro) {
      var f, j := FirstRepeat(mro);
      var c := mro[f];
      CountAtLeast(mro, f, j, c);
      VisitsCounted(bases, start, c);
      WalkLaw(bases, start);
      ListingsUpTo(bases, mro, f);
      assert f > 0 ==> mro[..j][0] != mro[..j][f];
      assert mro[..j][..f] == mro[..f];
      var t, i, u, k := TwoListers(bases, mro[..f], c);
      assert c !in mro[..t + 1] && c !in mro[..u + 1];
      assert ListsBefore(bases, mro, mro[t], i, c) && ListsBefore(bases, mro, mro[u], k, c);
      assert ListedTwice(bases, mro, c);
    }
  }

  // ---------- The order of first visits ----------

  /** An ordinary breadth-first search: every class once. */
  function Bfs(bases: seq<seq<nat>>, queue: seq<nat>, visited: set<nat>): seq<nat>
    requires ValidBases(bases) && Known(bases, queue)
    decreases Unvisited(|bases|, visited), |queue|
  {
    if queue == [] then []
    else if queue[0] in visited then Bfs(bases, queue[1..], visited)
    else
      InAllBelow(|bases|, queue[0]);
      assert queue[0] in Unvisited(|bases|, visited);
      [queue[0]] + Bfs(bases, queue[1..] + bases[queue[0]], visited + {queue[0]})
  }

  /** The classes of s that are not visited, each at its first place. */
  function Firsts(s: seq<nat>, visited: set<nat>): seq<nat>
    decreases |s|
  {
    if s == [] then []
    else if s[0] in visited then Firsts(s[1..], visited)
    else [s[0]] + Firsts(s[1..], visited + {s[0]})
  }

  /** The search does not mind queue entries that are visited or stand further in front, too. */
  lemma {:induction false} BfsSkips(bases: seq<seq<nat>>, queue: seq<nat>, extra: seq<nat>, rest: seq<nat>, visited: set<nat>)
    requires ValidBases(bases) && Known(bases, queue) && Known(bases, extra) && Known(bases, rest)
    requires forall c :: c in extra ==> c in visited || c in queue
    ensures Bfs(bases, queue + extra + rest, visited) == Bfs(bases, queue + rest, visited)
    decreases Unvisited(|bases|, visited), |queue|, |extra|
  {
    if queue == [] {
      assert queue + rest == rest;
      if extra == [] {
        assert queue + extra + rest == rest;
      } else {
        assert (queue + extra + rest)[0] == extra[0] && extra[0] in visited;
        assert (queue + extra + rest)[1..] == queue + extra[1..] + rest;
        BfsSkips(bases, queue, extra[1..], rest, visited);
      }
    } else {
      var c := queue[0];
      assert (queue + extra + rest)[1..] == queue[1..] + extra + rest && (queue + rest)[1..] == queue[1..] + rest;
      if c in visited {
        BfsSkips(bases, queue[1..], extra, rest, visited);
      } else {
        InAllBelow(|bases|, c);
        assert c in Unvisited(|bases|, visited);
        assert queue[1..] + extra + rest + bases[c] == queue[1..] + extra + (rest + bases[c]);
        assert queue[1..] + rest + bases[c] == queue[1..] + (rest + bases[c]);
        BfsSkips(bases, queue[1..], extra, rest + bases[c], visited + {c});
      }
    }
  }

  lemma {:induction false} BfsDrops(bases: seq<seq<nat>>, queue: seq<nat>, bs: seq<nat>, rest: seq<nat>, visited: set<nat>)
    requires ValidBases(bases) && Known(bases, queue) && Known(bases, bs) && Known(bases, rest)
    ensures Known(bases, NewBases(bs, visited))
    ensures Bfs(bases, queue + bs + rest, visited) == Bfs(bases, queue + NewBases(bs, visited) + rest, visited)
    decreases |bs|
  {
    if bs == [] {
      assert NewBases(bs, visited) == bs;
    } else {
      var front, b := bs[..|bs| - 1], bs[|bs| - 1];
      if b in visited {
        assert queue + bs + rest == (queue + front) + [b] + rest;
        BfsSkips(bases, queue + front, [b], rest, visited);
        BfsDrops(bases, queue, front, rest, visited);
        assert NewBases(bs, visited) == NewBases(front, visited);
      } else {
        assert queue + bs + rest == queue + front + ([b] + rest);
        BfsDrops(bases, queue, front, [b] + rest, visited);
        assert queue + NewBases(bs, visited) + rest == queue + NewBases(front, visited) + ([b] + rest);
      }
    }
  }

  /** All bases of visited classes are visited or queued. */
  predicate AllQueued(bases: seq<seq<nat>>, queue: seq<nat>, visited: set<nat>) {
    forall c, b :: c in visited && c < |bases| && b in bases[c] ==> b in visited || b in queue
  }

  lemma {:induction false} QueuedNext(bases: seq<seq<nat>>, queue: seq<nat>, visited: set<nat>)
    requires queue != [] && queue[0] < |bases| && AllQueued(bases, queue, visited)
    ensures var v := visited + {queue[0]}; AllQueued(bases, AfterVisit(bases, queue, v), v)
  {
    var v := visited + {queue[0]};
    var added := NewBases(bases[queue[0]], v);
    NewBasesHold(bases[queue[0]], v);
    forall c, b | c in v && c < |bases| && b in bases[c]
      ensures b in v || b in queue[1..] + added
    {
      assert queue == [queue[0]] + queue[1..];
    }
  }

  /** First visits come in the order of the breadth-first search. */
  lemma {:induction false} FirstsAreBfs(bases: seq<seq<nat>>, queue: seq<nat>, visited: set<nat>)
    requires ValidBases(bases) && Known(bases, queue) && AllQueued(bases, queue, visited)
    ensures Firsts(Mro(bases, queue, visited), visited) == Bfs(bases, queue, visited)
    decreases Unvisited(|bases|, visited), Repeats(queue, visited)
  {
    if queue != [] {
      var c, rest := queue[0], queue[1..];
      var v := visited + {c};
      assert c in visited ==> v == visited;
      MroStep(bases, queue, visited);
      QueuedNext(bases, queue, visited);
      FirstsAreBfs(bases, AfterVisit(bases, queue, v), v);
      FirstsCons(c, Mro(bases, AfterVisit(bases, queue, v), v), visited);
      hide Mro, Firsts, Unvisited, Repeats;
      BfsVisit(bases, queue, visited);
    }
  }

  lemma {:induction false} FirstsCons(c: nat, s: seq<nat>, visited: set<nat>)
    ensures Firsts([c] + s, visited) == if c in visited then Firsts(s, visited) else [c] + Firsts(s, visited + {c})
  {
    assert ([c] + s)[1..] == s;
  }

  /** One class from the queue, with only its new bases queued. */
  lemma {:induction false} BfsVisit(bases: seq<seq<nat>>, queue: seq<nat>, visited: set<nat>)
    requires ValidBases(bases) && Known(bases, queue) && AllQueued(bases, queue, visited) && queue != []
    ensures var v := visited + {queue[0]};
      var next := AfterVisit(bases, queue, v);
      && Known(bases, next)
      && Bfs(bases, queue, visited) == if queue[0] in visited then Bfs(bases, next, v) else [queue[0]] + Bfs(bases, next, v)
  {
    var c, rest := queue[0], queue[1..];
    var v := visited + {c};
    var added := NewBases(bases[c], v);
    NewBasesHold(bases[c], v);
    KnownAfter(bases, queue, v);
    assert forall i :: 0 <= i < |added| ==> added[i] in bases[c];
    assert queue == [c] + rest;
    if c in visited {
      assert v == visited;
      BfsSkips(bases, rest, added, [], v);
      assert rest + added + [] == rest + added && rest + [] == rest;
    } else {
      BfsDrops(bases, rest, bases[c], [], v);
      assert rest + bases[c] + [] == rest + bases[c] && rest + added + [] == rest + added;
    }
  }

  lemma {:induction false} MetCons(x: nat, s: seq<nat>, m: nat, c: nat)
    ensures MetBefore([x] + s, m, c) <==> x != c && (x == m || MetBefore(s, m, c))
  {
    var all := [x] + s;
    if MetBefore(all, m, c) {
      var t :| 0 <= t < |all| && all[t] == m && c !in all[..t + 1];
      assert all[..t + 1][0] == x;
      if t > 0 {
        assert s[t - 1] == m && all[..t + 1] == [x] + s[..t];
      }
    }
    if x != c && x == m {
      assert all[0] == m && all[..1] == [x];
    } else if x != c && MetBefore(s, m, c) {
      var t :| 0 <= t < |s| && s[t] == m && c !in s[..t + 1];
      assert all[t + 1] == m && all[..t + 2] == [x] + s[..t + 1];
    }
  }

  lemma {:induction false} FirstsMet(s: seq<nat>, visited: set<nat>, m: nat, c: nat)
    requires m !in visited && c !in visited
    ensures MetBefore(Firsts(s, visited), m, c) <==> MetBefore(s, m, c)
    decreases |s|
  {
    if s != [] {
      var x, rest := s[0], s[1..];
      assert s == [x] + rest;
      MetCons(x, rest, m, c);
      hide MetBefore;
      if x in visited {
        FirstsMet(rest, visited, m, c);
      } else {
        MetCons(x, Firsts(rest, visited + {x}), m, c);
        if x != m && x != c { FirstsMet(rest, visited + {x}, m, c); }
      }
    }
  }

  /** The class and its ancestors in breadth-first order. */
  function Order(bases: seq<seq<nat>>, start: nat): seq<nat>
    requires ValidBases(bases) && start < |bases|
  {
    Bfs(bases, [start], {})
  }

  /** Which of two classes get_mro visits first is decided by the breadth-first search. */
  lemma {:induction false} VisitsInOrder(bases: seq<seq<nat>>, start: nat)
    requires ValidBases(bases) && start < |bases|
    ensures Firsts(Walk(bases, start), {}) == Order(bases, start)
    ensures forall m, c :: MetBefore(Walk(bases, start), m, c) <==> MetBefore(Order(bases, start), m, c)
  {
    FirstsAreBfs(bases, [start], {});
    hide MetBefore, Firsts, Mro, Bfs;
    forall m, c
      ensures MetBefore(Walk(bases, start), m, c) <==> MetBefore(Order(bases, start), m, c)
    {
      FirstsMet(Walk(bases, start), {}, m, c);
    }
  }

  /** get_mro yields each class once exactly when no class stands at two places in the base lists of
      classes before it in breadth-first order. */
  lemma {:induction false} RepeatsIff(bases: seq<seq<nat>>, start: nat)
    requires ValidBases(bases) && start < |bases|
    ensures NoRepeats(Walk(bases, start)) <==> forall c :: !ListedTwice(bases, Order(bases, start), c)
  {
    RepeatsByVisits(bases, start);
    VisitsInOrder(bases, start);
    hide Walk, Order, MetBefore, NoRepeats;
    forall c
      ensures ListedTwice(bases, Order(bases, start), c) <==> ListedTwice(bases, Walk(bases, start), c)
    {
      SameListed(bases, Order(bases, start), Walk(bases, start), c);
      SameListed(bases, Walk(bases, start), Order(bases, start), c);
    }
  }

  lemma {:induction false} SameListed(bases: seq<seq<nat>>, s: seq<nat>, t: seq<nat>, c: nat)
    requires forall m :: MetBefore(s, m, c) <==> MetBefore(t, m, c)
    ensures ListedTwice(bases, s, c) ==> ListedTwice(bases, t, c)
  {
    hide MetBefore;
    if ListedTwice(bases, s, c) {
      var m: nat, i: nat, n: nat, j: nat :|
        (m != n || i != j) && ListsBefore(bases, s, m, i, c) && ListsBefore(bases, s, n, j, c);
      assert ListsBefore(bases, t, m, i, c) && ListsBefore(bases, t, n, j, c);
    }
  }

  // ---------- The same by distance ----------

  lemma {:induction false} FirstPlace(s: seq<nat>, c: nat) returns (i: nat)
    requires c in s
    ensures FirstAt(s, i) && s[i] == c
  {
    i := 0;
    while s[i] != c
      invariant i < |s| && c in s[i..] && forall j :: 0 <= j < i ==> s[j] != c
      decreases |s| - i
    {
      assert s[i..] == [s[i]] + s[i + 1..];
      i := i + 1;
    }
  }

  lemma {:induction false} SameDistance(bases: seq<seq<nat>>, u: nat, v: nat, k: nat, l: nat)
    requires Distance(bases, u, v, k) && Distance(bases, u, v, l)
    ensures k == l
  {}

  /** A nearer class is visited before one further away. */
  lemma {:induction false} NearerFirst(bases: seq<seq<nat>>, start: nat, m: nat, c: nat, k: nat, d: nat)
    requires ValidBases(bases) && start < |bases|
    requires Distance(bases, start, m, k) && Distance(bases, start, c, d) && k < d
    ensures MetBefore(Walk(bases, start), m, c) && !MetBefore(Walk(bases, start), c, m)
  {
    var depth := WalkVisits(bases, start);
    var mro := Walk(bases, start);
    hide Walk;
    assert Ancestor(bases, start, m) && Ancestor(bases, start, c);
    var t := FirstPlace(mro, m);
    var u := FirstPlace(mro, c);
    SameDistance(bases, start, m, k, depth[t]);
    SameDistance(bases, start, c, d, depth[u]);
    hide Ancestor, Distance, FirstVisits;
    assert t < u;
    assert c !in mro[..t + 1];
    forall s | 0 <= s < |mro| && mro[s] == c
      ensures m in mro[..s + 1]
    {
      assert u <= s && mro[..s + 1][t] == m;
    }
  }

  /** No class is listed at two places in the base lists of start and its ancestors. */
  ghost predicate ListedOnce(bases: seq<seq<nat>>, start: nat) {
    forall m: nat, i: nat, n: nat, j: nat ::
      && Ancestor(bases, start, m) && Ancestor(bases, start, n) && m < |bases| && n < |bases|
      && i < |bases[m]| && j < |bases[n]| && bases[m][i] == bases[n][j]
      ==> m == n && i == j
  }

  lemma {:induction false} ListedOnceNoRepeats(bases: seq<seq<nat>>, start: nat)
    requires ValidBases(bases) && start < |bases| && ListedOnce(bases, start)
    ensures NoRepeats(Walk(bases, start))
  {
    RepeatsByVisits(bases, start);
    var _ := WalkVisits(bases, start);
    hide Walk, Ancestor, NoRepeats, NonDecreasing, FirstVisits;
    forall c
      ensures !ListedTwice(bases, Walk(bases, start), c)
    {}
  }

  lemma {:induction false} TwoNearerRepeat(bases: seq<seq<nat>>, start: nat, m: nat, i: nat, n: nat, j: nat, k: nat, l: nat, d: nat)
    requires ValidBases(bases) && start < |bases| && m < |bases| && n < |bases| && (m != n || i != j)
    requires i < |bases[m]| && j < |bases[n]| && bases[m][i] == bases[n][j]
    requires Distance(bases, start, m, k) && Distance(bases, start, n, l) && Distance(bases, start, bases[m][i], d)
    requires k < d && l < d
    ensures !NoRepeats(Walk(bases, start))
  {
    var c := bases[m][i];
    NearerFirst(bases, start, m, c, k, d);
    NearerFirst(bases, start, n, c, l, d);
    RepeatsByVisits(bases, start);
    hide Walk, MetBefore, Distance;
    assert ListsBefore(bases, Walk(bases, start), m, i, c) && ListsBefore(bases, Walk(bases, start), n, j, c);
    assert ListedTwice(bases, Walk(bases, start), c);
  }

  // ---------- From leaf to root ----------

  /** A base link of start or of one of its ancestors, with the distances of its ends. */
  ghost predicate Link(bases: seq<seq<nat>>, start: nat, m: nat, b: nat, k: nat, d: nat) {
    m < |bases| && b in bases[m] && Distance(bases, start, m, k) && Distance(bases, start, b, d)
  }

  /** Every class is visited before its bases. */
  ghost predicate LeafToRoot(bases: seq<seq<nat>>, start: nat)
    requires ValidBases(bases) && start < |bases|
  {
    forall m: nat, b: nat, k: nat, d: nat :: Link(bases, start, m, b, k, d) ==> MetBefore(Walk(bases, start), m, b)
  }

  /** Every class comes before its bases exactly when no base is nearer than a class that lists it,
      and one as near comes later in breadth-first order. */
  lemma {:induction false} LeafToRootIff(bases: seq<seq<nat>>, start: nat)
    requires ValidBases(bases) && start < |bases|
    ensures LeafToRoot(bases, start) <==>
      forall m: nat, b: nat, k: nat, d: nat :: Link(bases, start, m, b, k, d) ==>
        k <= d && (k == d ==> MetBefore(Order(bases, start), m, b))
  {
    VisitsInOrder(bases, start);
    hide Walk, Order, MetBefore;
    forall m: nat, b: nat, k: nat, d: nat | Link(bases, start, m, b, k, d)
      ensures k < d ==> MetBefore(Walk(bases, start), m, b)
      ensures d < k ==> !MetBefore(Walk(bases, start), m, b)
    {
      if k < d { NearerFirst(bases, start, m, b, k, d); }
      if d < k { NearerFirst(bases, start, b, m, d, k); }
    }
  }

  // ---------- Two inputs ----------

  lemma {:induction false} NewBasesOne(a: nat, visited: set<nat>)
    ensures NewBases([a], visited) == if a in visited then [] else [a]
  {
    assert [a][..0] == [];
  }

  lemma {:induction false} NewBasesTwo(a: nat, b: nat, visited: set<nat>)
    ensures NewBases([a, b], visited) == (if a in visited then [] else [a]) + if b in visited then [] else [b]
  {
    assert [a, b][..1] == [a];
    NewBasesOne(a, visited);
  }

  lemma {:induction false} StepTo(bases: seq<seq<nat>>, queue: seq<nat>, visited: set<nat>, next: seq<nat>, v: set<nat>)
    requires ValidBases(bases) && Known(bases, queue) && queue != []
    requires v == visited + {queue[0]} && next == queue[1..] + NewBases(bases[queue[0]], v)
    ensures Known(bases, next) && Mro(bases, queue, visited) == [queue[0]] + Mro(bases, next, v)
  {
    MroStep(bases, queue, visited);
  }

  const DIAMOND: seq<seq<nat>> := [[1, 2], [3], [3], []]

  lemma {:induction false} TopOfDiamond()
    ensures ValidBases(DIAMOND) && Mro(DIAMOND, [3, 3], {0, 1, 2}) == [3, 3]
  {
    hide Mro;
    StepTo(DIAMOND, [3, 3], {0, 1, 2}, [3], {0, 1, 2, 3});
    StepTo(DIAMOND, [3], {0, 1, 2, 3}, [], {0, 1, 2, 3});
    MroEnd(DIAMOND, [], [], {0, 1, 2, 3});
  }

  lemma {:induction false} SidesOfDiamond()
    ensures ValidBases(DIAMOND) && Mro(DIAMOND, [1, 2], {0}) == [1, 2, 3, 3]
  {
    hide Mro, NewBases;
    TopOfDiamond();
    NewBasesOne(3, {0, 1});
    StepTo(DIAMOND, [1, 2], {0}, [2, 3], {0, 1});
    NewBasesOne(3, {0, 1, 2});
    StepTo(DIAMOND, [2, 3], {0, 1}, [3, 3], {0, 1, 2});
  }

  /** The class at the top of a diamond comes twice. */
  lemma {:induction false} DiamondRepeats()
    ensures ValidBases(DIAMOND) && Walk(DIAMOND, 0) == [0, 1, 2, 3, 3]
  {
    hide Mro, NewBases;
    SidesOfDiamond();
    NewBasesTwo(1, 2, {0});
    StepTo(DIAMOND, [0], {}, [1, 2], {0});
  }

  const SHORTCUT: seq<seq<nat>> := [[1, 2], [], [1]]

  /** Class 1 is a base of class 2 and of class 0: it comes before its subclass 2. */
  lemma {:induction false} BaseBeforeSubclass()
    ensures ValidBases(SHORTCUT) && Walk(SHORTCUT, 0) == [0, 1, 2] && 1 in SHORTCUT[2]
  {
    hide Mro;
    NewBasesTwo(1, 2, {0});
    StepTo(SHORTCUT, [0], {}, [1, 2], {0});
    StepTo(SHORTCUT, [1, 2], {0}, [2], {0, 1});
    NewBasesOne(1, {0, 1, 2});
    StepTo(SHORTCUT, [2], {0, 1}, [], {0, 1, 2});
    MroEnd(SHORTCUT, [], [], {0, 1, 2});
  }
}
