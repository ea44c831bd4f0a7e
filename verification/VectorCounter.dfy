/**
 The odometer vector_counter of pybindgen/pybindgen/overloading.py: all combinations of one
 element from each list, the last list turning fastest.
 */
module VectorCounter {

  // ---------- Index tuples and their rank ----------

  predicate Digits<T>(vec: seq<seq<T>>, ds: seq<nat>) {
    |ds| == |vec| && forall i :: 0 <= i < |vec| ==> ds[i] < |vec[i]|
  }

  function Product<T>(vec: seq<seq<T>>): nat
    decreases |vec|
  {
    if vec == [] then 1 else Product(vec[..|vec| - 1]) * |vec[|vec| - 1]|
  }

  /** The rank of an index tuple in mixed radix, the first index most significant. */
  function Rank<T>(vec: seq<seq<T>>, ds: seq<nat>): nat
    requires |ds| == |vec|
    decreases |vec|
  {
    if vec == [] then 0
    else
      var n := |vec| - 1;
      Rank(vec[..n], ds[..n]) * |vec[n]| + ds[n]
  }

  function Pick<T>(vec: seq<seq<T>>, ds: seq<nat>): (r: seq<T>)
    requires Digits(vec, ds)
    ensures |r| == |vec| && forall i :: 0 <= i < |vec| ==> r[i] == vec[i][ds[i]]
  {
    seq(|vec|, i requires 0 <= i < |vec| => vec[i][ds[i]])
  }

  /** ds comes before es in the dictionary order of index tuples. */
  predicate LexBefore(ds: seq<nat>, es: seq<nat>)
    requires |ds| == |es|
  {
    exists k :: 0 <= k < |ds| && ds[..k] == es[..k] && ds[k] < es[k]
  }

  lemma {:induction false} MulLess(a: nat, b: nat, m: nat)
    requires a < b
    ensures a * m + m <= b * m
    decreases b
  {
    if b == a + 1 {
      assert b * m == a * m + m;
    } else {
      MulLess(a, b - 1, m);
    }
  }

  lemma {:induction false} RankBelow<T>(vec: seq<seq<T>>, ds: seq<nat>)
    requires Digits(vec, ds)
    ensures Rank(vec, ds) < Product(vec)
    decreases |vec|
  {
    if vec != [] {
      var n := |vec| - 1;
      RankBelow(vec[..n], ds[..n]);
      MulLess(Rank(vec[..n], ds[..n]), Product(vec[..n]), |vec[n]|);
    }
  }

  /** A tuple that is earlier in the dictionary has the smaller rank. */
  lemma {:induction false} RankFollowsLex<T>(vec: seq<seq<T>>, ds: seq<nat>, es: seq<nat>)
    requires Digits(vec, ds) && Digits(vec, es) && LexBefore(ds, es)
    ensures Rank(vec, ds) < Rank(vec, es)
    decreases |vec|
  {
    var n := |vec| - 1;
    var k :| 0 <= k < |ds| && ds[..k] == es[..k] && ds[k] < es[k];
    if k == n {
      assert ds[..n] == es[..n];
    } else {
      assert ds[..n][..k] == ds[..k] && es[..n][..k] == es[..k];
      assert LexBefore(ds[..n], es[..n]);
      RankFollowsLex(vec[..n], ds[..n], es[..n]);
      MulLess(Rank(vec[..n], ds[..n]), Rank(vec[..n], es[..n]), |vec[n]|);
    }
  }

  /** Different tuples differ somewhere first, so no rank is taken twice. */
  lemma {:induction false} RankIsInjective<T>(vec: seq<seq<T>>, ds: seq<nat>, es: seq<nat>)
    requires Digits(vec, ds) && Digits(vec, es) && ds != es
    ensures Rank(vec, ds) != Rank(vec, es)
  {
    var k := FirstDifference(ds, es, 0);
    if ds[k] < es[k] {
      assert LexBefore(ds, es);
      RankFollowsLex(vec, ds, es);
    } else {
      assert es[..k] == ds[..k];
      assert LexBefore(es, ds);
      RankFollowsLex(vec, es, ds);
    }
  }

  lemma {:induction false} FirstDifference(ds: seq<nat>, es: seq<nat>, i: nat) returns (k: nat)
    requires |ds| == |es| && (exists k :: i <= k < |ds| && ds[k] != es[k]) && ds[..i] == es[..i]
    ensures k < |ds| && ds[..k] == es[..k] && ds[k] != es[k]
    decreases |ds| - i
  {
    if ds[i] != es[i] { return i; }
    k := FirstDifference(ds, es, i + 1);
  }

  /** Every number below the product is the rank of some tuple. */
  lemma {:induction false} RankIsOnto<T>(vec: seq<seq<T>>, x: nat) returns (ds: seq<nat>)
    requires x < Product(vec)
    ensures Digits(vec, ds) && Rank(vec, ds) == x
    decreases |vec|
  {
    if vec == [] { return []; }
    var n := |vec| - 1;
    var m := |vec[n]|;
    QuotientBelow(x, Product(vec[..n]), m);
    var front := RankIsOnto(vec[..n], x / m);
    ds := front + [x % m];
    assert ds[..n] == front;
  }

  lemma {:induction false} QuotientBelow(x: nat, p: nat, m: nat)
    requires x < p * m
    ensures m > 0 && x / m < p && x == x / m * m + x % m
  {
    if m > 0 && x / m >= p {
      MulAtLeast(p, x / m, m);
    }
  }

  lemma {:induction false} MulAtLeast(a: nat, b: nat, m: nat)
    requires a <= b
    ensures a * m <= b * m
  {}

  // ---------- One turn of the odometer ----------

  /** The next tuple, None after the last. */
  datatype Next = Last | Then(ds: seq<nat>)

  function Succ<T>(vec: seq<seq<T>>, ds: seq<nat>): Next
    requires Digits(vec, ds)
    decreases |vec|
  {
    if vec == [] then Last
    else
      var n := |vec| - 1;
      if ds[n] + 1 < |vec[n]| then Then(ds[n := ds[n] + 1])
      else match Succ(vec[..n], ds[..n])
        case Last => Last
        case Then(es) => Then(es + [0])
  }

  /** The next tuple has the next rank, and there is none exactly after the highest rank. */
  lemma {:induction false} SuccIsNext<T>(vec: seq<seq<T>>, ds: seq<nat>)
    requires Digits(vec, ds)
    ensures var s := Succ(vec, ds);
      && (s.Last? ==> Rank(vec, ds) + 1 == Product(vec))
      && (s.Then? ==> Digits(vec, s.ds) && Rank(vec, s.ds) == Rank(vec, ds) + 1)
    decreases |vec|
  {
    if vec != [] {
      var n := |vec| - 1;
      if ds[n] + 1 < |vec[n]| {
        assert ds[n := ds[n] + 1][..n] == ds[..n];
      } else {
        SuccIsNext(vec[..n], ds[..n]);
        var s := Succ(vec[..n], ds[..n]);
        NextDigit(Rank(vec[..n], ds[..n]), |vec[n]|, ds[n]);
        if s.Then? {
          assert (s.ds + [0])[..n] == s.ds;
        }
      }
    }
  }

  lemma {:induction false} NextDigit(a: nat, m: nat, d: nat)
    requires d + 1 == m
    ensures (a + 1) * m == a * m + d + 1
  {}

  /** Turning the wheels from i on: the tuple so far has zeros from i on. */
  lemma {:induction false} SuccAt<T>(vec: seq<seq<T>>, ds: seq<nat>, i: nat)
    requires Digits(vec, ds) && i <= |vec|
    requires forall j :: i <= j < |vec| ==> ds[j] + 1 == |vec[j]|
    ensures Succ(vec, ds) == match Succ(vec[..i], ds[..i])
      case Last => Last
      case Then(es) => Then(es + Zeros(|vec| - i))
    decreases |vec|
  {
    if i == |vec| {
      assert vec[..i] == vec && ds[..i] == ds;
      var s := Succ(vec, ds);
      if s.Then? { assert s.ds + Zeros(0) == s.ds; }
    } else {
      var n := |vec| - 1;
      SuccAt(vec[..n], ds[..n], i);
      assert vec[..n][..i] == vec[..i] && ds[..n][..i] == ds[..i];
      var s := Succ(vec[..i], ds[..i]);
      if s.Then? { assert s.ds + Zeros(n - i) + [0] == s.ds + Zeros(|vec| - i); }
    }
  }

  function Zeros(n: nat): (z: seq<nat>)
    ensures |z| == n && forall i :: 0 <= i < n ==> z[i] == 0
  {
    seq(n, _ => 0)
  }

  // ---------- The generator ----------

  /** What the generator yields until it stops, or the IndexError of its first line. */
  datatype Outcome<T> = Yields(out: seq<seq<T>>) | IndexError

  predicate Ready<T>(vec: seq<seq<T>>) {
    vec != [] && forall i :: 0 <= i < |vec| ==> vec[i] != []
  }

  /** values and iters while some tuple is shown: each iterator is one past its index. */
  ghost predicate Shows<T>(vec: seq<seq<T>>, values: seq<T>, iters: seq<nat>, ds: seq<nat>)
    requires Digits(vec, ds)
  {
    && |values| == |iters| == |vec|
    && forall i :: 0 <= i < |vec| ==> values[i] == vec[i][ds[i]] && iters[i] == ds[i] + 1
  }

  /** Before the first tuple: the last iterator has not moved yet. */
  ghost predicate Begins<T>(vec: seq<seq<T>>, values: seq<T>, iters: seq<nat>)
    requires Ready(vec)
  {
    && |values| == |iters| == |vec|
    && (forall i :: 0 <= i < |vec| ==> values[i] == vec[i][0])
    && (forall i :: 0 <= i < |vec| - 1 ==> iters[i] == 1) && iters[|vec| - 1] == 0
  }

  /** The tuple shown, None at the start. */
  datatype Shown = Nothing | Tuple(ds: seq<nat>)

  ghost predicate State<T>(vec: seq<seq<T>>, values: seq<T>, iters: seq<nat>, s: Shown) {
    Ready(vec) && if s.Nothing? then Begins(vec, values, iters) else Digits(vec, s.ds) && Shows(vec, values, iters, s.ds)
  }

  ghost function After<T>(vec: seq<seq<T>>, s: Shown): Next
    requires s.Tuple? ==> Digits(vec, s.ds)
  {
    if s.Nothing? then Then(Zeros(|vec|)) else Succ(vec, s.ds)
  }

  /** Wheel k has moved one on, the wheels after it are back at their first element. */
  lemma {:induction false} Turned<T>(vec: seq<seq<T>>, v0: seq<T>, i0: seq<nat>, v1: seq<T>, i1: seq<nat>, s: Shown, k: nat)
    requires State(vec, v0, i0, s) && k < |vec| == |v1| == |i1| && i0[k] < |vec[k]|
    requires s.Nothing? ==> k == |vec| - 1
    requires s.Tuple? ==> Digits(vec, s.ds) && forall i :: k < i < |vec| ==> s.ds[i] + 1 == |vec[i]|
    requires forall i :: 0 <= i < k ==> v1[i] == v0[i] && i1[i] == i0[i]
    requires v1[k] == vec[k][i0[k]] && i1[k] == i0[k] + 1
    requires forall i :: k < i < |vec| ==> v1[i] == vec[i][0] && i1[i] == 1
    ensures After(vec, s).Then? && State(vec, v1, i1, Tuple(After(vec, s).ds))
  {
    if s.Tuple? {
      TurnAt(vec, s.ds, k);
      SuccIsNext(vec, s.ds);
    }
    var es := After(vec, s).ds;
    forall i | 0 <= i < |vec|
      ensures v1[i] == vec[i][es[i]] && i1[i] == es[i] + 1
    {}
  }

  /** One pass of the for loop over the wheels, from the last to the first: it turns the wheels to
      the next tuple, or says that there is none. */
  method Turn<T>(vec: seq<seq<T>>, values: array<T>, iters: array<nat>, ghost s: Shown) returns (more: bool)
    requires State(vec, values[..], iters[..], s) && values.Length == iters.Length == |vec|
    requires (values as object) != (iters as object)
    modifies values, iters
    ensures more == After(vec, s).Then?
    ensures more ==> State(vec, values[..], iters[..], Tuple(After(vec, s).ds))
  {
    ghost var v0, i0 := values[..], iters[..];
    var idx := |vec|;
    while idx > 0
      invariant 0 <= idx <= |vec| && (s.Nothing? ==> idx == |vec|) && (s.Tuple? ==> Digits(vec, s.ds))
      invariant forall i :: 0 <= i < idx ==> values[i] == v0[i] && iters[i] == i0[i]
      invariant forall i :: idx <= i < |vec| ==> values[i] == vec[i][0] && iters[i] == 1
      invariant s.Tuple? ==> forall i :: idx <= i < |vec| ==> s.ds[i] + 1 == |vec[i]|
    {
      idx := idx - 1;
      assert vec[idx] != [] && iters[idx] == i0[idx];
      if iters[idx] < |vec[idx]| {
        values[idx] := vec[idx][iters[idx]];
        iters[idx] := iters[idx] + 1;
        Turned(vec, v0, i0, values[..], iters[..], s, idx);
        return true;
      }
      iters[idx] := 0;
      values[idx] := vec[idx][iters[idx]];
      iters[idx] := iters[idx] + 1;
    }
    SuccAt(vec, s.ds, 0);
    more := false;
  }

  /** The next tuple when wheel i can move and all wheels after it are at their end. */
  lemma {:induction false} TurnAt<T>(vec: seq<seq<T>>, ds: seq<nat>, i: nat)
    requires Digits(vec, ds) && i < |vec| && ds[i] + 1 < |vec[i]|
    requires forall j :: i < j < |vec| ==> ds[j] + 1 == |vec[j]|
    ensures Succ(vec, ds) == Then(ds[..i] + [ds[i] + 1] + Zeros(|vec| - i - 1))
  {
    SuccAt(vec, ds, i + 1);
    var front := ds[..i + 1];
    assert front[i := front[i] + 1] == ds[..i] + [ds[i] + 1];
  }

  /** The tuples yielded so far: the first |out| ones by rank. */
  ghost predicate Listed<T>(vec: seq<seq<T>>, out: seq<seq<T>>) {
    forall ds {:trigger Digits(vec, ds)} :: Digits(vec, ds) && Rank(vec, ds) < |out| ==> out[Rank(vec, ds)] == Pick(vec, ds)
  }

  lemma {:induction false} ListedPush<T>(vec: seq<seq<T>>, out: seq<seq<T>>, ds: seq<nat>)
    requires Listed(vec, out) && Digits(vec, ds) && Rank(vec, ds) == |out|
    ensures Listed(vec, out + [Pick(vec, ds)])
  {
    forall es | Digits(vec, es) && Rank(vec, es) < |out| + 1
      ensures (out + [Pick(vec, ds)])[Rank(vec, es)] == Pick(vec, es)
    {
      if Rank(vec, es) == |out| && es != ds {
        RankIsInjective(vec, es, ds);
      }
    }
  }

  lemma {:induction false} ZeroRank<T>(vec: seq<seq<T>>)
    requires forall i :: 0 <= i < |vec| ==> vec[i] != []
    ensures Rank(vec, Zeros(|vec|)) == 0
    decreases |vec|
  {
    if vec != [] {
      var n := |vec| - 1;
      ZeroRank(vec[..n]);
      assert Zeros(|vec|)[..n] == Zeros(n);
    }
  }

  lemma {:induction false} NoTuples<T>(vec: seq<seq<T>>, i: nat)
    requires i < |vec| && vec[i] == []
    ensures Product(vec) == 0
    decreases |vec|
  {
    if i < |vec| - 1 { NoTuples(vec[..|vec| - 1], i); }
  }

  /** The generator run to its end.  It yields one tuple per index tuple, in dictionary order of the
      index tuples, and nothing else; it fails only where its first line does. */
  method VectorCounter<T>(vec: seq<seq<T>>) returns (r: Outcome<T>)
    ensures r.IndexError? <==> vec == [] || (vec[|vec| - 1] == [] && forall i :: 0 <= i < |vec| - 1 ==> vec[i] != [])
    ensures r.Yields? ==> |r.out| == Product(vec) && Listed(vec, r.out)
  {
    if vec == [] { return IndexError; }
    var n := |vec|;
    for i := 0 to n - 1
      invariant forall j :: 0 <= j < i ==> vec[j] != []
    {
      if vec[i] == [] {
        NoTuples(vec, i);
        return Yields([]);
      }
    }
    if vec[n - 1] == [] { return IndexError; }
    var values := new T[n](i requires 0 <= i < n && vec[i] != [] => vec[i][0]);
    var iters := new nat[n](i => 1);
    iters[n - 1] := 0;
    var out := Collect(vec, values, iters);
    r := Yields(out);
  }

  /** The endless loop of the generator and what it yields before it stops. */
  method Collect<T>(vec: seq<seq<T>>, values: array<T>, iters: array<nat>) returns (out: seq<seq<T>>)
    requires State(vec, values[..], iters[..], Nothing) && values.Length == iters.Length == |vec|
    requires (values as object) != (iters as object)
    modifies values, iters
    ensures |out| == Product(vec) && Listed(vec, out)
  {
    ghost var s := Nothing;
    out := [];
    while true
      invariant s.Tuple? ==> Digits(vec, s.ds)
      invariant State(vec, values[..], iters[..], s)
      invariant |out| == if s.Nothing? then 0 else Rank(vec, s.ds) + 1
      invariant Listed(vec, out) && |out| <= Product(vec)
      decreases Product(vec) - |out|
    {
      NextRank(vec, s);
      var more := Turn(vec, values, iters, s);
      if !more { break; }
      s := Tuple(After(vec, s).ds);
      RankBelow(vec, s.ds);
      assert values[..] == Pick(vec, s.ds);
      ListedPush(vec, out, s.ds);
      out := out + [values[..]];
    }
  }

  lemma {:induction false} NextRank<T>(vec: seq<seq<T>>, s: Shown)
    requires Ready(vec) && (s.Tuple? ==> Digits(vec, s.ds))
    ensures var t := After(vec, s);
      var rank := if s.Nothing? then 0 else Rank(vec, s.ds) + 1;
      if t.Last? then rank == Product(vec) else Digits(vec, t.ds) && Rank(vec, t.ds) == rank
  {
    if s.Nothing? { ZeroRank(vec); } else { SuccIsNext(vec, s.ds); }
  }
}
