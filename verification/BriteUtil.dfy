/**
 Sorting and searching in ns-3/BRITE/Util.cc, over real numbers. The sort of the list class is
 modelled by insertion.
 */
module BriteUtil {

  predicate Sorted(s: seq<real>) {
    forall i, j :: 0 <= i < j < |s| ==> s[i] <= s[j]
  }

  function Count(s: seq<real>, x: real): nat {
    if s == [] then 0 else Count(s[..|s| - 1], x) + if s[|s| - 1] == x then 1 else 0
  }

  ghost predicate SameElements(s: seq<real>, t: seq<real>) {
    forall x :: Count(s, x) == Count(t, x)
  }

  lemma {:induction false} CountAppend(s: seq<real>, t: seq<real>, x: real)
    ensures Count(s + t, x) == Count(s, x) + Count(t, x)
    decreases |t|
  {
    if t == [] {
      assert s + t == s;
    } else {
      assert (s + t)[..|s + t| - 1] == s + t[..|t| - 1];
      CountAppend(s, t[..|t| - 1], x);
    }
  }

  lemma {:induction false} CountIn(s: seq<real>, x: real)
    ensures Count(s, x) > 0 <==> x in s
    decreases |s|
  {
    if s != [] {
      CountIn(s[..|s| - 1], x);
    }
  }

  function Remove(s: seq<real>, x: real): seq<real>
    requires x in s
  {
    if s[|s| - 1] == x then s[..|s| - 1] else Remove(s[..|s| - 1], x) + [s[|s| - 1]]
  }

  lemma {:induction false} RemoveCounts(s: seq<real>, x: real, y: real)
    requires x in s
    ensures |Remove(s, x)| == |s| - 1
    ensures Count(Remove(s, x), y) == Count(s, y) - if x == y then 1 else 0
    decreases |s|
  {
    if s[|s| - 1] != x {
      RemoveCounts(s[..|s| - 1], x, y);
      CountAppend(Remove(s[..|s| - 1], x), [s[|s| - 1]], y);
    }
  }

  /** A list that holds nothing more often than another is not longer. */
  lemma {:induction false} FewerIsShorter(s: seq<real>, t: seq<real>)
    requires forall x :: Count(s, x) <= Count(t, x)
    ensures |s| <= |t|
    decreases |s|
  {
    if s != [] {
      var y := s[|s| - 1];
      CountIn(t, y);
      forall x
        ensures Count(s[..|s| - 1], x) <= Count(Remove(t, y), x)
      {
        RemoveCounts(t, y, x);
      }
      RemoveCounts(t, y, y);
      FewerIsShorter(s[..|s| - 1], Remove(t, y));
    }
  }

  // ---------- Sorting one list ----------

  function Insert(x: real, s: seq<real>): seq<real> {
    if s == [] || s[|s| - 1] <= x then s + [x]
    else Insert(x, s[..|s| - 1]) + [s[|s| - 1]]
  }

  function SortList(s: seq<real>): seq<real> {
    if s == [] then [] else Insert(s[|s| - 1], SortList(s[..|s| - 1]))
  }

  lemma {:induction false} InsertCounts(x: real, s: seq<real>, y: real)
    ensures Count(Insert(x, s), y) == Count(s, y) + if x == y then 1 else 0
    decreases |s|
  {
    if s == [] || s[|s| - 1] <= x {
      CountAppend(s, [x], y);
    } else {
      InsertCounts(x, s[..|s| - 1], y);
      CountAppend(Insert(x, s[..|s| - 1]), [s[|s| - 1]], y);
    }
  }

  lemma {:induction false} InsertSorts(x: real, s: seq<real>)
    requires Sorted(s)
    ensures Sorted(Insert(x, s)) && |Insert(x, s)| == |s| + 1
    ensures forall y :: y in Insert(x, s) ==> y == x || y in s
    decreases |s|
  {
    if s != [] && x < s[|s| - 1] {
      InsertSorts(x, s[..|s| - 1]);
      var front := Insert(x, s[..|s| - 1]);
      forall i | 0 <= i < |front|
        ensures front[i] <= s[|s| - 1]
      {
        assert front[i] in front;
      }
    }
  }

  lemma {:induction false} SortListSorts(s: seq<real>)
    ensures Sorted(SortList(s)) && SameElements(SortList(s), s)
    decreases |s|
  {
    if s != [] {
      SortListSorts(s[..|s| - 1]);
      InsertSorts(s[|s| - 1], SortList(s[..|s| - 1]));
      forall x
        ensures Count(SortList(s), x) == Count(s, x)
      {
        InsertCounts(s[|s| - 1], SortList(s[..|s| - 1]), x);
      }
    }
  }

  // ---------- Buckets ----------

  predicate InUnit(s: seq<real>) {
    forall i :: 0 <= i < |s| ==> 0.0 <= s[i] < 1.0
  }

  /** (int)floor(x * n). */
  function Index(x: real, n: nat): int {
    (x * n as real).Floor
  }

  lemma {:induction false} IndexInRange(x: real, n: nat)
    requires 0.0 <= x < 1.0 && n > 0
    ensures 0 <= Index(x, n) < n
  {
    var m := n as real;
    assert m > 0.0;
    assert 0.0 <= x * m;
    assert x * m < 1.0 * m;
  }

  lemma {:induction false} IndexGrows(x: real, y: real, n: nat)
    requires x <= y
    ensures Index(x, n) <= Index(y, n)
  {
    assert x * n as real <= y * n as real;
  }

  /** The bucket holds the numbers of s with index i, as often as s does. */
  ghost predicate Fills(bucket: seq<real>, s: seq<real>, i: nat, n: nat) {
    forall x :: Count(bucket, x) == if Index(x, n) == i then Count(s, x) else 0
  }

  ghost predicate Spread(b: seq<seq<real>>, s: seq<real>, n: nat) {
    forall i :: 0 <= i < |b| ==> Fills(b[i], s, i, n)
  }

  /** out holds what s holds in the first i buckets. */
  ghost predicate Gathered(out: seq<real>, s: seq<real>, i: nat, n: nat) {
    forall x :: Count(out, x) == if Index(x, n) < i then Count(s, x) else 0
  }

  lemma {:induction false} SpreadOne(b: seq<seq<real>>, s: seq<real>, x: real, n: nat)
    requires Spread(b, s, n) && 0 <= Index(x, n) < |b|
    ensures Spread(b[Index(x, n) := [x] + b[Index(x, n)]], s + [x], n)
  {
    var k := Index(x, n);
    var c := b[k := [x] + b[k]];
    forall i | 0 <= i < |c|
      ensures Fills(c[i], s + [x], i, n)
    {
      assert Fills(b[i], s, i, n);
      forall y
        ensures Count(c[i], y) == if Index(y, n) == i then Count(s + [x], y) else 0
      {
        CountAppend(s, [x], y);
        CountAppend([x], b[k], y);
      }
    }
  }

  lemma {:induction false} GatherCounts(out: seq<real>, bucket: seq<real>, s: seq<real>, i: nat, n: nat)
    requires Gathered(out, s, i, n) && Fills(bucket, s, i, n)
    ensures Gathered(out + SortList(bucket), s, i + 1, n)
  {
    SortListSorts(bucket);
    forall x
      ensures Count(out + SortList(bucket), x) == if Index(x, n) < i + 1 then Count(s, x) else 0
    {
      CountAppend(out, SortList(bucket), x);
    }
  }

  lemma {:induction false} GatherOne(out: seq<real>, bucket: seq<real>, s: seq<real>, i: nat, n: nat)
    requires Gathered(out, s, i, n) && Fills(bucket, s, i, n) && Sorted(out)
    ensures Gathered(out + SortList(bucket), s, i + 1, n) && Sorted(out + SortList(bucket))
    ensures |out + SortList(bucket)| <= |s|
  {
    var more := SortList(bucket);
    GatherCounts(out, bucket, s, i, n);
    FewerIsShorter(out + more, s);
    SortListSorts(bucket);
    forall a, c | 0 <= a < |out| && 0 <= c < |more|
      ensures out[a] <= more[c]
    {
      CountIn(out, out[a]);
      CountIn(more, more[c]);
      if more[c] < out[a] {
        IndexGrows(more[c], out[a], n);
      }
    }
  }

  lemma {:induction false} AllGathered(out: seq<real>, s: seq<real>)
    requires InUnit(s) && Gathered(out, s, |s|, |s|)
    ensures SameElements(out, s) && |out| == |s|
  {
    forall x
      ensures Count(out, x) == Count(s, x)
    {
      CountIn(s, x);
      if x in s {
        IndexInRange(x, |s|);
      }
    }
    FewerIsShorter(out, s);
    FewerIsShorter(s, out);
  }

  /** The first loop of BucketSort: every number goes to the front of its bucket. */
  method Scatter(a: array<real>, b: array<seq<real>>)
    requires InUnit(a[..]) && b.Length == a.Length && forall k :: 0 <= k < b.Length ==> b[k] == []
    modifies b
    ensures Spread(b[..], a[..], a.Length)
  {
    var n := a.Length;
    ghost var s := a[..];
    assert s[..0] == [];
    for k := 0 to n
      invariant Spread(b[..], s[..k], n)
    {
      var index := Index(a[k], n);
      IndexInRange(a[k], n);
      SpreadOne(b[..], s[..k], a[k], n);
      assert s[..k] + [a[k]] == s[..k + 1];
      b[index] := [a[k]] + b[index];
    }
    assert s[..n] == s;
  }

  lemma {:induction false} NothingGathered(s: seq<real>, n: nat)
    requires InUnit(s) && n == |s|
    ensures Gathered([], s, 0, n)
  {
    forall x
      ensures Count([], x) == if Index(x, n) < 0 then Count(s, x) else 0
    {
      CountIn(s, x);
      if x in s {
        IndexInRange(x, n);
      }
    }
  }

  /** Sorts numbers of the half-open unit interval in place. */
  method BucketSort(a: array<real>)
    requires InUnit(a[..])
    modifies a
    ensures Sorted(a[..]) && SameElements(a[..], old(a[..]))
  {
    var n := a.Length;
    ghost var s := a[..];
    var b := new seq<real>[n](_ => []);
    Scatter(a, b);
    var j := 0;
    NothingGathered(s, n);
    assert a[..0] == [];
    for i := 0 to n
      invariant forall k :: i <= k < n ==> Fills(b[k], s, k, n)
      invariant 0 <= j <= n && Sorted(a[..j]) && Gathered(a[..j], s, i, n)
    {
      ghost var out := a[..j];
      GatherOne(out, b[i], s, i, n);
      b[i] := SortList(b[i]);
      j := CopyBack(a, j, b[i]);
    }
    AllGathered(a[..j], s);
    assert a[..] == a[..j];
  }

  /** The inner loop: one sorted bucket is written back from position j on. */
  method CopyBack(a: array<real>, start: nat, bucket: seq<real>) returns (j: nat)
    requires start + |bucket| <= a.Length
    modifies a
    ensures j == start + |bucket| && a[..j] == old(a[..start]) + bucket
  {
    j := start;
    ghost var out := a[..start];
    for li := 0 to |bucket|
      invariant j == start + li && a[..j] == out + bucket[..li]
    {
      a[j] := bucket[li];
      j := j + 1;
      assert a[..j] == out + bucket[..li + 1];
    }
    assert bucket[..|bucket|] == bucket;
  }

  // ---------- Binary search ----------

  /** The first index from l on whose element is not below value, or h. */
  predicate FirstNotBelow(a: seq<real>, l: nat, h: nat, value: real, r: nat)
    requires h <= |a|
  {
    && l <= r <= h
    && (forall i :: l <= i < r ==> a[i] < value)
    && (r < h ==> a[r] >= value)
  }

  function BinarySearch(a: seq<real>, l: nat, h: nat, value: real): (r: nat)
    requires l <= h <= |a|
    ensures l <= r <= h
    decreases h - l
  {
    var mid := (h + l) / 2;
    if l == h then mid
    else if a[mid] < value then BinarySearch(a, mid + 1, h, value)
    else BinarySearch(a, l, mid, value)
  }

  lemma {:induction false} SearchFindsFirst(a: seq<real>, l: nat, h: nat, value: real)
    requires l <= h <= |a|
    requires forall i, j :: l <= i < j < h ==> a[i] <= a[j]
    ensures FirstNotBelow(a, l, h, value, BinarySearch(a, l, h, value))
    decreases h - l
  {
    if l < h {
      var mid := (h + l) / 2;
      if a[mid] < value {
        SearchFindsFirst(a, mid + 1, h, value);
      } else {
        SearchFindsFirst(a, l, mid, value);
      }
    }
  }
}
