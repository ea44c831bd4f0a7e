/**
 The timelines of ns-3/utils/grid.py: binary searches over sorted ranges and events, compared
 with a look at every element.
 */
module Timelines {

  datatype DataRange = DataRange(start: int, end: int) {
    predicate Contains(key: int) { start <= key <= end }
    /** They have a point in common. */
    predicate Meets(from: int, to: int) { start <= to && from <= end }
    /** They have more than an end in common. */
    predicate Overlaps(from: int, to: int) { start < to && from < end }
  }

  /** Python's slice xs[i:j] for indices that are not negative. */
  function Slice<T>(xs: seq<T>, i: nat, j: nat): seq<T> {
    var to := if j < |xs| then j else |xs|;
    if i <= to then xs[i..to] else []
  }

  /** Ranges in order; one may start where another ends. */
  predicate InOrder(rs: seq<DataRange>) {
    && (forall i :: 0 <= i < |rs| ==> rs[i].start <= rs[i].end)
    && (forall i, j :: 0 <= i < j < |rs| ==> rs[i].end <= rs[j].start)
  }

  predicate Disjoint(rs: seq<DataRange>) {
    forall i, j :: 0 <= i < j < |rs| ==> rs[i].end < rs[j].start
  }

  /** i is the index of the range that holds key, or -1 when none does. */
  predicate Found(rs: seq<DataRange>, key: int, i: int) {
    if i == -1 then forall k :: 0 <= k < |rs| ==> !rs[k].Contains(key)
    else 0 <= i < |rs| && rs[i].Contains(key)
  }

  predicate Hit(rs: seq<DataRange>, key: int) {
    exists i :: 0 <= i < |rs| && rs[i].Contains(key)
  }

  class TimelineDataRange {
    var ranges: seq<DataRange>

    constructor ()
      ensures ranges == []
    {
      ranges := [];
    }

    method AddRange(r: DataRange)
      modifies this
      ensures ranges == old(ranges) + [r]
    {
      ranges := ranges + [r];
    }

    method Search(key: int) returns (i: int)
      requires InOrder(ranges)
      ensures Found(ranges, key, i)
    {
      var l, u := 0, |ranges| - 1;
      while l <= u
        invariant 0 <= l <= u + 1 <= |ranges|
        invariant forall k :: 0 <= k < l ==> ranges[k].end < key
        invariant forall k :: u < k < |ranges| ==> key < ranges[k].start
      {
        i := (l + u) / 2;
        if key >= ranges[i].start && key <= ranges[i].end {
          return;
        } else if key < ranges[i].start {
          u := i - 1;
        } else {
          l := i + 1;
        }
      }
      return -1;
    }

    /** The bounds (a, b) of the slice that GetRanges returns. */
    method GetRangesBounds(start: int, end: int) returns (a: int, b: int)
      requires InOrder(ranges)
      ensures Bounds(ranges, start, end, a, b)
    {
      var s := Search(start);
      var e := Search(end);
      if s == -1 && e == -1 {
        return 0, 0;
      } else if s == -1 {
        return 0, e + 1;
      } else if e == -1 {
        return s, |ranges|;
      } else {
        return s, e + 1;
      }
    }

    method GetRanges(start: int, end: int) returns (rs: seq<DataRange>)
      requires InOrder(ranges)
      ensures exists a: nat, b: nat :: Bounds(ranges, start, end, a, b) && rs == Slice(ranges, a, b)
    {
      var s := Search(start);
      var e := Search(end);
      if s == -1 && e == -1 {
        rs := [];
        assert rs == Slice(ranges, 0, 0) && Bounds(ranges, start, end, 0, 0);
      } else if s == -1 {
        rs := Slice(ranges, 0, e + 1);
        assert Bounds(ranges, start, end, 0, e + 1);
      } else if e == -1 {
        rs := Slice(ranges, s, |ranges|);
        assert Bounds(ranges, start, end, s, |ranges|);
      } else {
        rs := Slice(ranges, s, e + 1);
        assert Bounds(ranges, start, end, s, e + 1);
      }
    }
  }

  /** The slice bounds, by which of the two points lie in a range. */
  predicate Bounds(rs: seq<DataRange>, start: int, end: int, a: int, b: int) {
    && 0 <= a <= |rs| && 0 <= b <= |rs|
    && (!Hit(rs, start) && !Hit(rs, end) ==> a == b == 0)
    && (if Hit(rs, start) then a < |rs| && rs[a].Contains(start) else a == 0)
    && (if Hit(rs, end) then b > 0 && rs[b - 1].Contains(end) else b == if Hit(rs, start) then |rs| else 0)
  }

  predicate Selected(k: int, a: int, b: int) { a <= k < b }

  /** Every range that overlaps the interval is in the slice. */
  predicate Complete(rs: seq<DataRange>, start: int, end: int, a: int, b: int) {
    forall k :: 0 <= k < |rs| && rs[k].Overlaps(start, end) ==> Selected(k, a, b)
  }

  /** Every range that has even an end in common with the interval is in the slice. */
  predicate CompleteWithEnds(rs: seq<DataRange>, start: int, end: int, a: int, b: int) {
    forall k :: 0 <= k < |rs| && rs[k].Meets(start, end) ==> Selected(k, a, b)
  }

  /** Every range in the slice meets the interval. */
  predicate Exact(rs: seq<DataRange>, start: int, end: int, a: int, b: int) {
    forall k :: 0 <= k < |rs| && Selected(k, a, b) ==> rs[k].Meets(start, end)
  }

  /**
   The lookup misses no range exactly when one end of the interval lies in a range or the
   interval overlaps none.
   */
  lemma {:induction false} CompleteIff(rs: seq<DataRange>, start: int, end: int, a: int, b: int)
    requires InOrder(rs) && Bounds(rs, start, end, a, b)
    ensures Complete(rs, start, end, a, b)
       <==> Hit(rs, start) || Hit(rs, end) || forall k :: 0 <= k < |rs| ==> !rs[k].Overlaps(start, end)
  {
    if !Hit(rs, start) && !Hit(rs, end) {
      if k :| 0 <= k < |rs| && rs[k].Overlaps(start, end) {
        assert !Selected(k, a, b);
      }
    }
  }

  /** Where no two ranges touch, the same holds of ranges that share only an end with the interval. */
  lemma {:induction false} CompleteWithEndsIff(rs: seq<DataRange>, start: int, end: int, a: int, b: int)
    requires InOrder(rs) && Disjoint(rs) && Bounds(rs, start, end, a, b)
    ensures CompleteWithEnds(rs, start, end, a, b)
       <==> Hit(rs, start) || Hit(rs, end) || forall k :: 0 <= k < |rs| ==> !rs[k].Meets(start, end)
  {
    if !Hit(rs, start) && !Hit(rs, end) {
      if k :| 0 <= k < |rs| && rs[k].Meets(start, end) {
        assert !Selected(k, a, b);
      }
    }
  }

  /**
   The lookup returns no range too many exactly when no end of the interval is in a gap on the
   side where the slice then runs to the end of the list.
   */
  lemma {:induction false} ExactIff(rs: seq<DataRange>, start: int, end: int, a: int, b: int)
    requires start <= end && InOrder(rs) && Bounds(rs, start, end, a, b)
    ensures Exact(rs, start, end, a, b)
       <==> && (!Hit(rs, start) && Hit(rs, end) ==> forall k :: 0 <= k < |rs| ==> rs[k].end >= start)
            && (Hit(rs, start) && !Hit(rs, end) ==> forall k :: 0 <= k < |rs| ==> rs[k].start <= end)
  {
    if !Hit(rs, start) && Hit(rs, end) {
      if k :| 0 <= k < |rs| && rs[k].end < start {
        assert Selected(k, a, b);
      }
    }
    if Hit(rs, start) && !Hit(rs, end) {
      if k :| 0 <= k < |rs| && rs[k].start > end {
        assert Selected(k, a, b);
      }
    }
  }

  /** A range between two gaps: whatever bounds the lookup computes for 0 to 10, it returns nothing. */
  lemma {:induction false} BothEndsInGaps()
    ensures var rs := [DataRange(5, 6)];
      && InOrder(rs) && Bounds(rs, 0, 10, 0, 0) && rs[0].Overlaps(0, 10)
      && forall a: nat, b: nat :: Bounds(rs, 0, 10, a, b) ==> Slice(rs, a, b) == []
  {
    var rs := [DataRange(5, 6)];
    assert !Hit(rs, 0) && !Hit(rs, 10);
  }

  /** The start in a gap: the lookup for 3 to 4 also returns the range in front of the gap. */
  lemma {:induction false} StartInGap()
    ensures var rs := [DataRange(0, 1), DataRange(4, 5)];
      && InOrder(rs) && Bounds(rs, 3, 4, 0, 2) && !rs[0].Meets(3, 4)
      && forall a: nat, b: nat :: Bounds(rs, 3, 4, a, b) ==> Slice(rs, a, b) == rs
  {
    var rs := [DataRange(0, 1), DataRange(4, 5)];
    assert rs[1].Contains(4) && Hit(rs, 4);
    assert !rs[0].Contains(3) && !rs[1].Contains(3) && !Hit(rs, 3);
    assert rs[0..2] == rs;
  }

  // ---------- Events ----------

  /** Event times, none before an earlier one. */
  predicate Ordered(ts: seq<int>) {
    forall i, j :: 0 <= i < j < |ts| ==> ts[i] <= ts[j]
  }

  /** i splits the times at key: an event at key, or the place where one would go. */
  predicate Splits(ts: seq<int>, key: int, i: int) {
    && 0 <= i <= |ts|
    && (forall k :: 0 <= k < i ==> ts[k] <= key)
    && (forall k :: i <= k < |ts| ==> key <= ts[k])
    && (key in ts ==> i < |ts| && ts[i] == key)
  }

  /** Where the binary search for key between l and u ends: it depends on which event at key it
      looks at first. */
  function Landing(ts: seq<int>, key: int, l: int, u: int): (r: int)
    requires 0 <= l <= u + 1 <= |ts|
    ensures l <= r <= u + 1
    decreases u + 1 - l
  {
    if l > u then l
    else
      var i := (l + u) / 2;
      if key == ts[i] then i else if key < ts[i] then Landing(ts, key, l, i - 1) else Landing(ts, key, i + 1, u)
  }

  function Place(ts: seq<int>, key: int): nat {
    Landing(ts, key, 0, |ts| - 1)
  }

  /** All times before l are earlier than key, all from u on are later. */
  predicate Between(ts: seq<int>, key: int, l: int, u: int)
    requires 0 <= l <= u + 1 <= |ts|
  {
    (forall k :: 0 <= k < l ==> ts[k] < key) && (forall k :: u < k < |ts| ==> key < ts[k])
  }

  lemma {:induction false} Narrow(ts: seq<int>, key: int, l: int, u: int, i: int)
    requires Ordered(ts) && 0 <= l <= i <= u < |ts| && Between(ts, key, l, u)
    ensures key == ts[i] ==> Splits(ts, key, i)
    ensures key < ts[i] ==> Between(ts, key, l, i - 1)
    ensures ts[i] < key ==> Between(ts, key, i + 1, u)
  {}

  /** In ordered times it ends at an event at key, or at the place where one would go. */
  lemma {:induction false} LandingSplits(ts: seq<int>, key: int, l: int, u: int)
    requires Ordered(ts) && 0 <= l <= u + 1 <= |ts| && Between(ts, key, l, u)
    ensures Splits(ts, key, Landing(ts, key, l, u))
    decreases u + 1 - l
  {
    if l <= u {
      var i := (l + u) / 2;
      Narrow(ts, key, l, u, i);
      hide Ordered, Between, Splits;
      if key < ts[i] {
        LandingSplits(ts, key, l, i - 1);
      } else if key > ts[i] {
        LandingSplits(ts, key, i + 1, u);
      }
    }
  }

  class TimelineEvent {
    var times: seq<int>

    constructor ()
      ensures times == []
    {
      times := [];
    }

    method AddEvent(at: int)
      modifies this
      ensures times == old(times) + [at]
    {
      times := times + [at];
    }

    method Search(key: int) returns (r: int)
      ensures r == Place(times, key)
      ensures Ordered(times) ==> Splits(times, key, r)
    {
      if Ordered(times) {
        LandingSplits(times, key, 0, |times| - 1);
      }
      hide Ordered, Splits;
      var l, u := 0, |times| - 1;
      while l <= u
        invariant 0 <= l <= u + 1 <= |times|
        invariant Landing(times, key, l, u) == Place(times, key)
      {
        var i := (l + u) / 2;
        if key == times[i] {
          return i;
        } else if key < times[i] {
          u := i - 1;
        } else {
          l := i + 1;
        }
      }
      return l;
    }

    method GetEvents(start: int, end: int) returns (es: seq<int>)
      ensures es == Selection(times, start, end)
    {
      var s := Search(start);
      var e := Search(end);
      es := Slice(times, s, e + 1);
    }
  }

  /** What the lookup returns: from the one place up to and with the other. */
  function Selection(ts: seq<int>, start: int, end: int): seq<int> {
    Slice(ts, Place(ts, start), Place(ts, end) + 1)
  }

  /** The times of the interval, by a look at each. */
  function Within(ts: seq<int>, start: int, end: int): seq<int> {
    if ts == [] then []
    else (if start <= ts[0] <= end then [ts[0]] else []) + Within(ts[1..], start, end)
  }

  lemma {:induction false} WithinNone(ts: seq<int>, start: int, end: int)
    requires forall k :: 0 <= k < |ts| ==> !(start <= ts[k] <= end)
    ensures Within(ts, start, end) == []
    decreases |ts|
  {
    if ts != [] {
      WithinNone(ts[1..], start, end);
    }
  }

  lemma {:induction false} WithinAll(ts: seq<int>, start: int, end: int)
    requires forall k :: 0 <= k < |ts| ==> start <= ts[k] <= end
    ensures Within(ts, start, end) == ts
    decreases |ts|
  {
    if ts != [] {
      WithinAll(ts[1..], start, end);
    }
  }

  lemma {:induction false} WithinAppend(s: seq<int>, t: seq<int>, start: int, end: int)
    ensures Within(s + t, start, end) == Within(s, start, end) + Within(t, start, end)
    decreases |s|
  {
    if s == [] {
      assert s + t == t;
    } else {
      assert (s + t)[1..] == s[1..] + t;
      WithinAppend(s[1..], t, start, end);
    }
  }

  lemma {:induction false} WithinMiddle(ts: seq<int>, start: int, end: int, s: nat, to: nat)
    requires s <= to <= |ts|
    requires forall k :: 0 <= k < |ts| ==> (start <= ts[k] <= end <==> s <= k < to)
    ensures Within(ts, start, end) == ts[s..to]
  {
    WithinNone(ts[to..], start, end);
    WithinAppend(ts[..to], ts[to..], start, end);
    assert ts == ts[..to] + ts[to..];
    WithinTail(ts[..to], start, end, s);
    assert ts[..to][s..] == ts[s..to];
  }

  lemma {:induction false} WithinTail(ts: seq<int>, start: int, end: int, s: nat)
    requires s <= |ts| && forall k :: 0 <= k < |ts| ==> (start <= ts[k] <= end <==> s <= k)
    ensures Within(ts, start, end) == ts[s..]
  {
    WithinNone(ts[..s], start, end);
    WithinAll(ts[s..], start, end);
    WithinAppend(ts[..s], ts[s..], start, end);
    assert ts == ts[..s] + ts[s..];
  }

  /** The events from a to b are those of the interval. */
  ghost predicate Spans(ts: seq<int>, start: int, end: int, a: nat, b: nat) {
    && a <= b <= |ts|
    && (forall k :: 0 <= k < a ==> ts[k] < start)
    && (forall k :: a <= k < b ==> start <= ts[k] <= end)
    && (forall k :: b <= k < |ts| ==> end < ts[k])
  }

  lemma {:induction false} FindSpan(ts: seq<int>, start: int, end: int) returns (a: nat, b: nat)
    requires Ordered(ts) && start <= end
    ensures Spans(ts, start, end, a, b)
    ensures Within(ts, start, end) == ts[a..b]
  {
    a := 0;
    while a < |ts| && ts[a] < start
      invariant a <= |ts| && forall k :: 0 <= k < a ==> ts[k] < start
    {
      a := a + 1;
    }
    b := a;
    while b < |ts| && ts[b] <= end
      invariant a <= b <= |ts| && forall k :: a <= k < b ==> start <= ts[k] <= end
    {
      b := b + 1;
    }
    WithinMiddle(ts, start, end, a, b);
  }

  /** The search lands on the first event at the interval's start and on the last at its end. */
  predicate LandsOutside(ts: seq<int>, start: int, end: int) {
    var s, e := Place(ts, start), Place(ts, end);
    (s == 0 || ts[s - 1] != start) && (e + 1 >= |ts| || ts[e + 1] != end)
  }

  lemma {:induction false} PlacesInOrder(ts: seq<int>, start: int, end: int)
    requires Ordered(ts) && start <= end
    ensures Splits(ts, start, Place(ts, start)) && Splits(ts, end, Place(ts, end))
    ensures Place(ts, start) <= Place(ts, end)
  {
    LandingSplits(ts, start, 0, |ts| - 1);
    LandingSplits(ts, end, 0, |ts| - 1);
    hide Landing;
    var s, e := Place(ts, start), Place(ts, end);
    assert e < |ts| ==> end <= ts[e];
  }

  /** The event after the interval that the lookup returns too, if none lies at the interval's end. */
  function Next(ts: seq<int>, end: int): seq<int> {
    if Place(ts, end) < |ts| && end !in ts then [ts[Place(ts, end)]] else []
  }

  lemma {:induction false} StartOfSpan(ts: seq<int>, start: int, end: int, a: nat, b: nat, s: nat)
    requires start <= end && Spans(ts, start, end, a, b) && Splits(ts, start, s)
    ensures a <= s && (s == a <==> s == 0 || ts[s - 1] != start)
  {
    assert s < |ts| ==> start <= ts[s];
    assert a < s ==> ts[s - 1] <= start <= ts[s - 1];
  }

  lemma {:induction false} EndOfSpan(ts: seq<int>, start: int, end: int, a: nat, b: nat, e: nat)
    requires start <= end && Spans(ts, start, end, a, b) && Splits(ts, end, e)
    ensures if end in ts then e < b && (b == e + 1 <==> e + 1 >= |ts| || ts[e + 1] != end)
            else b == e && (e + 1 >= |ts| || ts[e + 1] != end)
  {
    assert b < |ts| ==> end < ts[b];
    assert e < |ts| ==> end <= ts[e];
    assert end in ts && e + 1 < b ==> end <= ts[e + 1] <= end;
  }

  lemma {:induction false} PartOfSlice(ts: seq<int>, a: nat, s: nat, x: nat, y: nat)
    requires a <= s <= x <= y <= |ts|
    ensures ts[s..x] == ts[a..y] <==> a == s && x == y
  {
    assert |ts[s..x]| == x - s && |ts[a..y]| == y - a;
  }

  lemma {:induction false} WithNext(ts: seq<int>, end: int, a: nat, b: nat, e: nat)
    requires a <= b <= |ts| && e == Place(ts, end) && (end !in ts ==> e == b)
    ensures ts[a..b] + Next(ts, end) == ts[a..if end !in ts && e < |ts| then b + 1 else b]
  {
    hide Landing, Place;
  }

  /** All events of the interval, and after them that next event. */
  lemma {:induction false} EventsOfInterval(ts: seq<int>, start: int, end: int)
    requires Ordered(ts) && start <= end
    ensures Selection(ts, start, end) == Within(ts, start, end) + Next(ts, end) <==> LandsOutside(ts, start, end)
  {
    PlacesInOrder(ts, start, end);
    var s, e := Place(ts, start), Place(ts, end);
    var a, b := FindSpan(ts, start, end);
    StartOfSpan(ts, start, end, a, b, s);
    EndOfSpan(ts, start, end, a, b, e);
    var x := if e < |ts| then e + 1 else e;
    var y := if end !in ts && e < |ts| then b + 1 else b;
    WithNext(ts, end, a, b, e);
    assert Selection(ts, start, end) == ts[s..x];
    hide Selection, Slice, Landing, Place, Splits, Ordered, Within, Spans, Next;
    PartOfSlice(ts, a, s, x, y);
  }

  predicate Once(ts: seq<int>, key: int) {
    forall i, j :: 0 <= i < j < |ts| ==> ts[i] != key || ts[j] != key
  }

  /** So the lookup is right if no two events lie at the interval's start and no two at its end;
      other times may repeat. */
  lemma {:induction false} RightIfEndsOnce(ts: seq<int>, start: int, end: int)
    requires Ordered(ts) && start <= end && Once(ts, start) && Once(ts, end)
    ensures Selection(ts, start, end) == Within(ts, start, end) + Next(ts, end)
  {
    PlacesInOrder(ts, start, end);
    EventsOfInterval(ts, start, end);
    var s, e := Place(ts, start), Place(ts, end);
    hide Landing, Selection, Within, Next;
    assert s > 0 && ts[s - 1] == start ==> start in ts;
    assert e + 1 < |ts| && ts[e + 1] == end ==> end in ts;
  }

  /** With equal times the lookup can miss events at the ends of the interval, never inside it. */
  lemma {:induction false} InsideIsNeverMissed(ts: seq<int>, start: int, end: int, k: nat)
    requires Ordered(ts) && k < |ts| && start < ts[k] < end
    ensures Place(ts, start) <= k <= Place(ts, end)
  {
    PlacesInOrder(ts, start, end);
  }

  /** Three events at 1: a search for 1 looks at the middle one first, so two are missed. */
  lemma {:induction false} EqualTimesMissed()
    ensures Ordered([1, 1, 1]) && Place([1, 1, 1], 1) == 1
    ensures Selection([1, 1, 1], 1, 1) == [1] && Within([1, 1, 1], 1, 1) == [1, 1, 1]
  {
    WithinAll([1, 1, 1], 1, 1);
  }
}
