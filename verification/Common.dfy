/**
 What several modules share: an optional value, sequences put together in either order, numbers
 listed in order, and a set with perhaps one element more.
 */
module Common {

  datatype Option<+T> = None | Some(value: T)

  lemma {:induction false} Associate<T>(a: seq<T>, b: seq<T>, c: seq<T>)
    ensures a + b + c == a + (b + c)
  {}

  lemma {:induction false} OneMoreElement(s: set<nat>, t: set<nat>, n: nat, more: bool)
    requires n !in t && forall x :: x in s <==> x in t || (more && x == n)
    ensures |s| == |t| + if more then 1 else 0
  {
    if more {
      assert s == t + {n};
    } else {
      assert s == t;
    }
  }

  /** s in increasing order. */
  ghost predicate Lists(s: set<nat>, order: seq<nat>) {
    && (forall i, j :: 0 <= i < j < |order| ==> order[i] < order[j])
    && forall k :: k in order <==> k in s
  }

  lemma {:induction false} ListsPush(s: set<nat>, order: seq<nat>, n: nat)
    requires Lists(s, order) && forall k :: k in s ==> k < n
    ensures Lists(s + {n}, order + [n])
  {
    forall i | 0 <= i < |order|
      ensures order[i] < n
    {
      assert order[i] in order;
    }
  }
}
