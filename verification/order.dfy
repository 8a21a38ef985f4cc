/** Finite sets of integers in ascending order: what iterating a sorted map visits. */
module Order {

  lemma SomeElement<T>(s: set<T>) returns (a: T)
    requires s != {}
    ensures a in s
  {
    a :| a in s;
  }

  lemma {:induction false} HasLeast(s: set<int>)
    requires s != {}
    ensures exists m :: m in s && forall x :: x in s ==> m <= x
  {
    var a := SomeElement(s);
    if s - {a} != {} {
      HasLeast(s - {a});
      var m :| m in s - {a} && forall x :: x in s - {a} ==> m <= x;
      var l := if a < m then a else m;
      forall x | x in s
        ensures l <= x
      {
        assert x == a || x in s - {a};
      }
    } else {
      assert s == {a};
    }
  }

  function Least(s: set<int>): (m: int)
    requires s != {}
    ensures m in s && forall x :: x in s ==> m <= x
  {
    HasLeast(s);
    var m :| m in s && forall x :: x in s ==> m <= x;
    m
  }

  predicate Increasing(q: seq<int>) {
    forall i, j :: 0 <= i < j < |q| ==> q[i] < q[j]
  }

  /** The elements of a set in ascending order. */
  function Ascending(s: set<int>): (q: seq<int>)
    ensures Increasing(q) && |q| == |s|
    ensures forall x :: x in q <==> x in s
    decreases |s|
  {
    if s == {} then [] else [Least(s)] + Ascending(s - {Least(s)})
  }

  function AtLeast(s: set<int>, from: int): (r: set<int>)
    ensures forall x :: x in r <==> x in s && from <= x
  {
    set x | x in s && from <= x
  }

  /** The least number from `from` on that is not in `s`. */
  function FirstFree(s: set<int>, from: int): (r: int)
    ensures from <= r && r !in s
    ensures forall x :: from <= x < r ==> x in s
    decreases AtLeast(s, from)
  {
    if from in s then
      (assert from in AtLeast(s, from) && from !in AtLeast(s, from + 1);
       FirstFree(s, from + 1))
    else from
  }

  function Range(lo: int, hi: int): (s: set<int>)
    ensures forall x :: x in s <==> lo <= x <= hi
    ensures lo <= hi + 1 ==> |s| == hi - lo + 1
    decreases hi - lo + 1
  {
    if lo > hi then {} else Range(lo, hi - 1) + {hi}
  }

  lemma {:induction false} SubsetSize(a: set<int>, b: set<int>)
    requires a <= b
    ensures |a| <= |b|
    ensures |a| == |b| ==> a == b
  {
    if a != {} {
      var x := SomeElement(a);
      SubsetSize(a - {x}, b - {x});
      assert a == a - {x} + {x} && b == b - {x} + {x};
    } else {
      assert |b| == 0 ==> b == {};
    }
  }

  /** An ascending row of exactly the numbers 1..n. */
  lemma {:induction false} CountingUp(q: seq<int>, n: nat)
    requires Increasing(q) && |q| == n && forall x :: x in q ==> 1 <= x <= n
    ensures forall i :: 0 <= i < n ==> q[i] == i + 1
  {
    forall i | 0 <= i < n
      ensures q[i] == i + 1
    {
      AtLeastIndex(q, i);
      AtMostIndex(q, i);
    }
  }

  lemma {:induction false} AtLeastIndex(q: seq<int>, i: nat)
    requires Increasing(q) && i < |q| && forall x :: x in q ==> 1 <= x <= |q|
    ensures q[i] >= i + 1
  {
    assert q[i] in q;
    if i > 0 {
      AtLeastIndex(q, i - 1);
    }
  }

  lemma {:induction false} AtMostIndex(q: seq<int>, i: nat)
    requires Increasing(q) && i < |q| && forall x :: x in q ==> 1 <= x <= |q|
    ensures q[i] <= i + 1
    decreases |q| - i
  {
    if i < |q| - 1 {
      AtMostIndex(q, i + 1);
    } else {
      assert q[i] in q;
    }
  }
}
