/** Python's `sort(key=..., reverse=True)`: stable, highest key first. */
module Ranking {

  function Insert<T>(key: T -> int, x: T, sorted: seq<T>): seq<T>
  {
    if sorted == [] || key(sorted[0]) <= key(x) then [x] + sorted
    else [sorted[0]] + Insert(key, x, sorted[1..])
  }

  function SortDescending<T>(key: T -> int, xs: seq<T>): seq<T>
  {
    if xs == [] then [] else Insert(key, xs[0], SortDescending(key, xs[1..]))
  }

  predicate Descending<T>(key: T -> int, xs: seq<T>)
  {
    forall i, j :: 0 <= i < j < |xs| ==> key(xs[i]) >= key(xs[j])
  }

  function Select<T>(key: T -> int, v: int, xs: seq<T>): seq<T>
  {
    if xs == [] then [] else (if key(xs[0]) == v then [xs[0]] else []) + Select(key, v, xs[1..])
  }

  lemma {:induction false} InsertMembers<T>(key: T -> int, x: T, sorted: seq<T>)
    ensures multiset(Insert(key, x, sorted)) == multiset{x} + multiset(sorted)
  {
    if sorted != [] && key(sorted[0]) > key(x) {
      InsertMembers(key, x, sorted[1..]);
      assert sorted == [sorted[0]] + sorted[1..];
    }
  }

  /** A list is in order when its head tops an ordered tail. */
  lemma DescendingCons<T>(key: T -> int, head: T, tail: seq<T>)
    requires Descending(key, tail) && forall x :: x in tail ==> key(x) <= key(head)
    ensures Descending(key, [head] + tail)
  {
  }

  lemma {:induction false} InsertSorted<T>(key: T -> int, x: T, sorted: seq<T>)
    requires Descending(key, sorted)
    ensures Descending(key, Insert(key, x, sorted))
  {
    if sorted == [] || key(sorted[0]) <= key(x) {
      DescendingCons(key, x, sorted);
    } else {
      var rest := Insert(key, x, sorted[1..]);
      InsertSorted(key, x, sorted[1..]);
      InsertMembers(key, x, sorted[1..]);
      forall y | y in rest ensures key(y) <= key(sorted[0]) {
        assert y in multiset(rest);
        assert y == x || y in sorted[1..];
      }
      DescendingCons(key, sorted[0], rest);
    }
  }

  lemma SelectCons<T>(key: T -> int, v: int, head: T, tail: seq<T>)
    ensures Select(key, v, [head] + tail) == (if key(head) == v then [head] else []) + Select(key, v, tail)
  {
  }

  lemma {:induction false} InsertStable<T>(key: T -> int, x: T, sorted: seq<T>, v: int)
    ensures Select(key, v, Insert(key, x, sorted)) == (if key(x) == v then [x] else []) + Select(key, v, sorted)
  {
    if sorted == [] || key(sorted[0]) <= key(x) {
      SelectCons(key, v, x, sorted);
    } else {
      InsertStable(key, x, sorted[1..], v);
      SelectCons(key, v, sorted[0], Insert(key, x, sorted[1..]));
      if key(x) == v {
        assert Select(key, v, sorted) == Select(key, v, sorted[1..]);
      }
    }
  }

  /** The result is a permutation, highest key first, with equal keys in their old order. */
  lemma {:induction false} SortLaws<T>(key: T -> int, xs: seq<T>, v: int)
    ensures multiset(SortDescending(key, xs)) == multiset(xs)
    ensures Descending(key, SortDescending(key, xs))
    ensures Select(key, v, SortDescending(key, xs)) == Select(key, v, xs)
  {
    if xs != [] {
      var rest := SortDescending(key, xs[1..]);
      SortLaws(key, xs[1..], v);
      InsertMembers(key, xs[0], rest);
      InsertSorted(key, xs[0], rest);
      InsertStable(key, xs[0], rest, v);
      assert xs == [xs[0]] + xs[1..];
    }
  }

  lemma SortMembers<T>(key: T -> int, xs: seq<T>)
    ensures |SortDescending(key, xs)| == |xs|
    ensures forall x :: x in SortDescending(key, xs) <==> x in xs
  {
    SortLaws(key, xs, 0);
    var s := SortDescending(key, xs);
    assert |multiset(s)| == |s| && |multiset(xs)| == |xs|;
    forall x ensures x in s <==> x in xs {
      assert x in s <==> x in multiset(s);
      assert x in xs <==> x in multiset(xs);
    }
  }

  /** The first `n`. */
  function Take<T>(xs: seq<T>, n: nat): seq<T>
  {
    if |xs| <= n then xs else xs[..n]
  }

  /** The head of a ranking has the highest key, and what a cut drops is below all that it keeps. */
  lemma HeadIsTop<T>(key: T -> int, xs: seq<T>, n: nat)
    requires xs != [] && n > 0
    ensures var top := Take(SortDescending(key, xs), n);
            && top != [] && |top| <= n && Descending(key, top)
            && (forall x :: x in top ==> x in xs)
            && (forall x :: x in xs ==> key(x) <= key(top[0]))
            && (forall x, y :: x in xs && x !in top && y in top ==> key(x) <= key(y))
  {
    SortLaws(key, xs, 0);
    SortMembers(key, xs);
    var s := SortDescending(key, xs);
    var top := Take(s, n);
    assert top[0] == s[0];
    TakeDescending(key, s, n);
    forall x | x in top ensures x in xs {
      assert x in s;
    }
    forall x | x in xs ensures key(x) <= key(s[0]) {
      var i :| 0 <= i < |s| && s[i] == x;
      assert i == 0 || key(s[0]) >= key(s[i]);
    }
    forall x, y | x in xs && x !in top && y in top ensures key(x) <= key(y) {
      assert x in s;
      CutIsBelow(key, s, n, x, y);
    }
  }

  lemma CutIsBelow<T>(key: T -> int, s: seq<T>, n: nat, x: T, y: T)
    requires Descending(key, s) && x in s && x !in Take(s, n) && y in Take(s, n)
    ensures key(x) <= key(y)
  {
  }

  lemma TakeDescending<T>(key: T -> int, s: seq<T>, n: nat)
    requires Descending(key, s)
    ensures Descending(key, Take(s, n))
  {
  }
}
