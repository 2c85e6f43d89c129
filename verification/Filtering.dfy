/** List comprehensions, and what reordering their input does to them. */
module Filtering {
  import opened Collections
  import opened Ordering

  function Filter<T>(p: T -> bool, xs: seq<T>): seq<T> {
    if xs == [] then []
    else (if p(xs[0]) then [xs[0]] else []) + Filter(p, xs[1..])
  }

  lemma {:induction false} FilterMembers<T>(p: T -> bool, xs: seq<T>)
    ensures forall x :: x in Filter(p, xs) <==> x in xs && p(x)
  {
    if xs != [] {
      FilterMembers(p, xs[1..]);
      assert xs == [xs[0]] + xs[1..];
    }
  }

  lemma {:induction false} FilterCounts<T>(p: T -> bool, xs: seq<T>, x: T)
    ensures multiset(Filter(p, xs))[x] == if p(x) then multiset(xs)[x] else 0
  {
    if xs != [] {
      FilterCounts(p, xs[1..], x);
      assert xs == [xs[0]] + xs[1..];
    }
  }

  lemma {:induction false} FilterAppend<T>(p: T -> bool, xs: seq<T>, ys: seq<T>)
    ensures Filter(p, xs + ys) == Filter(p, xs) + Filter(p, ys)
  {
    if xs == [] {
      assert xs + ys == ys;
      assert [] + Filter(p, ys) == Filter(p, ys);
    } else {
      FilterAppend(p, xs[1..], ys);
      FilterFirst(p, xs[0], xs[1..] + ys);
      assert xs + ys == [xs[0]] + (xs[1..] + ys);
      Associate(if p(xs[0]) then [xs[0]] else [], Filter(p, xs[1..]), Filter(p, ys));
    }
  }

  lemma FilterFirst<T>(p: T -> bool, x: T, xs: seq<T>)
    ensures Filter(p, [x] + xs) == (if p(x) then [x] else []) + Filter(p, xs)
  {
    assert ([x] + xs)[1..] == xs;
  }

  /** The one element of the list that passes the test is at position i. */
  ghost predicate OnlyAt<T(!new)>(p: T -> bool, xs: seq<T>, i: nat) {
    && i < |xs| && p(xs[i])
    && forall j :: 0 <= j < |xs| && p(xs[j]) ==> j == i
  }

  lemma {:induction false} FilterNone<T(!new)>(p: T -> bool, xs: seq<T>)
    ensures Filter(p, xs) == [] <==> forall j :: 0 <= j < |xs| ==> !p(xs[j])
  {
    if xs != [] {
      FilterNone(p, xs[1..]);
      assert forall j :: 0 <= j < |xs| - 1 ==> xs[1..][j] == xs[j + 1];
    }
  }

  lemma {:induction false} FilterOnlyAt<T(!new)>(p: T -> bool, xs: seq<T>, i: nat)
    requires OnlyAt(p, xs, i)
    ensures Filter(p, xs) == [xs[i]]
  {
    if i == 0 {
      FilterNone(p, xs[1..]);
    } else {
      forall j | 0 <= j < |xs[1..]| && p(xs[1..][j]) ensures j == i - 1 {
        assert p(xs[j + 1]);
      }
      FilterOnlyAt(p, xs[1..], i - 1);
      assert !p(xs[0]);
    }
  }

  lemma {:induction false} FilteredOnce<T(!new)>(p: T -> bool, xs: seq<T>) returns (i: nat)
    requires |Filter(p, xs)| == 1
    ensures OnlyAt(p, xs, i)
  {
    if p(xs[0]) {
      i := 0;
      FilterNone(p, xs[1..]);
      assert forall j :: 0 < j < |xs| ==> xs[1..][j - 1] == xs[j];
    } else {
      var k := FilteredOnce(p, xs[1..]);
      i := k + 1;
      forall j | 0 <= j < |xs| && p(xs[j]) ensures j == i {
        assert p(xs[1..][j - 1]);
      }
    }
  }

  /** The last element of the list that passes the test is at position i. */
  ghost predicate LastAt<T(!new)>(p: T -> bool, xs: seq<T>, i: nat) {
    && i < |xs| && p(xs[i])
    && forall j :: i < j < |xs| ==> !p(xs[j])
  }

  lemma {:induction false} FilterUpTo<T>(p: T -> bool, xs: seq<T>, n: nat)
    requires n + 1 == |xs|
    ensures Filter(p, xs) == Filter(p, xs[..n]) + if p(xs[n]) then [xs[n]] else []
    decreases n
  {
    if n == 0 {
      assert xs[1..] == [] && xs[..0] == [];
    } else {
      var tail, init := xs[1..], xs[..n];
      FilterUpTo(p, tail, n - 1);
      assert tail[..n - 1] == init[1..];
      Associate(if p(xs[0]) then [xs[0]] else [], Filter(p, init[1..]), if p(xs[n]) then [xs[n]] else []);
    }
  }

  lemma {:induction false} FilterLast<T(!new)>(p: T -> bool, xs: seq<T>, i: nat)
    requires LastAt(p, xs, i)
    ensures Filter(p, xs) != [] && Filter(p, xs)[|Filter(p, xs)| - 1] == xs[i]
    decreases |xs|
  {
    var n := |xs| - 1;
    FilterUpTo(p, xs, n);
    if i < n {
      assert forall j :: i < j < n ==> xs[..n][j] == xs[j];
      FilterLast(p, xs[..n], i);
    }
  }

  lemma {:induction false} FilteredLast<T(!new)>(p: T -> bool, xs: seq<T>) returns (i: nat)
    requires Filter(p, xs) != []
    ensures LastAt(p, xs, i)
    decreases |xs|
  {
    var n := |xs| - 1;
    FilterUpTo(p, xs, n);
    if p(xs[n]) {
      i := n;
    } else {
      i := FilteredLast(p, xs[..n]);
      assert forall j :: i < j < n ==> xs[j] == xs[..n][j];
    }
  }

  ghost function Positions<T(!new)>(p: T -> bool, xs: seq<T>): set<int> {
    set j | 0 <= j < |xs| && p(xs[j])
  }

  lemma {:induction false} FilterPositions<T(!new)>(p: T -> bool, xs: seq<T>)
    ensures |Filter(p, xs)| == |Positions(p, xs)|
    decreases |xs|
  {
    if xs == [] {
      assert Positions(p, xs) == {};
    } else {
      var n := |xs| - 1;
      FilterUpTo(p, xs, n);
      FilterPositions(p, xs[..n]);
      assert Positions(p, xs) == Positions(p, xs[..n]) + if p(xs[n]) then {n} else {};
    }
  }

  /** Reordering the list, and replacing the test by an equivalent one, only reorders what is kept. */
  lemma FilterReordered<T(!new)>(p: T -> bool, xs: seq<T>, q: T -> bool, ys: seq<T>)
    requires multiset(xs) == multiset(ys)
    requires forall x :: p(x) == q(x)
    ensures multiset(Filter(p, xs)) == multiset(Filter(q, ys))
    ensures |Filter(p, xs)| == |Filter(q, ys)|
    ensures |Filter(p, xs)| == 1 ==> Filter(p, xs) == Filter(q, ys)
  {
    var a, b := Filter(p, xs), Filter(q, ys);
    forall x ensures multiset(a)[x] == multiset(b)[x] {
      FilterCounts(p, xs, x);
      FilterCounts(q, ys, x);
    }
    assert multiset(a) == multiset(b);
    assert |multiset(a)| == |multiset(b)|;
    SingletonReordered(a, b);
  }

  lemma SingletonReordered<T>(a: seq<T>, b: seq<T>)
    requires multiset(a) == multiset(b)
    ensures |a| == |b|
    ensures |a| == 1 ==> a == b
    ensures forall x :: x in a <==> x in b
  {
    assert |multiset(a)| == |multiset(b)|;
    assert forall x :: x in a <==> x in multiset(a);
    assert forall x :: x in b <==> x in multiset(b);
    if |a| == 1 {
      assert a[0] in multiset(b);
    }
  }

  /** Moving one element to the front or to the back is a reordering. */
  lemma MoveElement<T>(xs: seq<T>, x: T) returns (rest: seq<T>)
    requires x in xs
    ensures multiset([x] + rest) == multiset(xs) == multiset(rest + [x])
  {
    var i :| 0 <= i < |xs| && xs[i] == x;
    rest := xs[..i] + xs[i + 1..];
    assert xs == xs[..i] + [x] + xs[i + 1..];
  }

  // ----- keeping what a function finds -----

  function Collect<A, B>(f: A -> Option<B>, xs: seq<A>): seq<B> {
    if xs == [] then []
    else
      Collect(f, xs[..|xs| - 1]) + if f(xs[|xs| - 1]).Some? then [f(xs[|xs| - 1]).value] else []
  }

  lemma CollectOneMore<A, B>(f: A -> Option<B>, xs: seq<A>, x: A)
    ensures Collect(f, xs + [x]) == Collect(f, xs) + if f(x).Some? then [f(x).value] else []
  {
    assert (xs + [x])[..|xs|] == xs;
  }

  lemma CollectTwo<A, B>(f: A -> Option<B>, x: A, y: A)
    requires f(x).Some? && f(y).Some?
    ensures Collect(f, [x, y]) == [f(x).value, f(y).value]
  {
    CollectOneMore(f, [], x);
    CollectOneMore(f, [x], y);
    assert [] + [x] == [x] && [x] + [y] == [x, y];
  }

  lemma {:induction false} CollectMembers<A, B>(f: A -> Option<B>, xs: seq<A>, k: nat) returns (i: nat)
    requires k < |Collect(f, xs)|
    ensures i < |xs| && f(xs[i]) == Some(Collect(f, xs)[k])
  {
    var init := xs[..|xs| - 1];
    if k < |Collect(f, init)| {
      i := CollectMembers(f, init, k);
    } else {
      i := |xs| - 1;
    }
  }

  /** What is found in order of the list, if finding keeps that order, is in order. */
  lemma {:induction false} CollectOrdered<A, B>(f: A -> Option<B>, lt: (B, B) -> bool, xs: seq<A>)
    requires forall i, j :: 0 <= i < j < |xs| && f(xs[i]).Some? && f(xs[j]).Some? ==> lt(f(xs[i]).value, f(xs[j]).value)
    ensures forall i, j :: 0 <= i < j < |Collect(f, xs)| ==> lt(Collect(f, xs)[i], Collect(f, xs)[j])
  {
    if xs != [] {
      var init := xs[..|xs| - 1];
      CollectOrdered(f, lt, init);
      var before := Collect(f, init);
      forall k | 0 <= k < |before| && f(xs[|xs| - 1]).Some? ensures lt(before[k], f(xs[|xs| - 1]).value) {
        var i := CollectMembers(f, init, k);
      }
    }
  }
}
