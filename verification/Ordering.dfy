/** Python's `sorted` on strings and on tuples of strings, and the option type the other modules share. */
module Ordering {

  datatype Option<+T> = None | Some(value: T)

  /** Python's truth of a string that may be absent. */
  predicate Truthy(s: Option<string>) { s.Some? && s.value != "" }

  /** Lexicographic order by code point: how Python compares `str` values. */
  predicate StringLe(a: string, b: string) {
    a == "" || (b != "" && (a[0] < b[0] || (a[0] == b[0] && StringLe(a[1..], b[1..]))))
  }

  predicate StringLt(a: string, b: string) {
    StringLe(a, b) && a != b
  }

  lemma {:induction false} StringLeTotal(a: string, b: string)
    ensures StringLe(a, b) || StringLe(b, a)
  {
    if a != "" && b != "" && a[0] == b[0] {
      StringLeTotal(a[1..], b[1..]);
    }
  }

  lemma {:induction false} StringLeAntisymmetric(a: string, b: string)
    requires StringLe(a, b) && StringLe(b, a)
    ensures a == b
  {
    if a != "" {
      StringLeAntisymmetric(a[1..], b[1..]);
      assert a == [a[0]] + a[1..] && b == [b[0]] + b[1..];
    }
  }

  lemma {:induction false} StringLeTransitive(a: string, b: string, c: string)
    requires StringLe(a, b) && StringLe(b, c)
    ensures StringLe(a, c)
  {
    if a != "" && a[0] == b[0] == c[0] {
      StringLeTransitive(a[1..], b[1..], c[1..]);
    }
  }

  ghost predicate TotalPreorder<T(!new)>(le: (T, T) -> bool) {
    && (forall x, y :: le(x, y) || le(y, x))
    && (forall x, y, z :: le(x, y) && le(y, z) ==> le(x, z))
  }

  ghost predicate SortedBy<T>(le: (T, T) -> bool, xs: seq<T>) {
    forall i, j :: 0 <= i < j < |xs| ==> le(xs[i], xs[j])
  }

  function Insert<T>(le: (T, T) -> bool, x: T, xs: seq<T>): seq<T> {
    if xs == [] || !le(xs[0], x) then [x] + xs else [xs[0]] + Insert(le, x, xs[1..])
  }

  /** A stable sort, as Python's is. */
  function Sort<T>(le: (T, T) -> bool, xs: seq<T>): seq<T> {
    if xs == [] then [] else Insert(le, xs[|xs| - 1], Sort(le, xs[..|xs| - 1]))
  }

  lemma {:induction false} InsertPermutes<T>(le: (T, T) -> bool, x: T, xs: seq<T>)
    ensures multiset(Insert(le, x, xs)) == multiset(xs) + multiset{x}
  {
    if xs != [] && le(xs[0], x) {
      InsertPermutes(le, x, xs[1..]);
      assert xs == [xs[0]] + xs[1..];
    }
  }

  lemma {:induction false} SortPermutes<T>(le: (T, T) -> bool, xs: seq<T>)
    ensures multiset(Sort(le, xs)) == multiset(xs)
    ensures |Sort(le, xs)| == |xs|
    ensures forall x :: x in Sort(le, xs) <==> x in xs
  {
    if xs != [] {
      var n := |xs| - 1;
      SortPermutes(le, xs[..n]);
      InsertPermutes(le, xs[n], Sort(le, xs[..n]));
      assert xs == xs[..n] + [xs[n]];
    }
    assert |multiset(Sort(le, xs))| == |multiset(xs)|;
    assert forall x :: x in Sort(le, xs) <==> x in multiset(Sort(le, xs));
    assert forall x :: x in xs <==> x in multiset(xs);
  }

  lemma {:induction false} InsertSorted<T(!new)>(le: (T, T) -> bool, x: T, xs: seq<T>)
    requires TotalPreorder(le) && SortedBy(le, xs)
    ensures SortedBy(le, Insert(le, x, xs))
  {
    if xs != [] && le(xs[0], x) {
      InsertSorted(le, x, xs[1..]);
      InsertPermutes(le, x, xs[1..]);
      var tail := Insert(le, x, xs[1..]);
      forall y | y in tail ensures le(xs[0], y) {
        assert y in multiset(tail);
        assert y == x || y in xs[1..];
      }
    }
  }

  lemma {:induction false} SortSorted<T(!new)>(le: (T, T) -> bool, xs: seq<T>)
    requires TotalPreorder(le)
    ensures SortedBy(le, Sort(le, xs))
  {
    if xs != [] {
      SortSorted(le, xs[..|xs| - 1]);
      InsertSorted(le, xs[|xs| - 1], Sort(le, xs[..|xs| - 1]));
    }
  }

  ghost predicate Distinct<T>(xs: seq<T>) {
    forall i, j :: 0 <= i < j < |xs| ==> xs[i] != xs[j]
  }

  lemma StringOrderIsTotal()
    ensures TotalPreorder(StringLe)
  {
    forall x, y ensures StringLe(x, y) || StringLe(y, x) {
      StringLeTotal(x, y);
    }
    forall x, y, z | StringLe(x, y) && StringLe(y, z) ensures StringLe(x, z) {
      StringLeTransitive(x, y, z);
    }
  }

  /** The members of a set, or the keys of a dict, sorted. */
  ghost predicate IsAscendingListOf(xs: seq<string>, members: set<string>) {
    && (forall i, j :: 0 <= i < j < |xs| ==> StringLt(xs[i], xs[j]))
    && (forall x :: x in xs <==> x in members)
  }

  lemma {:induction false} DistinctCardinality<T>(xs: seq<T>)
    requires Distinct(xs)
    ensures |set x | x in xs| == |xs|
  {
    if xs == [] {
      assert (set x | x in xs) == {};
    } else {
      var n := |xs| - 1;
      DistinctCardinality(xs[..n]);
      assert (set x | x in xs) == (set x | x in xs[..n]) + {xs[n]} by {
        assert xs == xs[..n] + [xs[n]];
      }
      assert xs[n] !in xs[..n];
    }
  }

  method SortedMembers(members: set<string>) returns (xs: seq<string>)
    ensures IsAscendingListOf(xs, members)
  {
    xs := [];
    var rest := members;
    while rest != {}
      invariant rest <= members
      invariant Distinct(xs)
      invariant forall x :: x in xs <==> x in members - rest
      decreases |rest|
    {
      var x :| x in rest;
      assert x !in xs;
      xs := xs + [x];
      rest := rest - {x};
    }
    ghost var unsorted := xs;
    xs := Sort(StringLe, xs);
    StringOrderIsTotal();
    SortSorted(StringLe, unsorted);
    SortPermutes(StringLe, unsorted);
    DistinctByMultiset(unsorted, xs);
  }

  lemma DistinctByMultiset<T>(xs: seq<T>, ys: seq<T>)
    requires Distinct(xs) && multiset(xs) == multiset(ys)
    ensures Distinct(ys)
  {
    forall i, j | 0 <= i < j < |ys| ensures ys[i] != ys[j] {
      if ys[i] == ys[j] {
        var x := ys[i];
        assert ys == ys[..i] + [x] + ys[i + 1..j] + [x] + ys[j + 1..];
        assert multiset(ys)[x] >= 2;
        DistinctCounts(xs, x);
      }
    }
  }

  lemma {:induction false} DistinctCounts<T>(xs: seq<T>, x: T)
    requires Distinct(xs)
    ensures multiset(xs)[x] <= 1
  {
    if xs != [] {
      var n := |xs| - 1;
      DistinctCounts(xs[..n], x);
      assert xs == xs[..n] + [xs[n]];
      if xs[n] == x {
        assert x !in xs[..n];
        assert x !in multiset(xs[..n]);
      }
    }
  }
}
