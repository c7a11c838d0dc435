/** The stable sort by a key that the standard library's `sort_by_key` performs. */
module Sorting {

  function InsertByKey<T>(xs: seq<T>, x: T, key: T -> nat): seq<T> {
    if xs == [] then [x]
    else if key(xs[|xs| - 1]) <= key(x) then xs + [x]
    else InsertByKey(xs[..|xs| - 1], x, key) + [xs[|xs| - 1]]
  }

  function SortByKey<T>(xs: seq<T>, key: T -> nat): seq<T> {
    if xs == [] then [] else InsertByKey(SortByKey(xs[..|xs| - 1], key), xs[|xs| - 1], key)
  }

  ghost predicate SortedBy<T>(xs: seq<T>, key: T -> nat) {
    forall i, j :: 0 <= i < j < |xs| ==> key(xs[i]) <= key(xs[j])
  }

  lemma {:induction false} InsertPermutes<T>(xs: seq<T>, x: T, key: T -> nat)
    ensures multiset(InsertByKey(xs, x, key)) == multiset(xs) + multiset{x}
    ensures |InsertByKey(xs, x, key)| == |xs| + 1
  {
    if xs != [] {
      var front, last := xs[..|xs| - 1], xs[|xs| - 1];
      InsertPermutes(front, x, key);
      assert xs == front + [last];
    }
  }

  lemma {:induction false} InsertSorts<T>(xs: seq<T>, x: T, key: T -> nat)
    requires SortedBy(xs, key)
    ensures SortedBy(InsertByKey(xs, x, key), key)
  {
    if xs != [] && key(xs[|xs| - 1]) > key(x) {
      var front, last := xs[..|xs| - 1], xs[|xs| - 1];
      InsertSorts(front, x, key);
      InsertPermutes(front, x, key);
      var r := InsertByKey(front, x, key);
      forall i | 0 <= i < |r|
        ensures key(r[i]) <= key(last)
      {
        assert r[i] in multiset(r);
        assert r[i] in front || r[i] == x;
      }
    }
  }

  /** Sorting orders by the key and only rearranges. */
  lemma {:induction false} SortSorts<T>(xs: seq<T>, key: T -> nat)
    ensures SortedBy(SortByKey(xs, key), key)
    ensures multiset(SortByKey(xs, key)) == multiset(xs)
    ensures |SortByKey(xs, key)| == |xs|
    ensures forall x :: x in SortByKey(xs, key) <==> x in xs
  {
    if xs != [] {
      var front, last := xs[..|xs| - 1], xs[|xs| - 1];
      SortSorts(front, key);
      assert xs == front + [last];
      InsertSorts(SortByKey(front, key), last, key);
      InsertPermutes(SortByKey(front, key), last, key);
    }
    forall x
      ensures x in SortByKey(xs, key) <==> x in xs
    {
      assert x in SortByKey(xs, key) <==> x in multiset(SortByKey(xs, key));
      assert x in xs <==> x in multiset(xs);
    }
  }

  ghost predicate NoDuplicates<T>(xs: seq<T>) {
    forall i, j :: 0 <= i < j < |xs| ==> xs[i] != xs[j]
  }

  lemma {:induction false} InsertKeepsDistinct<T>(xs: seq<T>, x: T, key: T -> nat)
    requires NoDuplicates(xs) && x !in xs
    ensures NoDuplicates(InsertByKey(xs, x, key))
  {
    if xs != [] && key(xs[|xs| - 1]) > key(x) {
      var front, last := xs[..|xs| - 1], xs[|xs| - 1];
      InsertKeepsDistinct(front, x, key);
      InsertPermutes(front, x, key);
      var r := InsertByKey(front, x, key);
      forall i | 0 <= i < |r|
        ensures r[i] != last
      {
        assert r[i] in multiset(r);
        assert r[i] in front || r[i] == x;
      }
    }
  }

  lemma {:induction false} SortKeepsDistinct<T>(xs: seq<T>, key: T -> nat)
    requires NoDuplicates(xs)
    ensures NoDuplicates(SortByKey(xs, key))
  {
    if xs != [] {
      var front, last := xs[..|xs| - 1], xs[|xs| - 1];
      SortKeepsDistinct(front, key);
      SortSorts(front, key);
      InsertKeepsDistinct(SortByKey(front, key), last, key);
    }
  }
}
