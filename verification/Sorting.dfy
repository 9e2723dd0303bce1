/** Stable insertion sort by an integer key, and why equal collections sort equally. */
module Sorting {

  ghost predicate OrderedBy<T>(xs: seq<T>, key: T -> int) {
    forall i, j :: 0 <= i < j < |xs| ==> key(xs[i]) <= key(xs[j])
  }

  ghost predicate DistinctBy<T>(xs: seq<T>, key: T -> int) {
    forall i, j :: 0 <= i < j < |xs| ==> key(xs[i]) != key(xs[j])
  }

  function InsertBy<T>(xs: seq<T>, x: T, key: T -> int): (r: seq<T>)
    ensures |r| == |xs| + 1
    ensures multiset(r) == multiset(xs) + multiset{x}
  {
    if xs == [] then [x]
    else
      var front, last := xs[..|xs| - 1], xs[|xs| - 1];
      assert xs == front + [last];
      if key(last) <= key(x) then xs + [x] else InsertBy(front, x, key) + [last]
  }

  function SortBy<T>(xs: seq<T>, key: T -> int): (r: seq<T>)
    ensures |r| == |xs|
    ensures multiset(r) == multiset(xs)
  {
    if xs == [] then []
    else
      assert xs == xs[..|xs| - 1] + [xs[|xs| - 1]];
      InsertBy(SortBy(xs[..|xs| - 1], key), xs[|xs| - 1], key)
  }

  lemma SameMembers<T>(xs: seq<T>, ys: seq<T>)
    requires multiset(xs) == multiset(ys)
    ensures forall x :: x in xs <==> x in ys
  {
    forall x ensures x in xs <==> x in ys {
      assert x in xs <==> x in multiset(xs);
      assert x in ys <==> x in multiset(ys);
    }
  }

  lemma SortMembers<T>(xs: seq<T>, key: T -> int)
    ensures forall x :: x in SortBy(xs, key) <==> x in xs
  {
    SameMembers(SortBy(xs, key), xs);
  }

  lemma {:induction false} InsertKeepsOrder<T>(xs: seq<T>, x: T, key: T -> int)
    requires OrderedBy(xs, key)
    ensures OrderedBy(InsertBy(xs, x, key), key)
  {
    if xs != [] && key(xs[|xs| - 1]) > key(x) {
      var front, last := xs[..|xs| - 1], xs[|xs| - 1];
      InsertKeepsOrder(front, x, key);
      var r := InsertBy(front, x, key);
      forall i | 0 <= i < |r| ensures key(r[i]) <= key(last) {
        assert r[i] in multiset(r);
        assert r[i] in multiset(front) || r[i] == x;
      }
    }
  }

  lemma {:induction false} SortOrders<T>(xs: seq<T>, key: T -> int)
    ensures OrderedBy(SortBy(xs, key), key)
  {
    if xs != [] {
      SortOrders(xs[..|xs| - 1], key);
      InsertKeepsOrder(SortBy(xs[..|xs| - 1], key), xs[|xs| - 1], key);
    }
  }

  /** No key is repeated, however the elements are arranged. */
  lemma DistinctRearranged<T>(xs: seq<T>, ys: seq<T>, key: T -> int)
    requires multiset(xs) == multiset(ys) && DistinctBy(xs, key)
    ensures DistinctBy(ys, key)
  {
    forall i, j | 0 <= i < j < |ys| ensures key(ys[i]) != key(ys[j]) {
      if ys[i] == ys[j] {
        TwiceCounted(ys, i, j);
        OnceCounted(xs, ys[i], key);
      } else {
        assert ys[i] in multiset(xs) && ys[j] in multiset(xs);
        var a :| 0 <= a < |xs| && xs[a] == ys[i];
        var b :| 0 <= b < |xs| && xs[b] == ys[j];
      }
    }
  }

  lemma TwiceCounted<T>(xs: seq<T>, i: nat, j: nat)
    requires i < j < |xs| && xs[i] == xs[j]
    ensures multiset(xs)[xs[i]] >= 2
  {
    assert xs == xs[..i] + [xs[i]] + xs[i + 1..j] + [xs[j]] + xs[j + 1..];
  }

  lemma {:induction false} OnceCounted<T>(xs: seq<T>, x: T, key: T -> int)
    requires DistinctBy(xs, key)
    ensures multiset(xs)[x] <= 1
  {
    if xs != [] {
      var front, last := xs[..|xs| - 1], xs[|xs| - 1];
      assert xs == front + [last];
      OnceCounted(front, x, key);
      if x == last {
        assert x !in front;
        assert multiset(front)[x] == 0;
      }
    }
  }

  lemma SortDistinct<T>(xs: seq<T>, key: T -> int)
    requires DistinctBy(xs, key)
    ensures DistinctBy(SortBy(xs, key), key)
  {
    DistinctRearranged(xs, SortBy(xs, key), key);
  }

  /** Two ordered lists without repeated keys and with the same members are the same list. */
  lemma {:induction false} OrderedUnique<T>(s: seq<T>, t: seq<T>, key: T -> int)
    requires OrderedBy(s, key) && OrderedBy(t, key) && DistinctBy(s, key) && DistinctBy(t, key)
    requires |s| == |t| && forall x :: x in s <==> x in t
    ensures s == t
    decreases |s|
  {
    if s != [] {
      assert s[0] in t && t[0] in s;
      var i :| 0 <= i < |t| && t[i] == s[0];
      var j :| 0 <= j < |s| && s[j] == t[0];
      assert s[0] == t[0];
      forall x ensures x in s[1..] <==> x in t[1..] {
        assert x in s[1..] <==> x in s && x != s[0];
        assert x in t[1..] <==> x in t && x != t[0];
      }
      OrderedUnique(s[1..], t[1..], key);
    }
  }

  lemma {:induction false} SameMembersSameSize<T>(xs: seq<T>, ys: seq<T>, key: T -> int)
    requires DistinctBy(xs, key) && DistinctBy(ys, key) && forall x :: x in xs <==> x in ys
    ensures multiset(xs) == multiset(ys) && |xs| == |ys|
  {
    forall x ensures multiset(xs)[x] == multiset(ys)[x] {
      OnceCounted(xs, x, key);
      OnceCounted(ys, x, key);
      assert x in xs <==> x in multiset(xs);
      assert x in ys <==> x in multiset(ys);
    }
    assert multiset(xs) == multiset(ys);
    assert |multiset(xs)| == |xs| && |multiset(ys)| == |ys|;
  }

  /** Collections with the same members and no repeated key sort to the same list. */
  lemma SortsEqual<T>(xs: seq<T>, ys: seq<T>, key: T -> int)
    requires DistinctBy(xs, key) && DistinctBy(ys, key) && forall x :: x in xs <==> x in ys
    ensures SortBy(xs, key) == SortBy(ys, key)
  {
    SameMembersSameSize(xs, ys, key);
    SortOrders(xs, key);
    SortOrders(ys, key);
    SortDistinct(xs, key);
    SortDistinct(ys, key);
    SortMembers(xs, key);
    SortMembers(ys, key);
    OrderedUnique(SortBy(xs, key), SortBy(ys, key), key);
  }
}
