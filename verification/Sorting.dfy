/** The stable sort by a descending key that selection and payouts rely on. */
module Sorting {
  predicate Descending<T>(xs: seq<T>, key: T -> nat) {
    forall i, k :: 0 <= i < k < |xs| ==> key(xs[i]) >= key(xs[k])
  }

  function InsertAt<T>(xs: seq<T>, x: T, at: nat): (r: seq<T>)
    requires at <= |xs|
    ensures |r| == |xs| + 1 && multiset(r) == multiset(xs) + multiset{x}
    ensures forall i :: 0 <= i < |r| ==> r[i] == if i < at then xs[i] else if i == at then x else xs[i - 1]
  {
    assert xs == xs[..at] + xs[at..];
    xs[..at] + [x] + xs[at..]
  }

  lemma InsertDescends<T>(xs: seq<T>, key: T -> nat, x: T, at: nat)
    requires Descending(xs, key) && at <= |xs|
    requires forall k :: at <= k < |xs| ==> key(xs[k]) < key(x)
    requires at > 0 ==> key(xs[at - 1]) >= key(x)
    ensures Descending(InsertAt(xs, x, at), key)
  {
    var r := InsertAt(xs, x, at);
    forall i, k | 0 <= i < k < |r| ensures key(r[i]) >= key(r[k]) {
      assert r[i] == if i < at then xs[i] else if i == at then x else xs[i - 1];
      assert r[k] == if k < at then xs[k] else if k == at then x else xs[k - 1];
    }
  }

  /** The elements of key v, in order. */
  function WithKey<T>(xs: seq<T>, key: T -> nat, v: nat): seq<T> {
    if xs == [] then []
    else
      var n := |xs| - 1;
      WithKey(xs[..n], key, v) + if key(xs[n]) == v then [xs[n]] else []
  }

  lemma {:induction false} WithKeyConcat<T>(a: seq<T>, b: seq<T>, key: T -> nat, v: nat)
    ensures WithKey(a + b, key, v) == WithKey(a, key, v) + WithKey(b, key, v)
    decreases |b|
  {
    if b == [] {
      assert a + b == a;
    } else {
      var n := |b| - 1;
      assert (a + b)[..|a + b| - 1] == a + b[..n];
      WithKeyConcat(a, b[..n], key, v);
    }
  }

  lemma {:induction false} NoneWithKey<T>(xs: seq<T>, key: T -> nat, v: nat)
    requires forall i :: 0 <= i < |xs| ==> key(xs[i]) != v
    ensures WithKey(xs, key, v) == []
  {
    if xs != [] {
      NoneWithKey(xs[..|xs| - 1], key, v);
    }
  }

  /** Inserting x after everything of its key or more puts it last among its
      equals. */
  lemma InsertStable<T>(xs: seq<T>, key: T -> nat, x: T, at: nat, v: nat)
    requires at <= |xs| && forall k :: at <= k < |xs| ==> key(xs[k]) < key(x)
    ensures WithKey(InsertAt(xs, x, at), key, v) == WithKey(xs + [x], key, v)
  {
    hide WithKey, InsertAt;
    var a, b := xs[..at], xs[at..];
    InsertShape(xs, x, at);
    WithKeyConcat(a + [x], b, key, v);
    WithKeyConcat(a, [x], key, v);
    WithKeyConcat(a, b, key, v);
    WithKeyConcat(xs, [x], key, v);
    OneWithKey(x, key, v);
    if key(x) == v {
      NoneWithKey(b, key, v);
    }
  }

  lemma InsertShape<T>(xs: seq<T>, x: T, at: nat)
    requires at <= |xs|
    ensures InsertAt(xs, x, at) == xs[..at] + [x] + xs[at..] && xs == xs[..at] + xs[at..]
  {
  }

  lemma OneWithKey<T>(x: T, key: T -> nat, v: nat)
    ensures WithKey([x], key, v) == if key(x) == v then [x] else []
  {
  }

  /** Where x goes: past every smaller element from the end. */
  function Spot<T>(xs: seq<T>, key: T -> nat, x: T): (at: nat)
    ensures at <= |xs| && forall k :: at <= k < |xs| ==> key(xs[k]) < key(x)
    ensures at > 0 ==> key(xs[at - 1]) >= key(x)
    decreases |xs|
  {
    if xs == [] then 0
    else
      var n := |xs| - 1;
      if key(xs[n]) < key(x) then Spot(xs[..n], key, x) else |xs|
  }

  /** The elements in descending order, equal keys in their first order. */
  function Sorted<T>(xs: seq<T>, key: T -> nat): (r: seq<T>)
    ensures |r| == |xs|
    decreases |xs|
  {
    if xs == [] then []
    else
      var n := |xs| - 1;
      var r := Sorted(xs[..n], key);
      InsertAt(r, xs[n], Spot(r, key, xs[n]))
  }

  lemma {:induction false} SortedIs<T>(xs: seq<T>, key: T -> nat)
    ensures multiset(Sorted(xs, key)) == multiset(xs) && Descending(Sorted(xs, key), key)
    ensures forall v: nat :: WithKey(Sorted(xs, key), key, v) == WithKey(xs, key, v)
    decreases |xs|
  {
    hide InsertAt, WithKey, Spot;
    if xs != [] {
      var n := |xs| - 1;
      SortedIs(xs[..n], key);
      var r := Sorted(xs[..n], key);
      var at := Spot(r, key, xs[n]);
      InsertDescends(r, key, xs[n], at);
      Inserted(r, xs[n], at);
      assert xs == xs[..n] + [xs[n]];
      forall v: nat ensures WithKey(InsertAt(r, xs[n], at), key, v) == WithKey(xs, key, v) {
        InsertStable(r, key, xs[n], at, v);
        WithKeyConcat(r, [xs[n]], key, v);
        WithKeyConcat(xs[..n], [xs[n]], key, v);
      }
    }
  }

  lemma SpotStep<T>(xs: seq<T>, key: T -> nat, x: T, at: nat)
    requires 0 < at <= |xs| && key(xs[at - 1]) < key(x)
    ensures Spot(xs[..at], key, x) == Spot(xs[..at - 1], key, x)
  {
    assert xs[..at][..at - 1] == xs[..at - 1];
  }

  lemma SpotEnds<T>(xs: seq<T>, key: T -> nat, x: T, at: nat)
    requires at <= |xs| && (at > 0 ==> key(xs[at - 1]) >= key(x))
    ensures Spot(xs[..at], key, x) == at
  {
  }

  lemma SortedNothing<T>(key: T -> nat)
    ensures Sorted([], key) == []
  {
  }

  lemma SortedStep<T>(xs: seq<T>, key: T -> nat, n: nat)
    requires n < |xs|
    ensures var r := Sorted(xs[..n], key);
      Sorted(xs[..n + 1], key) == InsertAt(r, xs[n], Spot(r, key, xs[n]))
  {
    hide InsertAt, Spot;
    assert xs[..n + 1][..n] == xs[..n];
  }

  /** Each element moves up past those of smaller key, so equal keys keep their
      order. */
  method SortDescending<T(==)>(xs: seq<T>, key: T -> nat) returns (r: seq<T>)
    ensures r == Sorted(xs, key)
    ensures multiset(r) == multiset(xs) && Descending(r, key)
    ensures forall v: nat :: WithKey(r, key, v) == WithKey(xs, key, v)
  {
    hide InsertAt, WithKey, Descending, Spot, Sorted;
    r := [];
    SortedNothing<T>(key);
    for n := 0 to |xs|
      invariant |r| == n && r == Sorted(xs[..n], key)
    {
      var at := n;
      assert r[..at] == r;
      while at > 0 && key(r[at - 1]) < key(xs[n])
        invariant at <= n && Spot(r, key, xs[n]) == Spot(r[..at], key, xs[n])
      {
        SpotStep(r, key, xs[n], at);
        at := at - 1;
      }
      SpotEnds(r, key, xs[n], at);
      SortedStep(xs, key, n);
      r := InsertAt(r, xs[n], at);
    }
    assert xs[..|xs|] == xs;
    SortedIs(xs, key);
  }

  lemma Inserted<T>(xs: seq<T>, x: T, at: nat)
    requires at <= |xs|
    ensures |InsertAt(xs, x, at)| == |xs| + 1 && multiset(InsertAt(xs, x, at)) == multiset(xs) + multiset{x}
  {
  }

  lemma {:induction false} MembersSame<T>(a: seq<T>, b: seq<T>)
    requires multiset(a) == multiset(b)
    ensures |a| == |b| && forall x :: x in a <==> x in b
  {
    assert |multiset(a)| == |multiset(b)|;
    forall x ensures x in a <==> x in b {
      assert x in a <==> x in multiset(a);
      assert x in b <==> x in multiset(b);
    }
  }

  predicate Distinct<T(==)>(xs: seq<T>) {
    forall i, k :: 0 <= i < k < |xs| ==> xs[i] != xs[k]
  }

  lemma {:induction false} CountOnce<T>(xs: seq<T>, x: T)
    requires Distinct(xs)
    ensures multiset(xs)[x] <= 1
  {
    if xs != [] {
      var n := |xs| - 1;
      assert xs == xs[..n] + [xs[n]];
      CountOnce(xs[..n], x);
      if x == xs[n] {
        assert x !in xs[..n];
        assert multiset(xs[..n])[x] == 0;
      }
    }
  }

  lemma DistinctSame<T>(a: seq<T>, b: seq<T>)
    requires Distinct(a) && multiset(a) == multiset(b)
    ensures Distinct(b)
  {
    forall i, k | 0 <= i < k < |b| ensures b[i] != b[k] {
      CountOnce(a, b[i]);
      if b[i] == b[k] {
        TwiceCounts(b, i, k);
      }
    }
  }

  lemma TwiceCounts<T>(b: seq<T>, i: nat, k: nat)
    requires i < k < |b| && b[i] == b[k]
    ensures multiset(b)[b[i]] >= 2
  {
    assert b == b[..k] + b[k..];
    assert b[i] in b[..k] && b[k] in b[k..];
  }
}
