/** Sums over a sequence, whatever its order. */
module Sequences {

  function SumOf<T>(xs: seq<T>, weight: T -> int): int {
    if xs == [] then 0 else weight(xs[0]) + SumOf(xs[1..], weight)
  }

  function Without<T>(xs: seq<T>, i: nat): seq<T>
    requires i < |xs|
  {
    xs[..i] + xs[i + 1..]
  }

  lemma WithoutBag<T>(xs: seq<T>, i: nat)
    requires i < |xs|
    ensures multiset(xs) == multiset(Without(xs, i)) + multiset{xs[i]}
  {
    assert xs == xs[..i] + ([xs[i]] + xs[i + 1..]);
  }

  lemma {:induction false} WithoutSum<T>(xs: seq<T>, i: nat, weight: T -> int)
    requires i < |xs|
    ensures SumOf(xs, weight) == SumOf(Without(xs, i), weight) + weight(xs[i])
  {
    if i == 0 {
      assert Without(xs, 0) == xs[1..];
    } else {
      WithoutSum(xs[1..], i - 1, weight);
      assert Without(xs, i)[1..] == Without(xs[1..], i - 1);
    }
  }

  lemma SameElements<T>(a: seq<T>, b: seq<T>)
    requires multiset(a) == multiset(b)
    ensures |a| == |b| && forall x :: x in a <==> x in b
  {
    assert |a| == |multiset(a)| && |b| == |multiset(b)|;
    assert forall x :: x in a <==> x in multiset(a);
    assert forall x :: x in b <==> x in multiset(b);
  }

  lemma SameRest<T>(a: seq<T>, b: seq<T>, i: nat, j: nat)
    requires multiset(a) == multiset(b) && i < |a| && j < |b| && a[i] == b[j]
    ensures multiset(Without(a, i)) == multiset(Without(b, j))
  {
    WithoutBag(a, i);
    WithoutBag(b, j);
    assert multiset(Without(a, i)) == multiset(a) - multiset{a[i]};
    assert multiset(Without(b, j)) == multiset(b) - multiset{b[j]};
  }

  lemma {:induction false} SumIgnoresOrder<T>(a: seq<T>, b: seq<T>, weight: T -> int)
    requires multiset(a) == multiset(b)
    ensures SumOf(a, weight) == SumOf(b, weight)
    decreases |a|
  {
    SameElements(a, b);
    if a != [] {
      assert a[0] in b;
      var i :| 0 <= i < |b| && b[i] == a[0];
      SameRest(a, b, 0, i);
      WithoutSum(a, 0, weight);
      WithoutSum(b, i, weight);
      SumIgnoresOrder(Without(a, 0), Without(b, i), weight);
    }
  }

  lemma StartedWith<T>(before: seq<T>, xs: seq<T>, first: T, rest: seq<T>)
    requires |xs| == |rest| + 1 && xs[0] == first && forall i :: 0 <= i < |rest| ==> rest[i] == xs[i + 1]
    ensures before + xs == before + [first] + rest
  {
    assert xs == [first] + rest;
  }
}
