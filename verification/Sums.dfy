/** Sums over the members of a list, in whatever order they are listed. */
module Sums {
  predicate NoRepeats<T(==)>(xs: seq<T>) {
    forall i, j :: 0 <= i < j < |xs| ==> xs[i] != xs[j]
  }

  lemma NoRepeatsSnoc<T>(xs: seq<T>, x: T)
    requires NoRepeats(xs) && x !in xs
    ensures NoRepeats(xs + [x])
  {
    forall i | 0 <= i < |xs|
      ensures xs[i] != x
    {
      assert xs[i] in xs;
    }
  }

  function SumOver<T>(xs: seq<T>, f: T -> int): int {
    if xs == [] then 0 else SumOver(xs[..|xs| - 1], f) + f(xs[|xs| - 1])
  }

  lemma SumOverSnoc<T>(xs: seq<T>, x: T, f: T -> int)
    ensures SumOver(xs + [x], f) == SumOver(xs, f) + f(x)
  {
    assert (xs + [x])[..|xs|] == xs;
  }

  lemma {:induction false} SumOverAdds<T>(xs: seq<T>, f: T -> int, g: T -> int, h: T -> int)
    requires forall k :: 0 <= k < |xs| ==> f(xs[k]) + g(xs[k]) == h(xs[k])
    ensures SumOver(xs, f) + SumOver(xs, g) == SumOver(xs, h)
  {
    if xs != [] {
      SumOverAdds(xs[..|xs| - 1], f, g, h);
    }
  }

  function Without<T>(xs: seq<T>, k: nat): seq<T>
    requires k < |xs|
  {
    xs[..k] + xs[k + 1..]
  }

  lemma {:induction false} SumOverWithout<T>(xs: seq<T>, k: nat, f: T -> int)
    requires k < |xs|
    ensures SumOver(xs, f) == SumOver(Without(xs, k), f) + f(xs[k])
  {
    var n := |xs| - 1;
    if k == n {
      assert xs[..n] + xs[n + 1..] == xs[..n];
    } else {
      SumOverWithout(xs[..n], k, f);
      assert xs[..n][..k] == xs[..k];
      assert xs[..k] + xs[k + 1..] == (xs[..k] + xs[..n][k + 1..]) + [xs[n]];
      SumOverSnoc(xs[..k] + xs[..n][k + 1..], xs[n], f);
    }
  }

  lemma WithoutIs<T>(xs: seq<T>, k: nat)
    requires k < |xs| && NoRepeats(xs)
    ensures NoRepeats(Without(xs, k))
    ensures forall x :: x in Without(xs, k) <==> x in xs && x != xs[k]
  {
    var rest := Without(xs, k);
    forall x
      ensures x in rest <==> x in xs && x != xs[k]
    {
      if x in xs && x != xs[k] {
        var j :| 0 <= j < |xs| && xs[j] == x;
        assert rest[if j < k then j else j - 1] == x;
      }
      if x in rest {
        var j :| 0 <= j < |rest| && rest[j] == x;
        assert xs[if j < k then j else j + 1] == x;
      }
    }
  }

  lemma HasMember<T>(xs: seq<T>)
    requires xs != []
    ensures xs[0] in xs
  {
  }

  /** Some of the members count for no more than all of them, and for as much if the others count for nothing. */
  lemma {:induction false} SubSum<T>(some: seq<T>, all: seq<T>, f: T -> int)
    requires NoRepeats(some) && NoRepeats(all) && forall x :: x in some ==> x in all
    requires forall x :: x in all && x !in some ==> 0 <= f(x)
    ensures SumOver(some, f) <= SumOver(all, f)
    ensures (forall x :: x in all && x !in some ==> f(x) == 0) ==> SumOver(some, f) == SumOver(all, f)
    decreases |all|
  {
    if all == [] {
      if some != [] {
        HasMember(some);
      }
    } else {
      var n := |all| - 1;
      var last := all[n];
      WithoutIs(all, n);
      assert Without(all, n) == all[..n];
      hide NoRepeats, Without;
      if last in some {
        var k :| 0 <= k < |some| && some[k] == last;
        SumOverWithout(some, k, f);
        WithoutIs(some, k);
        SubSum(Without(some, k), all[..n], f);
      } else {
        SubSum(some, all[..n], f);
      }
    }
  }
}
