/** Lists that pick out of another list: exactly the members that are wanted, each once and in their order. */
module Filters {
  predicate Increasing(ks: seq<nat>) {
    forall i, j :: 0 <= i < j < |ks| ==> ks[i] < ks[j]
  }

  /** These are the members at these positions. */
  predicate MembersAt<T(==)>(xs: seq<T>, ks: seq<nat>, ys: seq<T>) {
    && |ks| == |ys| && Increasing(ks)
    && forall i :: 0 <= i < |ks| ==> ks[i] < |xs| && ys[i] == xs[ks[i]]
  }

  ghost predicate PicksAt<T>(xs: seq<T>, ks: seq<nat>, ys: seq<T>, wanted: T -> bool) {
    MembersAt(xs, ks, ys) && forall k :: 0 <= k < |xs| ==> (k in ks <==> wanted(xs[k]))
  }

  ghost predicate Picks<T>(xs: seq<T>, ys: seq<T>, wanted: T -> bool) {
    exists ks :: PicksAt(xs, ks, ys, wanted)
  }

  lemma PicksNone<T>(wanted: T -> bool)
    ensures Picks([], [], wanted)
  {
    assert PicksAt([], [], [], wanted);
  }

  lemma PickOneMore<T>(xs: seq<T>, ks: seq<nat>, ys: seq<T>, x: T, wanted: T -> bool)
    requires PicksAt(xs, ks, ys, wanted) && wanted(x)
    ensures PicksAt(xs + [x], ks + [|xs|], ys + [x], wanted)
  {
    forall k | 0 <= k < |xs|
      ensures k in ks + [|xs|] <==> wanted(xs[k])
    {
      assert k in ks <==> wanted(xs[k]);
    }
  }

  lemma PickNoMore<T>(xs: seq<T>, ks: seq<nat>, ys: seq<T>, x: T, wanted: T -> bool)
    requires PicksAt(xs, ks, ys, wanted) && !wanted(x)
    ensures PicksAt(xs + [x], ks, ys, wanted)
  {
    assert |xs| !in ks;
    forall k | 0 <= k < |xs|
      ensures k in ks <==> wanted(xs[k])
    {
    }
  }

  lemma PicksSnoc<T>(xs: seq<T>, ys: seq<T>, x: T, wanted: T -> bool)
    requires Picks(xs, ys, wanted)
    ensures Picks(xs + [x], if wanted(x) then ys + [x] else ys, wanted)
  {
    var ks: seq<nat> :| PicksAt(xs, ks, ys, wanted);
    if wanted(x) {
      PickOneMore(xs, ks, ys, x, wanted);
    } else {
      PickNoMore(xs, ks, ys, x, wanted);
    }
    hide PicksAt;
  }

  /** What is picked are exactly the wanted members. */
  lemma PickedAre<T>(xs: seq<T>, ys: seq<T>, wanted: T -> bool)
    requires Picks(xs, ys, wanted)
    ensures forall y :: y in ys <==> y in xs && wanted(y)
    ensures |ys| <= |xs|
  {
    var ks: seq<nat> :| PicksAt(xs, ks, ys, wanted);
    forall y | y in xs && wanted(y)
      ensures y in ys
    {
      var k :| 0 <= k < |xs| && xs[k] == y;
      assert k in ks;
    }
    forall y | y in ys
      ensures y in xs && wanted(y)
    {
      var i :| 0 <= i < |ys| && ys[i] == y;
      assert ks[i] in ks;
    }
    AtMostAll(ks, |xs|);
  }

  lemma {:induction false} AtMostAll(ks: seq<nat>, n: nat)
    requires Increasing(ks) && forall i :: 0 <= i < |ks| ==> ks[i] < n
    ensures |ks| <= n
    decreases |ks|
  {
    if ks != [] {
      AtMostAll(ks[..|ks| - 1], ks[|ks| - 1]);
    }
  }
}
