/** Counting the elements of a sequence that satisfy a predicate. */
module Tally {

  ghost function Count<T>(xs: seq<T>, p: T -> bool): nat {
    if xs == [] then 0 else Count(xs[..|xs| - 1], p) + One(p(xs[|xs| - 1]))
  }

  function One(b: bool): nat {
    if b then 1 else 0
  }

  lemma CountSnoc<T>(xs: seq<T>, x: T, p: T -> bool)
    ensures Count(xs + [x], p) == Count(xs, p) + One(p(x))
  {
    assert (xs + [x])[..|xs|] == xs;
  }

  lemma {:induction false} CountConcat<T>(xs: seq<T>, ys: seq<T>, p: T -> bool)
    ensures Count(xs + ys, p) == Count(xs, p) + Count(ys, p)
  {
    if ys == [] {
      assert xs + ys == xs;
    } else {
      var n := |ys| - 1;
      CountConcat(xs, ys[..n], p);
      assert xs + ys == (xs + ys[..n]) + [ys[n]];
      CountSnoc(xs + ys[..n], ys[n], p);
    }
  }

  /** Taking the first element away. */
  lemma CountHead<T>(xs: seq<T>, p: T -> bool)
    requires xs != []
    ensures Count(xs, p) == One(p(xs[0])) + Count(xs[1..], p)
  {
    assert xs == [xs[0]] + xs[1..];
    CountConcat([xs[0]], xs[1..], p);
    CountSnoc([], xs[0], p);
    assert [] + [xs[0]] == [xs[0]];
  }

  lemma {:induction false} CountUpdate<T>(xs: seq<T>, i: nat, x: T, p: T -> bool)
    requires i < |xs|
    ensures Count(xs[i := x], p) == Count(xs, p) - One(p(xs[i])) + One(p(x))
  {
    var n := |xs| - 1;
    if i < n {
      CountUpdate(xs[..n], i, x, p);
      assert xs[i := x][..n] == xs[..n][i := x];
    } else {
      assert xs[i := x][..n] == xs[..n];
    }
  }

  /** A count splits along any second predicate. */
  lemma {:induction false} CountSplit<T>(xs: seq<T>, p: T -> bool, q: T -> bool, r: T -> bool)
    requires forall x | x in xs :: One(p(x)) == One(q(x)) + One(r(x))
    ensures Count(xs, p) == Count(xs, q) + Count(xs, r)
  {
    if xs != [] {
      assert xs[|xs| - 1] in xs;
      CountSplit(xs[..|xs| - 1], p, q, r);
    }
  }
}
