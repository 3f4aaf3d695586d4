/** Two orders of the same elements. */
module Permutations {

  lemma Without<T>(front: seq<T>, x: T, back: seq<T>)
    ensures multiset(front + [x] + back) == multiset(front + back) + multiset{x}
  {
  }

  lemma Split<T>(xs: seq<T>, i: nat)
    requires i < |xs|
    ensures xs == xs[..i] + [xs[i]] + xs[i + 1..]
  {
  }

  lemma Find<T>(x: T, ys: seq<T>) returns (i: nat)
    requires x in multiset(ys)
    ensures i < |ys| && ys[i] == x
  {
    i :| 0 <= i < |ys| && ys[i] == x;
  }

  lemma SameRest<T>(a: multiset<T>, b: multiset<T>, x: T)
    requires a + multiset{x} == b + multiset{x}
    ensures a == b
  {
    assert a == a + multiset{x} - multiset{x};
    assert b == b + multiset{x} - multiset{x};
  }

  /** The last element of one order sits somewhere in the other, and the rest are again two orders of the
      same elements. */
  lemma Locate<T>(xs: seq<T>, ys: seq<T>) returns (i: nat)
    requires multiset(xs) == multiset(ys) && xs != []
    ensures i < |ys| && ys[i] == xs[|xs| - 1]
    ensures multiset(xs[..|xs| - 1]) == multiset(ys[..i] + ys[i + 1..])
  {
    var last, front := xs[|xs| - 1], xs[..|xs| - 1];
    Split(xs, |xs| - 1);
    Without(front, last, []);
    assert xs == front + [last] + [] && front + [] == front;
    i := Find(last, ys);
    Split(ys, i);
    Without(ys[..i], last, ys[i + 1..]);
    SameRest(multiset(front), multiset(ys[..i] + ys[i + 1..]), last);
  }
}
