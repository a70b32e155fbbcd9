/** All elements of several sequences together, counted. */
module Bags {
  function Bag<T>(xss: seq<seq<T>>): multiset<T> {
    if xss == [] then multiset{} else multiset(xss[0]) + Bag(xss[1..])
  }

  /** Replacing one sequence takes its elements out and puts the new ones in. */
  lemma {:induction false} BagReplace<T>(xss: seq<seq<T>>, t: nat, xs: seq<T>)
    requires t < |xss|
    ensures Bag(xss[t := xs]) == Bag(xss) - multiset(xss[t]) + multiset(xs)
    ensures multiset(xss[t]) <= Bag(xss)
  {
    if t > 0 {
      BagReplace(xss[1..], t - 1, xs);
      assert xss[t := xs][1..] == xss[1..][t - 1 := xs];
    } else {
      assert xss[0 := xs][1..] == xss[1..];
    }
  }

  lemma {:induction false} BagAppend<T>(xss: seq<seq<T>>, xs: seq<T>)
    ensures Bag(xss + [xs]) == Bag(xss) + multiset(xs)
  {
    if xss == [] {
      assert [] + [xs] == [xs] && [xs][1..] == [];
    } else {
      BagAppend(xss[1..], xs);
      assert (xss + [xs])[1..] == xss[1..] + [xs];
    }
  }

  lemma {:induction false} InBag<T>(xss: seq<seq<T>>, x: T)
    ensures x in Bag(xss) <==> exists t :: 0 <= t < |xss| && x in xss[t]
  {
    if xss != [] {
      InBag(xss[1..], x);
      if t :| 0 <= t < |xss[1..]| && x in xss[1..][t] { assert x in xss[t + 1]; }
      if t :| 0 <= t < |xss| && x in xss[t] { if t > 0 { assert x in xss[1..][t - 1]; } }
    }
  }

  lemma FirstIn<T>(xs: seq<T>)
    ensures xs == [] || xs[0] in xs
  {
  }
}
