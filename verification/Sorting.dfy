/** Sorting by a pair of integer keys, as the graph orders its nodes, edges and columns. */
module Sorting {
  predicate Precedes(a: (int, int), b: (int, int)) {
    a.0 < b.0 || (a.0 == b.0 && a.1 <= b.1)
  }

  predicate Ordered<T>(xs: seq<T>, key: T -> (int, int)) {
    forall i, j :: 0 <= i < j < |xs| ==> Precedes(key(xs[i]), key(xs[j]))
  }

  function Insert<T>(xs: seq<T>, x: T, key: T -> (int, int)): seq<T> {
    if xs == [] || Precedes(key(xs[|xs| - 1]), key(x)) then xs + [x]
    else Insert(xs[..|xs| - 1], x, key) + [xs[|xs| - 1]]
  }

  lemma {:induction false} InsertAdds<T>(xs: seq<T>, x: T, key: T -> (int, int))
    ensures multiset(Insert(xs, x, key)) == multiset(xs) + multiset{x}
  {
    if !(xs == [] || Precedes(key(xs[|xs| - 1]), key(x))) {
      var k := |xs| - 1;
      InsertAdds(xs[..k], x, key);
      assert xs == xs[..k] + [xs[k]];
    }
  }

  lemma {:induction false} InsertOrders<T>(xs: seq<T>, x: T, key: T -> (int, int))
    requires Ordered(xs, key)
    ensures Ordered(Insert(xs, x, key), key)
  {
    if !(xs == [] || Precedes(key(xs[|xs| - 1]), key(x))) {
      var k := |xs| - 1;
      var front := Insert(xs[..k], x, key);
      InsertOrders(xs[..k], x, key);
      forall i | 0 <= i < |front| ensures Precedes(key(front[i]), key(xs[k])) {
        InsertHolds(xs[..k], x, key, front[i]);
      }
      OrderedAppend(front, xs[k], key);
    }
  }

  lemma InsertHolds<T>(xs: seq<T>, x: T, key: T -> (int, int), y: T)
    requires y in Insert(xs, x, key)
    ensures y == x || y in xs
  {
    InsertAdds(xs, x, key);
    assert y in multiset(Insert(xs, x, key));
  }

  lemma OrderedAppend<T>(xs: seq<T>, x: T, key: T -> (int, int))
    requires Ordered(xs, key) && forall i :: 0 <= i < |xs| ==> Precedes(key(xs[i]), key(x))
    ensures Ordered(xs + [x], key)
  {
  }

  method Sort<T>(xs: seq<T>, key: T -> (int, int)) returns (ys: seq<T>)
    ensures Ordered(ys, key) && multiset(ys) == multiset(xs)
  {
    ys := [];
    for i := 0 to |xs|
      invariant Ordered(ys, key) && multiset(ys) == multiset(xs[..i])
    {
      InsertOrders(ys, xs[i], key);
      InsertAdds(ys, xs[i], key);
      assert xs[..i + 1] == xs[..i] + [xs[i]];
      ys := Insert(ys, xs[i], key);
    }
    assert xs[..|xs|] == xs;
  }

  lemma SameMembers<T>(xs: seq<T>, ys: seq<T>)
    requires multiset(xs) == multiset(ys)
    ensures |xs| == |ys| && forall x :: x in xs <==> x in ys
  {
    assert |multiset(xs)| == |xs| && |multiset(ys)| == |ys|;
    assert forall x :: x in xs <==> x in multiset(xs);
    assert forall x :: x in ys <==> x in multiset(ys);
  }
}
