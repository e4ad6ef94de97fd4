/** Optional values, counting maps, and sequences and sets up to order and size. */
module Collections {
  datatype Option<+T> = None | Some(value: T)

  /** Reading a counting map: a missing entry counts zero. */
  function Get<K>(m: map<K, nat>, k: K): nat {
    if k in m then m[k] else 0
  }

  predicate Distinct<T(==)>(xs: seq<T>) {
    forall i, j :: 0 <= i < j < |xs| ==> xs[i] != xs[j]
  }

  /** What `n` steps make of x. */
  ghost function Iterate<T>(step: T -> T, x: T, n: nat): T
    decreases n
  {
    if n == 0 then x else Iterate(step, step(x), n - 1)
  }

  lemma {:induction false} IterateAdd<T>(step: T -> T, x: T, a: nat, b: nat)
    ensures Iterate(step, x, a + b) == Iterate(step, Iterate(step, x, a), b)
    decreases a
  {
    if a > 0 { IterateAdd(step, step(x), a - 1, b); }
  }

  /** What every step keeps, any number of steps keep; a step that adds one adds n in n steps. */
  lemma {:induction false} IterateKeeps<T(!new)>(step: T -> T, holds: T -> bool, size: T -> int, x: T, n: nat)
    requires holds(x) && forall y :: holds(y) ==> holds(step(y)) && size(step(y)) == size(y) + 1
    ensures holds(Iterate(step, x, n)) && size(Iterate(step, x, n)) == size(x) + n
    decreases n
  {
    if n > 0 { IterateKeeps(step, holds, size, step(x), n - 1); }
  }

  /** What every step keeps except from an exit is kept, or an exit was reached. */
  lemma {:induction false} IterateUntil<T(!new)>(step: T -> T, holds: T -> bool, exit: T -> bool, x: T, n: nat)
    requires holds(x) && forall y :: holds(y) && !exit(y) ==> holds(step(y))
    ensures holds(Iterate(step, x, n))
            || exists j: nat :: j < n && holds(Iterate(step, x, j)) && exit(Iterate(step, x, j))
    decreases n
  {
    if n > 0 {
      if exit(x) {
        assert Iterate(step, x, 0) == x;
      } else {
        IterateUntil(step, holds, exit, step(x), n - 1);
        if j: nat :| j < n - 1 && holds(Iterate(step, step(x), j)) && exit(Iterate(step, step(x), j)) {
          var i := j + 1;
          assert i < n && Iterate(step, x, i) == Iterate(step, step(x), j);
        }
      }
    }
  }

  /** What goes on at each step unless something stops it has gone on if nothing has. */
  lemma {:induction false} UntilFirst(going: nat -> bool, stops: nat -> bool, n: nat)
    requires going(0) && forall i: nat :: i < n ==> (going(i + 1) <==> going(i) && !stops(i))
    ensures going(n) <==> forall i: nat :: i < n ==> !stops(i)
  {
    if n > 0 { UntilFirst(going, stops, n - 1); }
  }

  /** Increasing, and below `n`. */
  predicate Rising(at: seq<nat>, n: nat) {
    && (forall k :: 0 <= k < |at| ==> at[k] < n)
    && (forall k, l :: 0 <= k < l < |at| ==> at[k] < at[l])
  }

  lemma RisingGrows(at: seq<nat>, n: nat)
    requires Rising(at, n)
    ensures Rising(at, n + 1) && Rising(at + [n], n + 1)
    ensures forall i :: i in at + [n] <==> i in at || i == n
  {}

  lemma FrontAndLast<T>(s: seq<T>)
    requires s != []
    ensures s == s[..|s| - 1] + [s[|s| - 1]]
  {}

  lemma {:induction false} SubsetSize<T>(a: set<T>, b: set<T>)
    requires a <= b
    ensures |a| <= |b|
  {
    if a != {} {
      var x :| x in a;
      SubsetSize(a - {x}, b - {x});
    }
  }

  lemma Cancel<T>(a: multiset<T>, b: multiset<T>, x: T)
    requires a + multiset{x} == b + multiset{x}
    ensures a == b
  {
    assert a == a + multiset{x} - multiset{x};
    assert b == b + multiset{x} - multiset{x};
  }

  /** Where the last element of one stands in the other, and that the rest still match. */
  lemma TakeOut<T>(a: seq<T>, b: seq<T>) returns (front: seq<T>, back: seq<T>)
    requires a != [] && multiset(a) == multiset(b)
    ensures b == front + [a[|a| - 1]] + back && multiset(a[..|a| - 1]) == multiset(front + back)
  {
    var x := a[|a| - 1];
    assert a == a[..|a| - 1] + [x];
    assert x in multiset(b);
    var k :| 0 <= k < |b| && b[k] == x;
    front, back := b[..k], b[k + 1..];
    assert b == front + [x] + back;
    Cancel(multiset(a[..|a| - 1]), multiset(front + back), x);
  }

  lemma NothingLeft<T>(b: seq<T>)
    requires multiset(b) == multiset{}
    ensures b == []
  {
    assert |multiset(b)| == |b|;
  }
}
