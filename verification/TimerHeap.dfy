/** The binary heap of container/heap over timer entries: its order, and what
    one swap does to it.  A heap is the sequence of entry numbers in array order. */
module TimerHeap {
  import opened ClockModel

  ghost predicate InTable(es: seq<Entry>, heap: seq<nat>) {
    forall i :: 0 <= i < |heap| ==> heap[i] < |es|
  }

  predicate AtMost(es: seq<Entry>, a: nat, b: nat)
    requires a < |es| && b < |es|
  {
    a == b || Before(es, a, b)
  }

  function Parent(i: nat): nat
    requires i > 0
  {
    (i - 1) / 2
  }

  ghost predicate HeapOrdered(es: seq<Entry>, heap: seq<nat>)
    requires InTable(es, heap)
  {
    forall i :: 0 < i < |heap| ==> AtMost(es, heap[Parent(i)], heap[i])
  }

  /** The root of a heap is its least entry. */
  lemma {:induction false} RootIsLeast(es: seq<Entry>, heap: seq<nat>, i: nat)
    requires InTable(es, heap) && HeapOrdered(es, heap) && i < |heap|
    ensures AtMost(es, heap[0], heap[i])
  {
    if i > 0 { RootIsLeast(es, heap, Parent(i)); }
  }

  function Elements(heap: seq<nat>): set<nat> {
    set x | x in heap
  }

  function Swapped(heap: seq<nat>, i: nat, j: nat): seq<nat>
    requires i < |heap| && j < |heap|
  {
    heap[i := heap[j]][j := heap[i]]
  }

  lemma SwapKeepsElements(heap: seq<nat>, i: nat, j: nat)
    requires i < |heap| && j < |heap|
    ensures Elements(Swapped(heap, i, j)) == Elements(heap)
  {
    var t := Swapped(heap, i, j);
    forall x | x in heap ensures x in t {
      var k :| 0 <= k < |heap| && heap[k] == x;
      assert t[if k == i then j else if k == j then i else k] == x;
    }
  }

  /** Ordered except that heap[j] may be less than its parent. */
  ghost predicate RisingAt(es: seq<Entry>, heap: seq<nat>, j: nat)
    requires InTable(es, heap)
  {
    && (forall i :: 0 < i < |heap| && i != j ==> AtMost(es, heap[Parent(i)], heap[i]))
    && (forall i :: 0 < i < |heap| && Parent(i) == j && j > 0 ==> AtMost(es, heap[Parent(j)], heap[i]))
  }

  lemma RiseStep(es: seq<Entry>, heap: seq<nat>, j: nat)
    requires InTable(es, heap) && 0 < j < |heap| && RisingAt(es, heap, j)
    requires Before(es, heap[j], heap[Parent(j)])
    ensures InTable(es, Swapped(heap, Parent(j), j)) && RisingAt(es, Swapped(heap, Parent(j), j), Parent(j))
  {
    var p := Parent(j);
    var t := Swapped(heap, p, j);
    assert p > 0 ==> AtMost(es, heap[Parent(p)], heap[p]);
    forall i | 0 < i < |t| && i != p ensures AtMost(es, t[Parent(i)], t[i]) {
      assert i != j ==> AtMost(es, heap[Parent(i)], heap[i]);
    }
    forall i | 0 < i < |t| && Parent(i) == p && p > 0 ensures AtMost(es, t[Parent(p)], t[i]) {
      assert i != j ==> AtMost(es, heap[Parent(i)], heap[i]);
    }
  }

  /** heap[..n] is ordered except that heap[i] may be more than its children. */
  ghost predicate SinkingAt(es: seq<Entry>, heap: seq<nat>, n: nat, i: nat)
    requires InTable(es, heap) && n <= |heap|
  {
    && (forall c :: 0 < c < n && Parent(c) != i ==> AtMost(es, heap[Parent(c)], heap[c]))
    && (forall c :: 0 < c < n && Parent(c) == i && i > 0 ==> AtMost(es, heap[Parent(i)], heap[c]))
  }

  ghost predicate LesserChild(es: seq<Entry>, heap: seq<nat>, n: nat, i: nat, c: nat)
    requires InTable(es, heap) && n <= |heap|
  {
    && 0 < c < n && Parent(c) == i
    && forall d :: 0 < d < n && Parent(d) == i ==> AtMost(es, heap[c], heap[d])
  }

  lemma ChooseLesser(es: seq<Entry>, heap: seq<nat>, n: nat, i: nat, c: nat)
    requires InTable(es, heap) && n <= |heap| && 2 * i + 1 < n
    requires c == if 2 * i + 2 < n && Before(es, heap[2 * i + 2], heap[2 * i + 1]) then 2 * i + 2 else 2 * i + 1
    ensures LesserChild(es, heap, n, i, c)
  {
    assert forall d :: 0 < d < n && Parent(d) == i ==> d == 2 * i + 1 || d == 2 * i + 2;
  }

  /** The sift stops where no child is less. */
  lemma SinkDone(es: seq<Entry>, heap: seq<nat>, n: nat, i: nat, c: nat)
    requires InTable(es, heap) && n <= |heap| && SinkingAt(es, heap, n, i) && i < |heap|
    requires 2 * i + 1 < n ==> LesserChild(es, heap, n, i, c) && !Before(es, heap[c], heap[i])
    ensures forall d :: 0 < d < n ==> AtMost(es, heap[Parent(d)], heap[d])
  {
    forall d | 0 < d < n ensures AtMost(es, heap[Parent(d)], heap[d]) {
      if Parent(d) == i { assert AtMost(es, heap[c], heap[d]); }
    }
  }

  lemma SinkStep(es: seq<Entry>, heap: seq<nat>, n: nat, i: nat, c: nat)
    requires InTable(es, heap) && n <= |heap| && SinkingAt(es, heap, n, i)
    requires LesserChild(es, heap, n, i, c) && Before(es, heap[c], heap[i])
    ensures InTable(es, Swapped(heap, i, c)) && SinkingAt(es, Swapped(heap, i, c), n, c)
  {
    var t := Swapped(heap, i, c);
    assert i > 0 ==> AtMost(es, heap[Parent(i)], heap[c]);
    forall d | 0 < d < n && Parent(d) != c ensures AtMost(es, t[Parent(d)], t[d]) {
      if Parent(d) == i { assert AtMost(es, heap[c], heap[d]); }
      else { assert AtMost(es, heap[Parent(d)], heap[d]); }
    }
    forall d | 0 < d < n && Parent(d) == c ensures AtMost(es, t[Parent(c)], t[d]) {
      assert AtMost(es, heap[Parent(d)], heap[d]);
    }
  }
}
