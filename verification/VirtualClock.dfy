/** The virtual clock as the program has it: a table of entries, a binary heap
    of entry numbers with each entry's own heap index, and methods that update
    them in place.  Every method is tied to the value model of ClockModel. */
module Clock {
  import opened Collections
  import opened ClockModel
  import opened TimerHeap

  class VirtualClock {
    var now: int
    var heap: seq<nat>
    var index: seq<int>           // the index field of each entry; -1 once popped
    var entries: seq<Entry>
    var nextSeq: nat
    var timers: seq<nat>
    var tickers: seq<Ticker>
    var bufs: seq<Option<int>>
    var script: seq<seq<Op>>      // what the callbacks still to run will do
    var blocked: bool
    ghost var received: map<nat, nat>
    ghost var log: seq<Firing>
    ghost var late: set<nat>
    ghost var rewound: bool

    ghost function View(): State
      reads this
    {
      State(now, entries, Elements(heap), timers, tickers, bufs, received, script, log, late, blocked, rewound)
    }

    /** entry.index is the entry's position in the heap. */
    ghost predicate Indexed()
      reads this
    {
      && |index| == |entries| == nextSeq
      && InTable(entries, heap)
      && (forall i :: 0 <= i < |heap| ==> index[heap[i]] == i)
    }

    ghost predicate Valid()
      reads this
    {
      Shape(View()) && Indexed() && HeapOrdered(entries, heap)
    }

    constructor (start: int, script: seq<seq<Op>>)
      ensures Valid() && View() == Init(start, script)
    {
      now, heap, index, entries, nextSeq := start, [], [], [], 0;
      timers, tickers, bufs, received, blocked := [], [], [], map[], false;
      this.script, log, late, rewound := script, [], {}, false;
    }

    // ---------- container/heap ----------

    method Swap(i: nat, j: nat)
      requires Indexed() && i < |heap| && j < |heap|
      modifies `heap, `index
      ensures Indexed() && heap == Swapped(old(heap), i, j)
      ensures Elements(heap) == old(Elements(heap))
    {
      SwapKeepsElements(heap, i, j);
      heap := heap[i := heap[j]][j := heap[i]];
      index := index[heap[i] := i][heap[j] := j];
    }

    method Up(last: nat)
      requires Indexed() && last < |heap| && RisingAt(entries, heap, last)
      modifies `heap, `index
      ensures Indexed() && HeapOrdered(entries, heap)
      ensures |heap| == old(|heap|) && Elements(heap) == old(Elements(heap))
    {
      var j: nat := last;
      while j > 0 && Before(entries, heap[j], heap[(j - 1) / 2])
        invariant Indexed() && j <= last && |heap| == old(|heap|) && RisingAt(entries, heap, j)
        invariant Elements(heap) == old(Elements(heap))
      {
        RiseStep(entries, heap, j);
        Swap((j - 1) / 2, j);
        j := (j - 1) / 2;
      }
    }

    /** One turn of the loop of down: swap with the lesser child, or stop. */
    method SinkOnce(n: nat, i: nat) returns (c: nat, done: bool)
      requires Indexed() && n <= |heap| && 2 * i + 1 < n && SinkingAt(entries, heap, n, i)
      modifies `heap, `index
      ensures Indexed() && |heap| == old(|heap|) && heap[n..] == old(heap[n..])
      ensures Elements(heap) == old(Elements(heap)) && i < c < n
      ensures !done ==> SinkingAt(entries, heap, n, c)
      ensures done ==> forall d :: 0 < d < n ==> AtMost(entries, heap[Parent(d)], heap[d])
    {
      c := 2 * i + 1;
      if c + 1 < n && Before(entries, heap[c + 1], heap[c]) { c := c + 1; }
      ChooseLesser(entries, heap, n, i, c);
      done := !Before(entries, heap[c], heap[i]);
      if done {
        SinkDone(entries, heap, n, i, c);
      } else {
        SinkStep(entries, heap, n, i, c);
        Swap(i, c);
      }
    }

    method Down(n: nat)
      requires Indexed() && n <= |heap| && SinkingAt(entries, heap, n, 0)
      modifies `heap, `index
      ensures Indexed() && |heap| == old(|heap|) && heap[n..] == old(heap[n..])
      ensures Elements(heap) == old(Elements(heap))
      ensures forall c :: 0 < c < n ==> AtMost(entries, heap[Parent(c)], heap[c])
    {
      var i: nat, done := 0, false;
      while 2 * i + 1 < n && !done
        invariant Indexed() && |heap| == old(|heap|) && heap[n..] == old(heap[n..])
        invariant Elements(heap) == old(Elements(heap))
        invariant !done ==> SinkingAt(entries, heap, n, i)
        invariant done ==> forall d :: 0 < d < n ==> AtMost(entries, heap[Parent(d)], heap[d])
        decreases n - i
      {
        i, done := SinkOnce(n, i);
      }
      if !done && i < |heap| { SinkDone(entries, heap, n, i, 0); }
    }

    /** heap.Push of a new entry. */
    method Push(deadline: int, kind: Kind) returns (id: nat)
      requires Indexed() && HeapOrdered(entries, heap)
      modifies `heap, `index, `entries, `nextSeq, `late
      ensures Indexed() && HeapOrdered(entries, heap)
      ensures late == if Behind(log, deadline) then old(late) + {id} else old(late)
      ensures id == old(|entries|) && entries == old(entries) + [Entry(deadline, kind, false, false)]
      ensures Elements(heap) == old(Elements(heap)) + {id}
    {
      id := nextSeq;
      if Behind(log, deadline) { late := late + {id}; }
      entries := entries + [Entry(deadline, kind, false, false)];
      nextSeq := nextSeq + 1;
      index := index + [|heap|];
      heap := heap + [id];
      Up(|heap| - 1);
    }

    /** heap.Pop: the root to the end, the rest sifted, the end cut off. */
    method PopRoot() returns (id: nat)
      requires Indexed() && HeapOrdered(entries, heap) && |heap| > 0
      modifies `heap, `index
      ensures Indexed() && HeapOrdered(entries, heap)
      ensures id == old(heap[0]) && index[id] == -1 && Elements(heap) == old(Elements(heap)) - {id}
      ensures forall p :: p in old(Elements(heap)) && p != id ==> p < |entries| && Before(entries, id, p)
    {
      var n := |heap| - 1;
      forall p | p in heap ensures AtMost(entries, heap[0], p) {
        var i :| 0 <= i < |heap| && heap[i] == p;
        RootIsLeast(entries, heap, i);
      }
      Swap(0, n);
      Down(n);
      id := heap[n];
      index := index[id := -1];
      heap := heap[..n];
    }

    // ---------- the clock ----------

    method AfterFunc(d: int) returns (h: nat)
      requires Valid()
      modifies this
      ensures Valid() && View() == Apply(old(View()), ClockModel.AfterFunc(d)) && h == old(|timers|)
    {
      h := |timers|;
      var id := Push(now + d, Func(h));
      timers := timers + [id];
      assert View() == ArmFunc(old(View()), d);
      ArmShape(old(View()), d);
    }

    method NewTimer(d: int) returns (h: nat)
      requires Valid()
      modifies this
      ensures Valid() && View() == Apply(old(View()), ClockModel.NewTimer(d)) && h == old(|timers|)
    {
      h := |timers|;
      PushTimer(d);
      ArmShape(old(View()), d);
    }

    method PushTimer(d: int)
      requires Indexed() && HeapOrdered(entries, heap)
      modifies this
      ensures Indexed() && HeapOrdered(entries, heap) && View() == ArmChan(old(View()), d)
    {
      var id := Push(now + d, Chan(|timers|, |bufs|));
      timers := timers + [id];
      bufs := bufs + [None];
    }

    method NewTicker(d: int) returns (k: nat)
      requires Valid()
      modifies this
      ensures Valid() && View() == Apply(old(View()), ClockModel.NewTicker(d)) && k == old(|tickers|)
    {
      k := |tickers|;
      PushTicker(d);
      ArmShape(old(View()), d);
    }

    method PushTicker(d: int)
      requires Indexed() && HeapOrdered(entries, heap)
      modifies this
      ensures Indexed() && HeapOrdered(entries, heap) && View() == ArmTicker(old(View()), d)
    {
      var id := Push(now + d, Tick(|tickers|));
      tickers := tickers + [Ticker(|bufs|, d, id, false, now)];
      bufs := bufs + [None];
    }

    method Stop(h: nat) returns (wasActive: bool)
      requires Valid() && h < |timers|
      modifies this
      ensures Valid() && View() == Apply(old(View()), StopTimer(h)) && wasActive == Active(old(View()), h)
    {
      var id := timers[h];
      if entries[id].stopped || entries[id].fired { return false; }
      SetStopped(id);
      wasActive := true;
    }

    method SetStopped(id: nat)
      requires Valid() && id < |entries|
      modifies `entries
      ensures Valid() && View() == MarkStopped(old(View()), id)
    {
      entries := entries[id := entries[id].(stopped := true)];
    }

    method Reset(h: nat, d: int) returns (wasActive: bool)
      requires Valid() && h < |timers|
      modifies this
      ensures Valid() && View() == Apply(old(View()), ResetTimer(h, d)) && wasActive == Active(old(View()), h)
    {
      var id := timers[h];
      wasActive := !entries[id].stopped && !entries[id].fired;
      SetStopped(id);
      PushAgain(h, id, d);
      assert View() == Rearm(old(View()), h, d);
      RearmShape(old(View()), h, d);
    }

    method PushAgain(h: nat, id: nat, d: int)
      requires Indexed() && HeapOrdered(entries, heap) && h < |timers| && id < |entries|
      modifies this
      ensures Indexed() && HeapOrdered(entries, heap)
      ensures View() == old(ClockModel.Push(View().(timers := timers[h := |entries|]), now + d, entries[id].kind))
    {
      var newId := Push(now + d, entries[id].kind);
      timers := timers[h := newId];
    }

    method TickerStop(k: nat)
      requires Valid() && k < |tickers|
      modifies this
      ensures Valid() && View() == Apply(old(View()), StopTicker(k))
    {
      SetStopped(tickers[k].entry);
      tickers := tickers[k := tickers[k].(stopped := true)];
    }

    /** virtualTicker.fire. */
    method TickerFires(k: nat)
      requires Valid() && k < |tickers|
      modifies this
      ensures Valid() && View() == TickerFire(old(View()), k)
    {
      TickShape(old(View()), k);
      var t := tickers[k];
      if t.stopped { return; }
      if bufs[t.ch].None? { bufs := bufs[t.ch := Some(now)]; }
      PushTick(k);
      assert View() == TickerFire(old(View()), k);
    }

    method PushTick(k: nat)
      requires Indexed() && HeapOrdered(entries, heap) && k < |tickers|
      modifies this
      ensures Indexed() && HeapOrdered(entries, heap)
      ensures View() == old(ClockModel.Push(View().(tickers := tickers[k := tickers[k].(entry := |entries|)]),
                                            now + tickers[k].interval, Tick(k)))
    {
      var id := Push(now + tickers[k].interval, Tick(k));
      tickers := tickers[k := tickers[k].(entry := id)];
    }

    /** Takes the root of the heap off, moves the clock to it and marks it fired unless stopped. */
    method TakeRoot() returns (id: nat)
      requires Valid() && |heap| > 0
      modifies this
      ensures id == old(heap[0]) && IsEarliest(old(View()), id)
      ensures Valid() && View() == Fire(old(View()), id)
    {
      id := PopRoot();
      now := entries[id].deadline;
      if !entries[id].stopped {
        log := log + [Firing(id, entries[id].kind, entries[id].deadline, now)];
        entries := entries[id := entries[id].(fired := true)];
      }
      assert View() == Fire(old(View()), id);
      FireShape(old(View()), id);
    }

    /** advanceTo, on one due entry, up to the user's callback. */
    method FireRoot() returns (id: nat)
      requires Valid() && |heap| > 0 && !blocked
      modifies this
      ensures id == old(heap[0]) && IsEarliest(old(View()), id)
      ensures Valid() && View() == Turn(old(View()), id)
    {
      id := TakeRoot();
      var e := entries[id];
      if e.stopped { return; }
      if e.kind.Tick? {
        TickerFires(e.kind.ticker);
      } else if e.kind.Chan? {
        SendOn(e.kind.ch, e.deadline);
      }
    }

    /** A send on a channel of capacity one. */
    method SendOn(c: nat, time: int)
      requires Valid() && c < |bufs|
      modifies `bufs, `blocked
      ensures Valid()
      ensures View() == if old(bufs[c]).Some? then old(View()).(blocked := true)
                        else old(View()).(bufs := old(bufs)[c := Some(time)])
    {
      if bufs[c].Some? { blocked := true; } else { bufs := bufs[c := Some(time)]; }
    }

    /** One turn of the loop of advanceTo, callback and all. */
    method FireNext(target: int)
      requires Valid() && Paced(View()) && !blocked && |heap| > 0 && entries[heap[0]].deadline <= target
      modifies this
      ensures Valid() && Paced(View()) && AdvanceLoop(View(), target) == AdvanceLoop(old(View()), target)
      ensures |script| < old(|script|) ||
              (|script| == old(|script|) && TurnsLeft(View(), target) < old(TurnsLeft(View(), target)))
      decreases |script|, 1
    {
      var callsBack := !entries[heap[0]].stopped && entries[heap[0]].kind.Func? && script != [];
      var id := FireRoot();
      UnfoldTurn(old(View()), target, id);
      if callsBack { RunCallback(); }
    }

    method RunCallback()
      requires Valid() && Paced(View()) && script != []
      modifies this
      ensures Valid() && |script| < old(|script|)
      ensures Wf(old(View()).(script := old(script)[1..])) && OpsWf(old(script)[0])
      ensures View() == RunOps(old(View()).(script := old(script)[1..]), old(script)[0])
      decreases |script|, 0
    {
      var ops := script[0];
      script := script[1..];
      RunProgram(ops);
    }

    /** advanceTo; with a running ticker that has no positive interval it need not end. */
    method AdvanceTo(target: int)
      requires Valid() && Paced(View())
      modifies this
      ensures Valid() && View() == AdvanceLoop(old(View()), target)
      decreases |script|, 2
    {
      while !blocked && |heap| > 0 && entries[heap[0]].deadline <= target
        invariant Valid() && Paced(View()) && |script| <= old(|script|)
        invariant AdvanceLoop(View(), target) == AdvanceLoop(old(View()), target)
        decreases |script|, TurnsLeft(View(), target)
      {
        FireNext(target);
      }
      if !blocked {
        if |heap| > 0 { RootIsEarliest(); }
        rewound := rewound || target < now;
        now := target;
      }
    }

    /** Advance by a duration. */
    method Advance(d: int)
      requires Valid() && Paced(View())
      modifies this
      ensures Valid() && View() == AdvanceLoop(old(View()), old(now) + d)
      decreases |script|, 3
    {
      var target := now + d;
      AdvanceTo(target);
    }

    lemma RootIsEarliest()
      requires Valid() && |heap| > 0
      ensures heap[0] in View().pending && Earliest(View()) == heap[0]
    {
      forall p | p in heap && p != heap[0] ensures Before(entries, heap[0], p) {
        var i :| 0 <= i < |heap| && heap[i] == p;
        RootIsLeast(entries, heap, i);
      }
      OneEarliest(View(), heap[0]);
    }

    /** What a callback does: its operations, in order. */
    method RunProgram(ops: seq<Op>)
      requires Valid() && Paced(View()) && OpsWf(ops)
      modifies this
      ensures Valid() && View() == RunOps(old(View()), ops)
      decreases |script|, 5
    {
      var i := 0;
      while i < |ops| && !blocked
        invariant 0 <= i <= |ops| && Valid() && Paced(View()) && |script| <= old(|script|)
        invariant RunOps(View(), ops[i..]) == RunOps(old(View()), ops)
      {
        assert ops[i..][0] == ops[i] && ops[i..][1..] == ops[i + 1..];
        RunOp(ops[i]);
        i := i + 1;
      }
    }

    method RunOp(op: Op)
      requires Valid() && Paced(View()) && OpWf(op)
      modifies this
      ensures Valid() && View() == Exec(old(View()), op)
      decreases |script|, 4
    {
      if op.Advance? {
        Advance(op.d);
      } else if op.AdvanceTo? {
        AdvanceTo(op.target);
      } else {
        RunCall(op);
      }
    }

    /** An operation that does not move time. */
    method RunCall(op: Op)
      requires Valid() && !op.Advance? && !op.AdvanceTo?
      modifies this
      ensures Valid() && View() == Apply(old(View()), op)
    {
      match op
      case AfterFunc(d) => var _ := AfterFunc(d);
      case NewTimer(d) => var _ := NewTimer(d);
      case NewTicker(d) => var _ := NewTicker(d);
      case StopTimer(h) => if h < |timers| { var _ := Stop(h); }
      case ResetTimer(h, d) => if h < |timers| { var _ := Reset(h, d); }
      case StopTicker(k) => if k < |tickers| { TickerStop(k); }
      case Receive(c) => if c < |bufs| { bufs, received := bufs[c := None], received[c := |log|]; }
    }
  }

  lemma OneEarliest(s: State, id: nat)
    requires Shape(s) && IsEarliest(s, id)
    ensures Earliest(s) == id
  {}

  lemma UnfoldTurn(s: State, target: int, id: nat)
    requires Wf(s) && !s.blocked && IsEarliest(s, id) && s.entries[id].deadline <= target
    ensures var t := Turn(s, id);
            && Wf(t) && t.script == s.script && TurnsLeft(t, target) < TurnsLeft(s, target)
            && AdvanceLoop(s, target) ==
               (if CallsBack(s, id) then AdvanceLoop(RunOps(t.(script := t.script[1..]), t.script[0]), target)
                else AdvanceLoop(t, target))
  {
    OneEarliest(s, id);
    TurnDecreases(s, target, id);
  }
}
