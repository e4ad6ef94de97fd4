/** The promises of the virtual clock, for every run: nothing due left behind, stopped
    means never, every due arming fires once, and one live entry after Reset. */
module ClockTheorems {
  import opened ClockModel
  import opened ClockRuns

  // ---------- order ----------

  lemma TurnKeepsOrdered(s: State, id: nat)
    requires Wf(s) && Ordered(s) && IsEarliest(s, id)
    ensures Ordered(Turn(s, id)) && Turn(s, id).rewound == s.rewound
  {
    FireKeepsOrdered(s, id);
    FireShape(s, id);
    if s.entries[id].kind.Tick? && !s.entries[id].stopped { TickKeepsOrdered(Fire(s, id), s.entries[id].kind.ticker); }
  }

  lemma TurnRewound(s: State, id: nat)
    requires Wf(s) && id in s.pending
    ensures Turn(s, id).rewound == s.rewound
  {}

  lemma {:induction false} AdvanceKeepsTime(s: State, target: int)
    requires Wf(s) && TimeInv(s)
    ensures TimeInv(AdvanceLoop(s, target))
    decreases |s.script|, 0, TurnsLeft(s, target)
  {
    if !s.blocked && Due(s, target) {
      var id := Earliest(s);
      TurnDecreases(s, target, id);
      TurnRewound(s, id);
      if !s.rewound { TurnKeepsOrdered(s, id); }
      var t := Turn(s, id);
      if CallsBack(s, id) {
        var called := t.(script := t.script[1..]);
        RunKeepsTime(called, t.script[0]);
        AdvanceKeepsTime(RunOps(called, t.script[0]), target);
      } else {
        AdvanceKeepsTime(t, target);
      }
    }
  }

  lemma {:induction false} RunKeepsTime(s: State, ops: seq<Op>)
    requires Wf(s) && TimeInv(s) && OpsOk(ops)
    ensures TimeInv(RunOps(s, ops))
    decreases |s.script|, 1, |ops|
  {
    if ops != [] && !s.blocked {
      match ops[0] {
        case Advance(d) => AdvanceKeepsTime(s, s.now + d);
        case AdvanceTo(t) => AdvanceKeepsTime(s, t);
        case _ => if !s.rewound { ApplyKeepsOrdered(s, ops[0]); }
      }
      RunKeepsTime(Exec(s, ops[0]), ops[1..]);
    }
  }

  /** When an advance returns, nothing due by its target is left and the clock reads the target. */
  lemma {:induction false} AdvanceLeavesNothingDue(s: State, target: int)
    requires Wf(s)
    ensures var r := AdvanceLoop(s, target);
            !r.blocked ==> r.now == target && forall p :: p in r.pending ==> r.entries[p].deadline > target
    decreases |s.script|, 0, TurnsLeft(s, target)
  {
    if s.blocked {
    } else if Due(s, target) {
      var id := Earliest(s);
      TurnDecreases(s, target, id);
      var t := Turn(s, id);
      if CallsBack(s, id) {
        AdvanceLeavesNothingDue(RunOps(t.(script := t.script[1..]), t.script[0]), target);
      } else {
        AdvanceLeavesNothingDue(t, target);
      }
    } else if s.pending != {} {
      assert IsEarliest(s, Earliest(s));
    }
  }

  predicate MovesTime(op: Op) {
    op.Advance? || op.AdvanceTo?
  }

  // ---------- Stop and Reset ----------

  /** What later steps may do to what is already there. */
  ghost predicate Later(a: State, b: State) {
    && |a.entries| <= |b.entries| && |a.timers| <= |b.timers| && |a.tickers| <= |b.tickers|
    && (forall i :: 0 <= i < |a.entries| ==> EntryLater(a.entries[i], b.entries[i]))
    && (forall k :: 0 <= k < |a.tickers| ==> TickerLater(a.tickers[k], b.tickers[k]))
    && |a.log| <= |b.log| && a.log == b.log[..|a.log|]
  }

  predicate EntryLater(a: Entry, b: Entry) {
    && a.deadline == b.deadline && a.kind == b.kind
    && (a.stopped ==> b.stopped && b.fired == a.fired)
    && (a.fired ==> b.fired)
  }

  predicate TickerLater(a: Ticker, b: Ticker) {
    a.ch == b.ch && a.interval == b.interval && a.born == b.born && (a.stopped ==> b.stopped)
  }

  lemma LaterTrans(a: State, b: State, c: State)
    requires Later(a, b) && Later(b, c)
    ensures Later(a, c)
  {
    forall i | 0 <= i < |a.entries| ensures EntryLater(a.entries[i], c.entries[i]) {
      assert EntryLater(a.entries[i], b.entries[i]) && EntryLater(b.entries[i], c.entries[i]);
    }
    forall k | 0 <= k < |a.tickers| ensures TickerLater(a.tickers[k], c.tickers[k]) {
      assert TickerLater(a.tickers[k], b.tickers[k]) && TickerLater(b.tickers[k], c.tickers[k]);
    }
    assert a.log == c.log[..|b.log|][..|a.log|];
  }

  lemma ApplyLater(s: State, op: Op)
    requires Wf(s) && OpWf(op) && !MovesTime(op)
    ensures Later(s, Apply(s, op))
  {
    ApplyGrown(s, op);
  }

  lemma TurnLater(s: State, id: nat)
    requires Wf(s) && id in s.pending
    ensures Later(s, Turn(s, id))
  {
    FireLater(s, id);
    FireShape(s, id);
    if !s.entries[id].stopped && s.entries[id].kind.Tick? {
      var f, k := Fire(s, id), s.entries[id].kind.ticker;
      TickLater(f, k);
      LaterTrans(s, f, TickerFire(f, k));
    }
  }

  lemma FireLater(s: State, id: nat)
    requires Wf(s) && id in s.pending
    ensures Later(s, Fire(s, id))
  {}

  lemma TickLater(s: State, k: nat)
    requires Wf(s) && k < |s.tickers|
    ensures Later(s, TickerFire(s, k))
  {}

  lemma {:induction false} AdvanceLater(s: State, target: int)
    requires Wf(s)
    ensures Later(s, AdvanceLoop(s, target))
    decreases |s.script|, 0, TurnsLeft(s, target)
  {
    if !s.blocked && Due(s, target) {
      var id := Earliest(s);
      TurnDecreases(s, target, id);
      TurnLater(s, id);
      var t := Turn(s, id);
      if CallsBack(s, id) {
        var called := t.(script := t.script[1..]);
        var back := RunOps(called, t.script[0]);
        RunLater(called, t.script[0]);
        AdvanceLater(back, target);
        LaterTrans(s, called, back);
        LaterTrans(s, back, AdvanceLoop(back, target));
      } else {
        AdvanceLater(t, target);
        LaterTrans(s, t, AdvanceLoop(t, target));
      }
    }
  }

  lemma {:induction false} RunLater(s: State, ops: seq<Op>)
    requires Wf(s) && OpsWf(ops)
    ensures Later(s, RunOps(s, ops))
    decreases |s.script|, 1, |ops|
  {
    if ops != [] && !s.blocked {
      var next := Exec(s, ops[0]);
      match ops[0] {
        case Advance(d) => AdvanceLater(s, s.now + d);
        case AdvanceTo(t) => AdvanceLater(s, t);
        case _ => ApplyLater(s, ops[0]);
      }
      RunLater(next, ops[1..]);
      LaterTrans(s, next, RunOps(next, ops[1..]));
    }
  }

  /** If Stop answers true, that arming never fires, whatever happens later; and it has not fired before. */
  lemma StopMeansNever(s: State, h: nat, ops: seq<Op>)
    requires Inv(s) && h < |s.timers| && Active(s, h) && OpsWf(ops)
    ensures !InLog(RunOps(Apply(s, StopTimer(h)), ops).log, s.timers[h])
  {
    var id, stopped := s.timers[h], Apply(s, StopTimer(h));
    ApplyKeepsInv(s, StopTimer(h));
    var r := RunOps(stopped, ops);
    RunLater(stopped, ops);
    RunKeepsInv(stopped, ops);
    assert EntryLater(stopped.entries[id], r.entries[id]);
    forall i | 0 <= i < |r.log| ensures r.log[i].id != id {
      assert LogMatches(r, r.log[i]);
    }
  }

  /** Every arming due by the target of a completed advance has fired, exactly once, or been stopped. */
  lemma DueFiresOnce(s: State, target: int, id: nat)
    requires Inv(s) && id < |s.entries| && s.entries[id].deadline <= target
    ensures var r := AdvanceLoop(s, target);
            && Later(s, r)
            && (!r.blocked && !r.entries[id].stopped ==>
                  exists i :: 0 <= i < |r.log| && r.log[i].id == id && r.log[i].seen == s.entries[id].deadline
                    && forall j :: 0 <= j < |r.log| && r.log[j].id == id ==> j == i)
  {
    var r := AdvanceLoop(s, target);
    AdvanceKeepsInv(s, target);
    AdvanceLater(s, target);
    AdvanceLeavesNothingDue(s, target);
    assert EntryLater(s.entries[id], r.entries[id]);
    if !r.blocked && !r.entries[id].stopped {
      assert id !in r.pending && InLog(r.log, id);
      var i :| 0 <= i < |r.log| && r.log[i].id == id;
      assert LogMatches(r, r.log[i]);
    }
  }

  /** The entries that could still fire for timer `h`. */
  ghost function Live(s: State, h: nat): set<nat>
    requires Wf(s)
  {
    set p | p in s.pending && !s.entries[p].stopped && BelongsTo(s.entries[p].kind, h)
  }

  lemma LiveIsCurrent(s: State, h: nat)
    requires Inv(s) && h < |s.timers|
    ensures Live(s, h) == if Active(s, h) then {s.timers[h]} else {}
  {
    assert TimerOwns(s, h);
    forall p | p in Live(s, h) ensures p == s.timers[h] { assert IsCurrent(s, p); }
    if Active(s, h) { assert s.timers[h] in Live(s, h); }
  }

  /** Reset leaves exactly one live entry, the new one, due d from now; the answer is whether one was live before. */
  lemma ResetLeavesOneLive(s: State, h: nat, d: int)
    requires Inv(s) && h < |s.timers|
    ensures var r := Apply(s, ResetTimer(h, d)); var id := |s.entries|;
            && Inv(r)
            && Live(r, h) == {id} && r.entries[id].deadline == s.now + d
            && (Active(s, h) <==> Live(s, h) != {})
            && forall g: nat :: g != h && g < |s.timers| ==> Live(r, g) == Live(s, g)
  {
    var op := ResetTimer(h, d);
    var r := Apply(s, op);
    ApplyKeepsInv(s, op);
    assert Active(r, h);
    LiveIsCurrent(s, h);
    LiveIsCurrent(r, h);
    forall g: nat | g != h && g < |s.timers| ensures Live(r, g) == Live(s, g) {
      assert TimerOwns(s, g) && TimerOwns(s, h);
      LiveIsCurrent(s, g);
      LiveIsCurrent(r, g);
    }
  }
}
