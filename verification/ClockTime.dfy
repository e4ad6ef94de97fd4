/** Exactly when a run sets the clock back, and what its tickers have done by then:
    a program that only moves forward never does, an advance inside a callback does
    exactly when it runs past the advance around it, and tickers do not drift. */
module ClockTime {
  import opened ClockModel
  import opened ClockRuns
  import opened ClockTheorems
  import opened ClockOrder

  // ---------- one advance ----------

  lemma {:induction false} FlatRun(s: State, ops: seq<Op>)
    requires Wf(s) && Ordered(s) && OpsOk(ops) && NoAdvances(ops)
    ensures var r := RunOps(s, ops);
            r.rewound == s.rewound && r.now == s.now && r.script == s.script && r.log == s.log && Ordered(r)
    decreases |ops|
  {
    if ops != [] && !s.blocked {
      assert !MovesTime(ops[0]);
      ApplyKeepsOrdered(s, ops[0]);
      assert forall i :: 0 <= i < |ops[1..]| ==> !MovesTime(ops[1..][i]);
      FlatRun(Apply(s, ops[0]), ops[1..]);
    }
  }

  /** If callbacks do not themselves advance the clock, an advance sets time back
      exactly when it is asked to: when its target is behind the clock. */
  lemma {:induction false} RewindsIffBackward(s: State, target: int)
    requires Wf(s) && Ordered(s) && ScriptOk(s.script) && FlatScript(s.script) && !s.rewound
    ensures var r := AdvanceLoop(s, target);
            && (r.rewound ==> target < s.now)
            && (!r.blocked && target < s.now ==> r.rewound)
            && ScriptOk(r.script) && FlatScript(r.script)
    decreases |s.script|, TurnsLeft(s, target)
  {
    if !s.blocked && Due(s, target) {
      var id := Earliest(s);
      TurnDecreases(s, target, id);
      TurnKeepsOrdered(s, id);
      var t := Turn(s, id);
      assert t.now == s.entries[id].deadline <= target;
      if CallsBack(s, id) {
        var called := t.(script := t.script[1..]);
        assert OpsOk(t.script[0]) && NoAdvances(t.script[0]);
        FlatRun(called, t.script[0]);
        RewindsIffBackward(RunOps(called, t.script[0]), target);
      } else {
        RewindsIffBackward(t, target);
      }
    }
  }

  // ---------- whole programs ----------

  /** Every advance of the program is asked to move forward. */
  predicate Forward(now: int, ops: seq<Op>)
    decreases |ops|
  {
    ops == [] || (now <= After(now, ops[0]) && Forward(After(now, ops[0]), ops[1..]))
  }

  /** What the clock is asked to read after the operation. */
  function After(now: int, op: Op): int {
    match op
    case Advance(d) => now + d
    case AdvanceTo(t) => t
    case _ => now
  }

  function EndTime(now: int, ops: seq<Op>): int
    decreases |ops|
  {
    if ops == [] then now else EndTime(After(now, ops[0]), ops[1..])
  }

  /** A clock whose time has not been set back, with callbacks that do not advance it. */
  ghost predicate Steered(s: State) {
    Wf(s) && Ordered(s) && ScriptOk(s.script) && FlatScript(s.script) && !s.rewound
  }

  lemma ExecRewindsIff(s: State, op: Op)
    requires Steered(s) && OpOk(op) && !s.blocked
    ensures var r := Exec(s, op);
            && (r.rewound ==> After(s.now, op) < s.now)
            && (!r.blocked ==> r.now == After(s.now, op) && (r.rewound <==> After(s.now, op) < s.now))
            && (!r.rewound ==> Steered(r))
  {
    if MovesTime(op) {
      var target := After(s.now, op);
      RewindsIffBackward(s, target);
      AdvanceKeepsTime(s, target);
      AdvanceLeavesNothingDue(s, target);
    } else {
      ApplyKeepsOrdered(s, op);
    }
  }

  /** A program whose callbacks do not advance sets time back if and only if one of its own
      advances is asked to: which a caller can tell from the program. */
  lemma {:induction false} RunRewindsIff(s: State, ops: seq<Op>)
    requires Steered(s) && OpsOk(ops)
    ensures var r := RunOps(s, ops);
            && (Forward(s.now, ops) ==> Steered(r))
            && (!r.blocked ==> (r.rewound <==> !Forward(s.now, ops)) && r.now == EndTime(s.now, ops))
    decreases |ops|
  {
    if ops != [] && !s.blocked {
      ExecRewindsIff(s, ops[0]);
      var next := Exec(s, ops[0]);
      if !next.rewound { RunRewindsIff(next, ops[1..]); } else { RunEndsAt(next, ops[1..]); }
    }
  }

  /** Whatever a program does, the clock ends where its advances say. */
  lemma {:induction false} RunEndsAt(s: State, ops: seq<Op>)
    requires Wf(s) && OpsWf(ops)
    ensures !RunOps(s, ops).blocked ==> RunOps(s, ops).now == EndTime(s.now, ops)
    decreases |ops|
  {
    if ops != [] && !s.blocked {
      if MovesTime(ops[0]) { AdvanceLeavesNothingDue(s, After(s.now, ops[0])); }
      RunEndsAt(Exec(s, ops[0]), ops[1..]);
    }
  }

  // ---------- advances inside callbacks ----------

  /** One of the callbacks the advance runs sets time back, or returns with the clock past
      the target. */
  ghost predicate Overrun(s: State, target: int)
    requires Wf(s)
    decreases |s.script|, TurnsLeft(s, target)
  {
    !s.blocked && Due(s, target) &&
    var id := Earliest(s);
    TurnDecreases(s, target, id);
    var t := Turn(s, id);
    if CallsBack(s, id) then
      var back := RunOps(t.(script := t.script[1..]), t.script[0]);
      back.rewound || target < back.now || Overrun(back, target)
    else Overrun(t, target)
  }

  /** Whatever the callbacks do, at any depth: an advance sets time back if and only if its
      target is behind the clock, or a callback sets time back or overruns the target. */
  lemma {:induction false} AdvanceRewindsIff(s: State, target: int)
    requires Wf(s) && Ordered(s) && ScriptOk(s.script) && !s.rewound
    ensures var r := AdvanceLoop(s, target);
            !r.blocked ==> (r.rewound <==> target < s.now || Overrun(s, target))
    decreases |s.script|, TurnsLeft(s, target)
  {
    if !s.blocked && Due(s, target) {
      var id := Earliest(s);
      TurnDecreases(s, target, id);
      TurnKeepsOrdered(s, id);
      var t := Turn(s, id);
      if CallsBack(s, id) {
        var called := t.(script := t.script[1..]);
        var back := RunOps(called, t.script[0]);
        RunKeepsTime(called, t.script[0]);
        if !back.rewound { AdvanceRewindsIff(back, target); }
      } else {
        AdvanceRewindsIff(t, target);
      }
    }
  }

  /** A callback that advances the clock itself, in any way and with anything else pending:
      the advance that called it sets time back if and only if the callback does, or
      leaves the clock past the target. */
  lemma NestedAdvanceRewindsIff(s: State, target: int)
    requires Wf(s) && Ordered(s) && ScriptOk(s.script) && !s.rewound && !s.blocked
    requires Due(s, target) && CallsBack(s, Earliest(s)) && FlatScript(s.script[1..])
    ensures var r, at := AdvanceLoop(s, target), s.entries[Earliest(s)].deadline;
            !r.blocked ==> (r.rewound <==> !Forward(at, s.script[0]) || EndTime(at, s.script[0]) > target)
  {
    var id := Earliest(s);
    TurnDecreases(s, target, id);
    TurnKeepsOrdered(s, id);
    var t := Turn(s, id);
    var called := t.(script := t.script[1..]);
    var back := RunOps(called, t.script[0]);
    RunRewindsIff(called, t.script[0]);
    if !back.blocked && !back.rewound { RewindsIffBackward(back, target); }
  }

  /** In particular, one that advances by d sets time back if and only if it overruns. */
  lemma NestedAdvanceRewindsIffItOverruns(s: State, target: int, d: int)
    requires Wf(s) && Ordered(s) && ScriptOk(s.script) && !s.rewound && !s.blocked && d >= 0
    requires Due(s, target) && CallsBack(s, Earliest(s)) && s.script[0] == [Advance(d)] && FlatScript(s.script[1..])
    ensures var r := AdvanceLoop(s, target);
            !r.blocked ==> (r.rewound <==> s.entries[Earliest(s)].deadline + d > target)
  {
    NestedAdvanceRewindsIff(s, target);
    assert [Advance(d)][1..] == [];
    var end, none: seq<Op> := s.entries[Earliest(s)].deadline + d, [];
    assert Forward(end, none) && EndTime(end, none) == end;
  }

  // ---------- tickers ----------

  lemma {:induction false} TickTimesInLog(log: seq<Firing>, k: nat, j: nat)
    requires j < |TickTimes(log, k)|
    ensures exists i :: 0 <= i < |log| && log[i].deadline == TickTimes(log, k)[j]
  {
    var init := log[..|log| - 1];
    if j < |TickTimes(init, k)| {
      TickTimesInLog(init, k, j);
      var i :| 0 <= i < |init| && init[i].deadline == TickTimes(init, k)[j];
      assert log[i].deadline == TickTimes(log, k)[j];
    } else {
      assert log[|log| - 1].deadline == TickTimes(log, k)[j];
    }
  }

  /** `k` has ticked floor((now - t0) / interval) times: at t0 + interval, t0 + 2 * interval, and so on. */
  ghost predicate TickedOnTime(s: State, k: nat)
    requires Wf(s) && k < |s.tickers| && !s.tickers[k].stopped
  {
    var t := s.tickers[k];
    var times := TickTimes(s.log, k);
    && |times| == TicksDue(t, s.now)
    && forall j :: 0 <= j < |times| ==> times[j] == TickAt(t, j + 1)
  }

  function TicksDue(t: Ticker, now: int): nat
    requires t.interval > 0
  {
    if now < t.born then 0 else (now - t.born) / t.interval
  }

  /** The last tick is not in the future. */
  ghost predicate NotAhead(times: seq<int>, now: int) {
    times == [] || times[|times| - 1] <= now
  }

  lemma CountTicks(t: Ticker, n: nat, now: int)
    requires t.interval > 0 && TickAt(t, n + 1) > now
    ensures n == TicksDue(t, now) <==> n == 0 || TickAt(t, n) <= now
    ensures n >= TicksDue(t, now)
  {
    NextTickAt(t, n);
    if n > 0 && TickAt(t, n) > now {
      assert (n - 1) * t.interval >= 0;
      if now >= t.born { QuotientBelow(t.interval, n, now - t.born); }
    } else if now >= t.born {
      Quotient(t.interval, n, now - TickAt(t, n));
    } else {
      assert n * t.interval >= 0;
    }
  }

  lemma NegativeFactor(d: int, e: int)
    requires d > 0 && d * e < 0
    ensures e < 0
  {}

  lemma QuotientBelow(d: int, n: int, x: int)
    requires d > 0 && x < n * d
    ensures x / d < n
  {
    assert x == d * (x / d) + x % d;
    assert d * (x / d - n) == d * (x / d) - n * d;
    NegativeFactor(d, x / d - n);
  }

  /** Between calls, with the next tick of every running ticker ahead: a ticker is on time
      if and only if its last tick is not in the future, and it never lags. */
  lemma SettledTicks(s: State, k: nat)
    requires Inv(s) && k < |s.tickers| && !s.tickers[k].stopped
    requires s.entries[s.tickers[k].entry].deadline > s.now
    ensures TickedOnTime(s, k) <==> NotAhead(TickTimes(s.log, k), s.now)
    ensures |TickTimes(s.log, k)| >= TicksDue(s.tickers[k], s.now)
  {
    assert Steady(s, k);
    CountTicks(s.tickers[k], |TickTimes(s.log, k)|, s.now);
  }

  /** When any advance returns, whatever its callbacks did, a running ticker has missed no
      tick, and is on time if and only if it did not tick past the target. */
  lemma TicksExactly(s: State, target: int, k: nat)
    requires Inv(s)
    ensures var r := AdvanceLoop(s, target);
            !r.blocked && k < |r.tickers| && !r.tickers[k].stopped ==>
              && r.now == target
              && |TickTimes(r.log, k)| >= TicksDue(r.tickers[k], target)
              && (TickedOnTime(r, k) <==> NotAhead(TickTimes(r.log, k), target))
  {
    var r := AdvanceLoop(s, target);
    AdvanceKeepsInv(s, target);
    AdvanceLeavesNothingDue(s, target);
    if !r.blocked && k < |r.tickers| && !r.tickers[k].stopped {
      assert TickerOwns(r, k);
      SettledTicks(r, k);
    }
  }

  lemma {:induction false} TickTimesConcat(a: seq<Firing>, b: seq<Firing>, k: nat)
    ensures TickTimes(a + b, k) == TickTimes(a, k) + TickTimes(b, k)
  {
    if b == [] {
      assert a + b == a;
    } else {
      var init := b[..|b| - 1];
      assert (a + b)[..|a + b| - 1] == a + init;
      TickTimesConcat(a, init, k);
    }
  }

  lemma {:induction false} FlatRunLogs(s: State, ops: seq<Op>)
    requires Wf(s) && OpsWf(ops) && NoAdvances(ops)
    ensures RunOps(s, ops).log == s.log && RunOps(s, ops).script == s.script
    decreases |ops|
  {
    if ops != [] && !s.blocked {
      assert !MovesTime(ops[0]);
      assert forall i :: 0 <= i < |ops[1..]| ==> !MovesTime(ops[1..][i]);
      FlatRunLogs(Apply(s, ops[0]), ops[1..]);
    }
  }

  /** What fired since is not past `target`. */
  ghost predicate LoggedBy(before: seq<Firing>, log: seq<Firing>, target: int) {
    before <= log && forall i :: |before| <= i < |log| ==> log[i].deadline <= target
  }

  lemma TurnLogs(s: State, target: int, id: nat)
    requires Wf(s) && id in s.pending && s.entries[id].deadline <= target
    ensures LoggedBy(s.log, Turn(s, id).log, target)
  {}

  lemma LoggedByTrans(a: seq<Firing>, b: seq<Firing>, c: seq<Firing>, target: int)
    requires LoggedBy(a, b, target) && LoggedBy(b, c, target)
    ensures LoggedBy(a, c, target)
  {}

  /** An advance whose callbacks do not advance fires nothing past its target. */
  lemma {:induction false} FlatAdvanceLogs(s: State, target: int)
    requires Wf(s) && FlatScript(s.script)
    ensures LoggedBy(s.log, AdvanceLoop(s, target).log, target)
    decreases |s.script|, TurnsLeft(s, target)
  {
    if !s.blocked && Due(s, target) {
      var id := Earliest(s);
      TurnDecreases(s, target, id);
      TurnLogs(s, target, id);
      var t := Turn(s, id);
      if CallsBack(s, id) {
        var called := t.(script := t.script[1..]);
        FlatRunLogs(called, t.script[0]);
        FlatAdvanceLogs(RunOps(called, t.script[0]), target);
      } else {
        FlatAdvanceLogs(t, target);
      }
      LoggedByTrans(s.log, t.log, AdvanceLoop(s, target).log, target);
    }
  }

  lemma TicksIncrease(t: Ticker, i: nat, j: nat)
    requires t.interval > 0 && i <= j
    ensures TickAt(t, i) <= TickAt(t, j)
  {
    assert (j - i) * t.interval >= 0;
    assert j * t.interval == i * t.interval + (j - i) * t.interval;
  }

  /** Whether or not time was ever set back: after an advance whose callbacks do not advance,
      a running ticker is on time if and only if it had not ticked past the target before. */
  lemma TicksOnTimeIff(s: State, target: int, k: nat)
    requires Inv(s) && FlatScript(s.script) && k < |s.tickers|
    ensures var r := AdvanceLoop(s, target);
            && k < |r.tickers|
            && (!r.blocked && !r.tickers[k].stopped ==>
                  (TickedOnTime(r, k) <==> NotAhead(TickTimes(s.log, k), target)))
  {
    var r := AdvanceLoop(s, target);
    AdvanceLater(s, target);
    TicksExactly(s, target, k);
    if !r.blocked && !r.tickers[k].stopped {
      AdvanceKeepsInv(s, target);
      FlatAdvanceLogs(s, target);
      LastTick(r, s.log, k, target);
    }
  }

  lemma LastTick(r: State, before: seq<Firing>, k: nat, target: int)
    requires Wf(r) && k < |r.tickers| && !r.tickers[k].stopped && Steady(r, k) && LoggedBy(before, r.log, target)
    ensures NotAhead(TickTimes(r.log, k), target) <==> NotAhead(TickTimes(before, k), target)
  {
    var since := r.log[|before|..];
    assert r.log == before + since;
    TickTimesConcat(before, since, k);
    var ticks, more := TickTimes(before, k), TickTimes(since, k);
    if more != [] {
      TickTimesInLog(since, k, |more| - 1);
      if ticks != [] { LastIsLast(r.tickers[k], ticks, more); }
    }
  }

  lemma LastIsLast(t: Ticker, ticks: seq<int>, more: seq<int>)
    requires t.interval > 0 && ticks != [] && more != []
    requires forall j :: 0 <= j < |ticks + more| ==> (ticks + more)[j] == TickAt(t, j + 1)
    ensures ticks[|ticks| - 1] <= more[|more| - 1] == (ticks + more)[|ticks + more| - 1]
  {
    assert (ticks + more)[|ticks| - 1] == TickAt(t, |ticks|);
    assert (ticks + more)[|ticks + more| - 1] == TickAt(t, |ticks + more|);
    TicksIncrease(t, |ticks|, |ticks + more|);
  }

  /** A ticker that was not stopped has ticked without drift when an advance returns. */
  lemma TicksWithoutDrift(s: State, target: int, k: nat)
    requires Inv(s) && TimeInv(s) && k < |s.tickers|
    ensures var r := AdvanceLoop(s, target);
            && k < |r.tickers| && TickerLater(s.tickers[k], r.tickers[k])
            && (!r.blocked && !r.rewound && !r.tickers[k].stopped ==> r.now == target && TickedOnTime(r, k))
  {
    var r := AdvanceLoop(s, target);
    AdvanceKeepsTime(s, target);
    AdvanceLater(s, target);
    TicksExactly(s, target, k);
    if !r.blocked && !r.rewound && !r.tickers[k].stopped { NotAheadInOrder(r, k); }
  }

  lemma NotAheadInOrder(s: State, k: nat)
    requires Ordered(s)
    ensures NotAhead(TickTimes(s.log, k), s.now)
  {
    var n := |TickTimes(s.log, k)|;
    if n > 0 { TickTimesInLog(s.log, k, n - 1); }
  }

  // ---------- the promise to programs that move forward ----------

  /** The next tick of every running ticker is ahead. */
  ghost predicate TicksAhead(s: State)
    requires Wf(s)
  {
    forall k :: 0 <= k < |s.tickers| && !s.tickers[k].stopped ==> s.entries[s.tickers[k].entry].deadline > s.now
  }

  lemma ExecKeepsAhead(s: State, op: Op)
    requires Inv(s) && OpWf(op) && TicksAhead(s)
    ensures Inv(Exec(s, op)) && (!Exec(s, op).blocked ==> TicksAhead(Exec(s, op)))
  {
    if MovesTime(op) {
      AdvanceAhead(s, After(s.now, op));
    } else {
      ApplyKeepsInv(s, op);
      ApplyAhead(s, op);
    }
  }

  lemma AdvanceAhead(s: State, target: int)
    requires Inv(s)
    ensures Inv(AdvanceLoop(s, target))
    ensures !AdvanceLoop(s, target).blocked ==> TicksAhead(AdvanceLoop(s, target))
  {
    AdvanceKeepsInv(s, target);
    AdvanceLeavesNothingDue(s, target);
    var r := AdvanceLoop(s, target);
    if !r.blocked {
      forall k | 0 <= k < |r.tickers| && !r.tickers[k].stopped
        ensures r.entries[r.tickers[k].entry].deadline > r.now
      {
        assert TickerOwns(r, k);
      }
    }
  }

  lemma ApplyAhead(s: State, op: Op)
    requires Wf(s) && OpWf(op) && !MovesTime(op) && TicksAhead(s)
    ensures TicksAhead(Apply(s, op))
  {
    ApplyGrown(s, op);
  }

  lemma {:induction false} RunKeepsAhead(s: State, ops: seq<Op>)
    requires Inv(s) && OpsWf(ops) && TicksAhead(s)
    ensures Inv(RunOps(s, ops)) && (!RunOps(s, ops).blocked ==> TicksAhead(RunOps(s, ops)))
    decreases |ops|
  {
    if ops != [] && !s.blocked {
      ExecKeepsAhead(s, ops[0]);
      var next := Exec(s, ops[0]);
      if !next.blocked { RunKeepsAhead(next, ops[1..]); }
    }
  }

  /** A program that only moves forward, with callbacks that do not advance: the clock is
      never set back, everything fires in order, and whenever a call returns every running
      ticker has ticked exactly when it should have. */
  lemma ForwardRunsKeepTime(start: int, script: seq<seq<Op>>, ops: seq<Op>)
    requires OpsOk(ops) && ScriptOk(script) && FlatScript(script) && Forward(start, ops)
    ensures Wf(Init(start, script))
    ensures var r := RunOps(Init(start, script), ops);
            && !r.rewound && Increasing(r.log)
            && (!r.blocked ==>
                  && r.now == EndTime(start, ops)
                  && forall k :: 0 <= k < |r.tickers| && !r.tickers[k].stopped ==> TickedOnTime(r, k))
  {
    InitSteered(start, script);
    RunsForward(Init(start, script), ops);
  }

  lemma InitSteered(start: int, script: seq<seq<Op>>)
    requires ScriptOk(script) && FlatScript(script)
    ensures var s := Init(start, script); Inv(s) && Steered(s) && TicksAhead(s)
  {
    forall i | 0 <= i < |script| ensures OpsWf(script[i]) { assert OpsOk(script[i]); }
  }

  lemma RunsForward(s: State, ops: seq<Op>)
    requires Inv(s) && Steered(s) && TicksAhead(s) && OpsOk(ops) && Forward(s.now, ops)
    ensures var r := RunOps(s, ops);
            && !r.rewound && Increasing(r.log)
            && (!r.blocked ==>
                  && r.now == EndTime(s.now, ops)
                  && forall k :: 0 <= k < |r.tickers| && !r.tickers[k].stopped ==> TickedOnTime(r, k))
  {
    RunRewindsIff(s, ops);
    RunKeepsAhead(s, ops);
    if !RunOps(s, ops).blocked { AllOnTime(RunOps(s, ops)); }
  }

  lemma AllOnTime(s: State)
    requires Inv(s) && Ordered(s) && TicksAhead(s)
    ensures forall k :: 0 <= k < |s.tickers| && !s.tickers[k].stopped ==> TickedOnTime(s, k)
  {
    forall k | 0 <= k < |s.tickers| && !s.tickers[k].stopped ensures TickedOnTime(s, k) {
      SettledTicks(s, k);
      NotAheadInOrder(s, k);
    }
  }
}
