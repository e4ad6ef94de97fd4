/** Advances that do not return.  NewTicker takes any interval; one that is not positive
    leaves a due tick behind every tick, whatever else the loop does, until a callback stops
    the ticker.  So an advance that reaches such a ticker returns if and only if that comes
    to happen: never for a negative interval once the tick is the root of the heap. */
module ClockEndless {
  import opened Collections
  import opened ClockModel
  import opened ClockRuns
  import opened ClockTheorems
  import opened ClockSteps

  // ---------- the ticker stays due ----------

  /** The running ticker `k` has no positive interval and is due by `target`. */
  ghost predicate Spins(s: State, k: nat, target: int) {
    && Shape(s) && Owned(s) && k < |s.tickers| && !s.tickers[k].stopped && s.tickers[k].interval <= 0
    && s.entries[s.tickers[k].entry].deadline <= target
  }

  lemma SpinsIsDue(s: State, k: nat, target: int)
    requires Spins(s, k, target)
    ensures Due(s, target) && s.tickers[k].entry in s.pending
  {
    assert TickerOwns(s, k);
    assert IsEarliest(s, Earliest(s));
  }

  /** Where the tick is afterwards: where it was, or newly armed one interval on. */
  ghost predicate TickMoves(s: State, r: State, k: nat)
    requires Shape(s) && Shape(r) && k < |s.tickers| && k < |r.tickers|
  {
    && r.tickers[k].interval == s.tickers[k].interval
    && |s.entries| <= |r.entries|
    && (forall i :: 0 <= i < |s.entries| ==> r.entries[i].deadline == s.entries[i].deadline)
    && (r.tickers[k].entry == s.tickers[k].entry
        || (r.tickers[k].entry == |s.entries| < |r.entries|
            && r.entries[|s.entries|].deadline == s.entries[s.tickers[k].entry].deadline + s.tickers[k].interval))
  }

  /** Whatever due entry is taken off the heap next, the ticker is still due afterwards. */
  lemma TurnSpins(s: State, k: nat, target: int, id: nat)
    requires Spins(s, k, target) && id in s.pending
    ensures Spins(Turn(s, id), k, target) && TickMoves(s, Turn(s, id), k)
  {
    TurnShape(s, id);
    TurnKeepsOwned(s, id);
    assert TickerOwns(s, k);
    if !s.entries[id].stopped { assert IsCurrent(s, id); }
  }

  /** So it is after any call that does not advance and does not stop the ticker. */
  lemma ApplySpins(s: State, k: nat, target: int, op: Op)
    requires Spins(s, k, target) && !MovesTime(op) && op != StopTicker(k)
    ensures Spins(Apply(s, op), k, target) && TickMoves(s, Apply(s, op), k)
  {
    ApplyKeepsOwned(s, op);
    ApplyGrown(s, op);
    assert TickerOwns(s, k);
  }

  lemma SpinsIgnores(a: State, b: State, k: nat, target: int)
    requires Spins(a, k, target)
    requires a.entries == b.entries && a.pending == b.pending && a.timers == b.timers
    requires a.tickers == b.tickers && a.bufs == b.bufs && a.received == b.received
    ensures Spins(b, k, target) && TickMoves(a, b, k)
  {
    OwnedIgnores(a, b);
  }

  // ---------- the advance stays on the stack ----------

  /** The loop at place `at` of the stack has not returned. */
  predicate Underway(m: Machine, at: nat, target: int) {
    at < |m.stack| && m.stack[at] == Loop(target)
  }

  /** What is above it on the stack are loops and callbacks; with an interval of zero, callbacks
      of entries that come before the tick. */
  ghost predicate Callbacks(m: Machine, at: nat, k: nat)
    requires Shape(m.s) && k < |m.s.tickers|
  {
    forall j :: at < j < |m.stack| && m.stack[j].Calls? ==>
      && m.stack[j].who.Some?
      && (m.s.tickers[k].interval == 0 ==>
            m.stack[j].who.value < |m.s.entries| && Before(m.s.entries, m.stack[j].who.value, m.s.tickers[k].entry))
  }

  ghost predicate Spinning(m: Machine, at: nat, target: int, k: nat) {
    Spins(m.s, k, target) && Underway(m, at, target) && Callbacks(m, at, k)
  }

  /** The next step is the call, by a callback, that stops the ticker. */
  predicate StopsNext(m: Machine, at: nat, k: nat) {
    && at + 1 < |m.stack| && !m.s.blocked
    && var top := m.stack[|m.stack| - 1]; top.Calls? && top.ops != [] && top.ops[0] == StopTicker(k)
  }

  lemma CallbacksStay(m: Machine, r: Machine, at: nat, k: nat)
    requires Shape(m.s) && Shape(r.s) && k < |m.s.tickers| && k < |r.s.tickers|
    requires Callbacks(m, at, k) && TickMoves(m.s, r.s, k)
    requires forall j :: at < j < |r.stack| && r.stack[j].Calls? ==>
               (j < |m.stack| && m.stack[j].Calls? && m.stack[j].who == r.stack[j].who) || Above(m.s, r.stack[j].who, k)
    ensures Callbacks(r, at, k)
  {}

  /** An entry whose callback runs came before the tick. */
  ghost predicate Above(s: State, who: Option<nat>, k: nat)
    requires Shape(s) && k < |s.tickers|
  {
    who.Some? && who.value < |s.entries| && Before(s.entries, who.value, s.tickers[k].entry)
  }

  lemma LoopSpins(s: State, below: seq<Frame>, target': int, at: nat, target: int, k: nat)
    requires Spinning(Machine(s, below + [Loop(target')]), at, target, k)
    ensures Spinning(StepLoop(s, below, target'), at, target, k)
  {
    var m, r := Machine(s, below + [Loop(target')]), StepLoop(s, below, target');
    if !Due(s, target') {
      if at == |below| { SpinsIsDue(s, k, target); }
      SpinsIgnores(s, r.s, k, target);
    } else {
      var id := Earliest(s);
      TurnSpins(s, k, target, id);
      SpinsIsDue(s, k, target);
      var t := Turn(s, id);
      if CallsBack(s, id) {
        assert TickerOwns(s, k);
        assert Above(s, Some(id), k);
        SpinsIgnores(t, r.s, k, target);
      }
    }
    CallbacksStay(m, r, at, k);
  }

  lemma CallsSpin(s: State, below: seq<Frame>, who: Option<nat>, ops: seq<Op>, at: nat, target: int, k: nat)
    requires Spinning(Machine(s, below + [Calls(who, ops)]), at, target, k)
    requires ops != [] ==> ops[0] != StopTicker(k)
    ensures Spinning(StepCalls(s, below, who, ops), at, target, k)
  {
    var m, r := Machine(s, below + [Calls(who, ops)]), StepCalls(s, below, who, ops);
    assert m.stack[|below|] == Calls(who, ops);
    if ops != [] && !MovesTime(ops[0]) {
      ApplySpins(s, k, target, ops[0]);
    } else {
      SpinsIgnores(s, r.s, k, target);
    }
    CallbacksStay(m, r, at, k);
  }

  /** One step, unless it is the one that stops the ticker. */
  lemma StepSpins(m: Machine, at: nat, target: int, k: nat)
    requires Spinning(m, at, target, k) && !StopsNext(m, at, k)
    ensures Spinning(Step(m), at, target, k)
  {
    if !m.s.blocked {
      var n := |m.stack| - 1;
      var below := m.stack[..n];
      assert m.stack == below + [m.stack[n]];
      assert m == Machine(m.s, below + [m.stack[n]]);
      match m.stack[n]
      case Loop(target') => LoopSpins(m.s, below, target', at, target, k);
      case Calls(who, ops) => CallsSpin(m.s, below, who, ops, at, target, k);
    }
  }

  /** Within n steps a callback came to stop the ticker. */
  ghost predicate StoppedWithin(m: Machine, at: nat, target: int, k: nat, n: nat) {
    exists j: nat :: j < n && StopsAfter(m, at, target, k, j)
  }

  /** After j steps the ticker still spins, and the next step stops it. */
  ghost predicate StopsAfter(m: Machine, at: nat, target: int, k: nat, j: nat) {
    Spinning(Steps(m, j), at, target, k) && StopsNext(Steps(m, j), at, k)
  }

  /** An advance that has reached a ticker without a positive interval is still under way, with
      the ticker due, after any number of steps in which no callback stops the ticker; and
      with an interval of zero that callback is of an entry before the tick. */
  lemma ReturnsOnlyIfStopped(m: Machine, at: nat, target: int, k: nat, n: nat)
    requires Spinning(m, at, target, k)
    ensures Spinning(Steps(m, n), at, target, k) || StoppedWithin(m, at, target, k, n)
  {
    var holds, exit := (x: Machine) => Spinning(x, at, target, k), (x: Machine) => StopsNext(x, at, k);
    forall x | holds(x) && !exit(x) ensures holds(Step(x)) { StepSpins(x, at, target, k); }
    IterateUntil(Step, holds, exit, m, n);
    if j: nat :| j < n && holds(Iterate(Step, m, j)) && exit(Iterate(Step, m, j)) {
      assert StopsAfter(m, at, target, k, j);
    }
  }

  // ---------- callbacks that let the ticker be ----------

  predicate Spares(ops: seq<Op>, k: nat) {
    forall i :: 0 <= i < |ops| ==> ops[i] != StopTicker(k)
  }

  /** No callback, under way or to come, stops the ticker. */
  predicate Spared(m: Machine, at: nat, k: nat) {
    && (forall i :: 0 <= i < |m.s.script| ==> Spares(m.s.script[i], k))
    && (forall j :: at < j < |m.stack| && m.stack[j].Calls? ==> Spares(m.stack[j].ops, k))
  }

  lemma LoopSpared(s: State, below: seq<Frame>, target': int, at: nat, k: nat)
    requires Shape(s) && Spared(Machine(s, below + [Loop(target')]), at, k) && at <= |below|
    ensures Spared(StepLoop(s, below, target'), at, k)
  {
    if Due(s, target') { TurnShape(s, Earliest(s)); }
    assert forall j :: 0 <= j < |below| ==> (below + [Loop(target')])[j] == below[j];
  }

  lemma CallsSpared(s: State, below: seq<Frame>, who: Option<nat>, ops: seq<Op>, at: nat, k: nat)
    requires Shape(s) && Spared(Machine(s, below + [Calls(who, ops)]), at, k) && at < |below|
    ensures Spared(StepCalls(s, below, who, ops), at, k) && (ops != [] ==> ops[0] != StopTicker(k))
  {
    var stack := below + [Calls(who, ops)];
    assert stack[|below|] == Calls(who, ops);
    assert forall j :: 0 <= j < |below| ==> stack[j] == below[j];
  }

  lemma StepSpared(m: Machine, at: nat, target: int, k: nat)
    requires Shape(m.s) && Underway(m, at, target) && Spared(m, at, k)
    ensures Spared(Step(m), at, k) && !StopsNext(m, at, k)
  {
    if !m.s.blocked {
      var n := |m.stack| - 1;
      var below := m.stack[..n];
      assert m == Machine(m.s, below + [m.stack[n]]);
      match m.stack[n]
      case Loop(target') => LoopSpared(m.s, below, target', at, k);
      case Calls(who, ops) => CallsSpared(m.s, below, who, ops, at, k);
    }
  }

  /** With callbacks that do not stop the ticker, the advance never returns: after any number
      of steps it is under way, and the ticker is due. */
  lemma NeverReturns(m: Machine, at: nat, target: int, k: nat, n: nat)
    requires Spinning(m, at, target, k) && Spared(m, at, k)
    ensures Spinning(Steps(m, n), at, target, k) && Due(Steps(m, n).s, target)
  {
    var holds, exit := (x: Machine) => Spinning(x, at, target, k) && Spared(x, at, k), (x: Machine) => StopsNext(x, at, k);
    forall x | holds(x) ensures holds(Step(x)) && !exit(x) {
      StepSpared(x, at, target, k);
      StepSpins(x, at, target, k);
    }
    IterateUntil(Step, holds, exit, m, n);
    SpinsIsDue(Steps(m, n).s, k, target);
  }

  // ---------- negative intervals ----------

  /** The loop is about to fire the ticker, whose interval is negative. */
  ghost predicate RootTick(m: Machine, at: nat, target: int, k: nat) {
    && Spins(m.s, k, target) && m.s.tickers[k].interval < 0 && !m.s.blocked
    && |m.stack| == at + 1 && m.stack[at] == Loop(target)
    && IsEarliest(m.s, m.s.tickers[k].entry)
  }

  lemma RootTicksAgain(m: Machine, at: nat, target: int, k: nat)
    requires RootTick(m, at, target, k)
    ensures RootTick(Step(m), at, target, k) && |Step(m).s.log| == |m.s.log| + 1
  {
    var s, id := m.s, m.s.tickers[k].entry;
    SpinsIsDue(s, k, target);
    assert TickerOwns(s, k);
    assert Earliest(s) == id;
    assert m.stack == m.stack[..at] + [Loop(target)];
    TurnSpins(s, k, target, id);
    NextIsRoot(s, k);
  }

  lemma NextIsRoot(s: State, k: nat)
    requires Shape(s) && k < |s.tickers| && !s.tickers[k].stopped && s.tickers[k].interval < 0
    requires IsEarliest(s, s.tickers[k].entry) && TickerOwns(s, k)
    ensures var t := Turn(s, s.tickers[k].entry);
            && Shape(t) && !CallsBack(s, s.tickers[k].entry) && t.blocked == s.blocked && |t.log| == |s.log| + 1
            && k < |t.tickers| && IsEarliest(t, t.tickers[k].entry)
  {
    TurnShape(s, s.tickers[k].entry);
  }

  /** Once a ticker with a negative interval is the root of the heap the advance fires nothing
      else and never returns, whatever the callbacks would do. */
  lemma NegativeNeverReturns(m: Machine, at: nat, target: int, k: nat, n: nat)
    requires RootTick(m, at, target, k)
    ensures RootTick(Steps(m, n), at, target, k) && |Steps(m, n).s.log| == |m.s.log| + n
  {
    var holds, size := (x: Machine) => RootTick(x, at, target, k), (x: Machine) => |x.s.log|;
    forall x | holds(x) ensures holds(Step(x)) && size(Step(x)) == size(x) + 1 { RootTicksAgain(x, at, target, k); }
    IterateKeeps(Step, holds, size, m, n);
  }

  // ---------- exactly when the advance ends ----------

  /** Apart from ticker `k` every interval is positive, also of tickers still to be made. */
  ghost predicate PacedBut(m: Machine, at: nat, k: nat) {
    && (forall i :: 0 <= i < |m.s.tickers| && i != k && !m.s.tickers[i].stopped ==> m.s.tickers[i].interval > 0)
    && (forall i :: 0 <= i < |m.s.script| ==> OpsWf(m.s.script[i]))
    && (forall j :: at < j < |m.stack| && m.stack[j].Calls? ==> OpsWf(m.stack[j].ops))
  }

  lemma LoopPacedBut(s: State, below: seq<Frame>, target': int, at: nat, k: nat)
    requires Shape(s) && PacedBut(Machine(s, below + [Loop(target')]), at, k) && at <= |below|
    ensures PacedBut(StepLoop(s, below, target'), at, k)
  {
    if Due(s, target') { TurnShape(s, Earliest(s)); }
    assert forall j :: 0 <= j < |below| ==> (below + [Loop(target')])[j] == below[j];
  }

  lemma CallsPacedBut(s: State, below: seq<Frame>, who: Option<nat>, ops: seq<Op>, at: nat, k: nat)
    requires Shape(s) && PacedBut(Machine(s, below + [Calls(who, ops)]), at, k) && at < |below| && k < |s.tickers|
    ensures PacedBut(StepCalls(s, below, who, ops), at, k)
  {
    var stack := below + [Calls(who, ops)];
    assert stack[|below|] == Calls(who, ops);
    assert forall j :: 0 <= j < |below| ==> stack[j] == below[j];
    if ops != [] && !MovesTime(ops[0]) { ApplyPacedBut(s, ops[0], k); }
  }

  lemma ApplyPacedBut(s: State, op: Op, k: nat)
    requires Shape(s) && OpWf(op) && !MovesTime(op)
    requires forall i :: 0 <= i < |s.tickers| && i != k && !s.tickers[i].stopped ==> s.tickers[i].interval > 0
    ensures var r := Apply(s, op);
            forall i :: 0 <= i < |r.tickers| && i != k && !r.tickers[i].stopped ==> r.tickers[i].interval > 0
  {}

  lemma StepPacedBut(m: Machine, at: nat, target: int, k: nat)
    requires Shape(m.s) && Underway(m, at, target) && k < |m.s.tickers| && PacedBut(m, at, k)
    ensures PacedBut(Step(m), at, k)
  {
    if !m.s.blocked {
      var n := |m.stack| - 1;
      var below := m.stack[..n];
      assert m == Machine(m.s, below + [m.stack[n]]);
      match m.stack[n]
      case Loop(target') => LoopPacedBut(m.s, below, target', at, k);
      case Calls(who, ops) => CallsPacedBut(m.s, below, who, ops, at, k);
    }
  }

  /** The advance has returned, or waits to send. */
  ghost predicate Ended(m: Machine, at: nat) {
    |m.stack| <= at || m.s.blocked
  }

  /** With every interval positive, what is on the stack comes to an end. */
  lemma {:induction false} Unwinds(m: Machine, at: nat) returns (n: nat)
    requires Wf(m.s) && forall j :: at <= j < |m.stack| && m.stack[j].Calls? ==> OpsWf(m.stack[j].ops)
    ensures Ended(Steps(m, n), at)
    decreases |m.stack|
  {
    if |m.stack| <= at || m.s.blocked { return 0; }
    var last := |m.stack| - 1;
    var below, top := m.stack[..last], m.stack[last];
    assert m == Machine(m.s, below + [top]);
    var a: nat, r: State;
    match top {
      case Loop(target) =>
        a := AdvanceSteps(m.s, target, below);
        r := AdvanceLoop(m.s, target);
      case Calls(who, ops) =>
        a := RunSteps(m.s, who, ops, below);
        r := RunOps(m.s, ops);
    }
    if r.blocked { return a; }
    var b := Unwinds(Machine(r, below), at);
    StepsAdd(m, a, b);
    n := a + b;
  }

  lemma StopStops(m: Machine, at: nat, k: nat)
    requires Shape(m.s) && k < |m.s.tickers| && StopsNext(m, at, k)
    ensures k < |Step(m).s.tickers| && Step(m).s.tickers[k].stopped
  {}

  /** The ticker is stopped, or the clock waits to send. */
  predicate Halted(m: Machine, k: nat) {
    m.s.blocked || (k < |m.s.tickers| && m.s.tickers[k].stopped)
  }

  lemma EndsOnlyIfHalted(m: Machine, at: nat, target: int, k: nat, n: nat)
    requires Spinning(m, at, target, k) && Ended(Steps(m, n), at)
    ensures exists j: nat :: Halted(Steps(m, j), k)
  {
    ReturnsOnlyIfStopped(m, at, target, k, n);
    if StoppedWithin(m, at, target, k, n) {
      var j: nat :| j < n && StopsAfter(m, at, target, k, j);
      var x := Steps(m, j);
      StopStops(x, at, k);
      StepsLast(m, j, x);
      assert Halted(Steps(m, j + 1), k);
    } else {
      assert Halted(Steps(m, n), k);
    }
  }

  /** The loop is under way, and apart from the ticker every interval is positive. */
  ghost predicate Going(m: Machine, at: nat, target: int, k: nat) {
    Shape(m.s) && k < |m.s.tickers| && Underway(m, at, target) && PacedBut(m, at, k)
  }

  lemma LoopGoes(s: State, below: seq<Frame>, target': int, at: nat, target: int, k: nat)
    requires Shape(s) && k < |s.tickers| && at <= |below| && (below + [Loop(target')])[at] == Loop(target)
    ensures var r := StepLoop(s, below, target');
            k < |r.s.tickers| && (Underway(r, at, target) || |r.stack| <= at)
  {
    if Due(s, target') { TurnShape(s, Earliest(s)); }
    assert forall j :: 0 <= j < |below| ==> (below + [Loop(target')])[j] == below[j];
  }

  lemma CallsGo(s: State, below: seq<Frame>, who: Option<nat>, ops: seq<Op>, at: nat, target: int, k: nat)
    requires Shape(s) && k < |s.tickers| && at < |below| && below[at] == Loop(target)
    ensures var r := StepCalls(s, below, who, ops); k < |r.s.tickers| && Underway(r, at, target)
  {
    if ops != [] && !MovesTime(ops[0]) { ApplyGrown(s, ops[0]); }
  }

  lemma StepGoes(m: Machine, at: nat, target: int, k: nat)
    requires Going(m, at, target, k)
    ensures Going(Step(m), at, target, k) || Ended(Step(m), at)
  {
    StepPacedBut(m, at, target, k);
    if !m.s.blocked {
      var n := |m.stack| - 1;
      var below := m.stack[..n];
      assert m == Machine(m.s, below + [m.stack[n]]);
      match m.stack[n]
      case Loop(target') => LoopGoes(m.s, below, target', at, target, k);
      case Calls(who, ops) => CallsGo(m.s, below, who, ops, at, target, k);
    }
  }

  lemma HaltedEnds(m: Machine, at: nat, target: int, k: nat, n: nat)
    requires Going(m, at, target, k) && Halted(Steps(m, n), k)
    ensures exists j: nat :: Ended(Steps(m, j), at)
  {
    var holds, exit := (x: Machine) => Going(x, at, target, k) || Ended(x, at), (x: Machine) => Ended(x, at);
    forall x | holds(x) && !exit(x) ensures holds(Step(x)) { StepGoes(x, at, target, k); }
    IterateUntil(Step, holds, exit, m, n);
    if j: nat :| j < n && holds(Iterate(Step, m, j)) && exit(Iterate(Step, m, j)) {
      assert Ended(Steps(m, j), at);
    } else if Ended(Steps(m, n), at) {
    } else {
      GoingUnwinds(m, at, target, k, n);
    }
  }

  lemma GoingUnwinds(m: Machine, at: nat, target: int, k: nat, n: nat)
    requires Going(Steps(m, n), at, target, k) && Halted(Steps(m, n), k)
    ensures exists j: nat :: Ended(Steps(m, j), at)
  {
    var x := Steps(m, n);
    if x.s.blocked {
      assert Ended(Steps(m, n), at);
    } else {
      assert Wf(x.s);
      var b := Unwinds(x, at);
      StepsAdd(m, n, b);
      assert Ended(Steps(m, n + b), at);
    }
  }

  /** An advance that has reached a ticker without a positive interval, all others having one,
      comes to an end if and only if a callback comes to stop the ticker; unless a send waits. */
  lemma EndsIff(m: Machine, at: nat, target: int, k: nat)
    requires Spinning(m, at, target, k) && PacedBut(m, at, k)
    ensures (exists n: nat :: Ended(Steps(m, n), at)) <==> exists n: nat :: Halted(Steps(m, n), k)
  {
    if n: nat :| Ended(Steps(m, n), at) { EndsOnlyIfHalted(m, at, target, k, n); }
    if n: nat :| Halted(Steps(m, n), k) { HaltedEnds(m, at, target, k, n); }
  }

  // ---------- intervals of zero ----------

  /** The loop is under way over a ticker with an interval of zero, and no live callback is due
      at or before its instant. */
  ghost predicate Undisturbed(m: Machine, at: nat, target: int, k: nat) {
    && Spins(m.s, k, target) && m.s.tickers[k].interval == 0
    && |m.stack| == at + 1 && m.stack[at] == Loop(target)
    && NoCallbackBy(m.s, m.s.entries[m.s.tickers[k].entry].deadline)
  }

  ghost predicate NoCallbackBy(s: State, instant: int)
    requires Shape(s)
  {
    forall p :: p in s.pending && !s.entries[p].stopped && s.entries[p].kind.Func? ==> s.entries[p].deadline > instant
  }

  lemma TurnNoCallback(s: State, id: nat, instant: int)
    requires Shape(s) && id in s.pending && NoCallbackBy(s, instant)
    ensures Shape(Turn(s, id)) && NoCallbackBy(Turn(s, id), instant)
  {
    TurnShape(s, id);
    TurnRearms(s, id);
    var t := Turn(s, id);
    forall p | p in t.pending && !t.entries[p].stopped && t.entries[p].kind.Func? ensures t.entries[p].deadline > instant {
      assert Rearmed(s, t, id, p);
    }
  }

  lemma UndisturbedStep(m: Machine, at: nat, target: int, k: nat)
    requires Undisturbed(m, at, target, k)
    ensures Undisturbed(Step(m), at, target, k)
  {
    if !m.s.blocked {
      SpinsIsDue(m.s, k, target);
      var s, id := m.s, Earliest(m.s);
      assert m.stack == m.stack[..at] + [Loop(target)];
      TurnSpins(s, k, target, id);
      TurnNoCallback(s, id, s.entries[s.tickers[k].entry].deadline);
    }
  }

  /** An interval of zero, and no callback due at the same instant: the advance never returns,
      whatever the callbacks would do. */
  lemma ZeroNeverReturns(m: Machine, at: nat, target: int, k: nat, n: nat)
    requires Undisturbed(m, at, target, k)
    ensures Undisturbed(Steps(m, n), at, target, k)
  {
    var holds, exit := (x: Machine) => Undisturbed(x, at, target, k), (x: Machine) => false;
    forall x | holds(x) ensures holds(Step(x)) { UndisturbedStep(x, at, target, k); }
    IterateUntil(Step, holds, exit, m, n);
  }

  // ---------- programs ----------

  /** What NewTicker makes of an interval that is not positive. */
  lemma NewTickerSpins(s: State, d: int, target: int)
    requires Shape(s) && Owned(s) && d <= 0 && s.now + d <= target
    ensures Spins(Apply(s, NewTicker(d)), |s.tickers|, target)
  {
    ApplyKeepsOwned(s, NewTicker(d));
  }

  /** NewTicker with such an interval, then an advance: with callbacks that do not stop that
      ticker it never returns, whatever else is pending. */
  lemma NewTickerNeverReturns(s: State, d: int, target: int, below: seq<Frame>, n: nat)
    requires Shape(s) && Owned(s) && d <= 0 && s.now + d <= target
    requires forall i :: 0 <= i < |s.script| ==> Spares(s.script[i], |s.tickers|)
    ensures var m := Steps(Machine(Apply(s, NewTicker(d)), below + [Loop(target)]), n);
            Underway(m, |below|, target) && Shape(m.s) && Due(m.s, target)
  {
    NewTickerSpins(s, d, target);
    NeverReturns(Machine(Apply(s, NewTicker(d)), below + [Loop(target)]), |below|, target, |s.tickers|, n);
  }

  // ---------- a program whose advance does return ----------

  /** After NewTicker(0) and AfterFunc(0) on a fresh clock. */
  function Armed(now: int): State {
    State(now, [Entry(now, Tick(0), false, false), Entry(now, Func(0), false, false)], {0, 1}, [1],
          [Ticker(0, 0, 0, false, now)], [None], map[], [[StopTicker(0)]], [], {}, false, false)
  }

  /** After the first tick, which armed entry 2. */
  function Ticked(now: int): State {
    State(now, [Entry(now, Tick(0), false, true), Entry(now, Func(0), false, false), Entry(now, Tick(0), false, false)],
          {1, 2}, [1], [Ticker(0, 0, 2, false, now)], [Some(now)], map[], [[StopTicker(0)]],
          [Firing(0, Tick(0), now, now)], {}, false, false)
  }

  /** After the callback of entry 1 has stopped the ticker. */
  function Rescued(now: int): State {
    State(now, [Entry(now, Tick(0), false, true), Entry(now, Func(0), false, true), Entry(now, Tick(0), true, false)],
          {2}, [1], [Ticker(0, 0, 2, true, now)], [Some(now)], map[], [],
          [Firing(0, Tick(0), now, now), Firing(1, Func(0), now, now)], {}, false, false)
  }

  lemma ArmedTicks(now: int, target: int, below: seq<Frame>)
    requires now <= target
    ensures Shape(Armed(now)) && StepLoop(Armed(now), below, target) == Machine(Ticked(now), below + [Loop(target)])
  {
    var s := Armed(now);
    assert IsEarliest(s, 0);
    assert Earliest(s) == 0;
    assert s.pending - {0} + {2} == {1, 2};
    assert Turn(s, 0) == Ticked(now);
  }

  lemma TickedCalls(now: int, target: int, below: seq<Frame>)
    requires now <= target
    ensures Shape(Ticked(now))
    ensures var r := StepLoop(Ticked(now), below, target);
            && r.stack == below + [Loop(target)] + [Calls(Some(1), [StopTicker(0)])]
            && Shape(r.s) && Apply(r.s, StopTicker(0)) == Rescued(now) && !r.s.blocked
  {
    var s := Ticked(now);
    assert IsEarliest(s, 1);
    assert Earliest(s) == 1;
    assert s.pending - {1} == {2};
    assert s.script[1..] == [];
  }

  lemma RescuedReturns(now: int, target: int, below: seq<Frame>)
    requires now <= target
    ensures Wf(Rescued(now)) && AdvanceLoop(Rescued(now), target).now == target && !AdvanceLoop(Rescued(now), target).blocked
  {
    var s := Rescued(now);
    assert IsEarliest(s, 2);
    assert Earliest(s) == 2;
    TurnDecreases(s, target, 2);
    assert Turn(s, 2).pending == {};
  }

  /** A callback due at the same instant, armed before the tick was armed again, stops the
      ticker: the advance returns, although the interval is zero. */
  lemma StoppedInTime(now: int, target: int, below: seq<Frame>) returns (n: nat)
    requires now <= target
    ensures var r := Steps(Machine(Armed(now), below + [Loop(target)]), n);
            r.stack == below && r.s.now == target && !r.s.blocked
  {
    var loop := below + [Loop(target)];
    var m := Machine(Armed(now), loop);
    ArmedTicks(now, target, below);
    StepOnLoop(Armed(now), below, target);
    TickedCalls(now, target, below);
    StepOnLoop(Ticked(now), below, target);
    var called := StepLoop(Ticked(now), below, target);
    StepOnCalls(called.s, loop, Some(1), [StopTicker(0)]);
    assert [StopTicker(0)][1..] == [];
    RescuedReturns(now, target, below);
    StepOnCalls(Rescued(now), loop, Some(1), []);
    var a := AdvanceSteps(Rescued(now), target, below);
    assert Step(called) == Machine(Rescued(now), loop + [Calls(Some(1), [])]);
    FourSteps(m, Machine(Ticked(now), loop), called, Machine(Rescued(now), loop + [Calls(Some(1), [])]), Machine(Rescued(now), loop));
    StepsAdd(m, 4, a);
    n := 4 + a;
  }

  lemma FourSteps(a: Machine, b: Machine, c: Machine, d: Machine, e: Machine)
    requires Step(a) == b && Step(b) == c && Step(c) == d && Step(d) == e
    ensures Steps(a, 4) == e
  {
    StepsOne(a, 4, b);
    StepsOne(b, 3, c);
    StepsOne(c, 2, d);
    StepsOne(d, 1, e);
  }

  lemma ArmedSpins(now: int, target: int, below: seq<Frame>)
    requires now <= target
    ensures Spinning(Machine(Armed(now), below + [Loop(target)]), |below|, target, 0)
  {}

  function Rescuing(d: int): seq<Op> {
    [NewTicker(0)] + ([AfterFunc(0)] + ([Advance(d)] + []))
  }

  /** The clock before the program; its one callback stops the ticker. */
  function BeforeRescue(start: int, d: int): Machine {
    Machine(Init(start, [[StopTicker(0)]]), [] + [Calls(None, Rescuing(d))])
  }

  lemma RescuingStarts(start: int, d: int) returns (k: nat)
    ensures Steps(BeforeRescue(start, d), k) == Machine(Armed(start), [] + [Calls(None, [])] + [Loop(start + d)])
  {
    var s := ArmedFrom(Init(start, [[StopTicker(0)]]), start);
    k := ArmTwice(Init(start, [[StopTicker(0)]]), s, Armed(start), NewTicker(0), AfterFunc(0), d, []);
  }

  lemma ArmedFrom(s: State, start: int) returns (next: State)
    requires s == Init(start, [[StopTicker(0)]])
    ensures Shape(s) && next == Apply(s, NewTicker(0)) && Apply(next, AfterFunc(0)) == Armed(start)
  {
    next := Apply(s, NewTicker(0));
    assert next.entries == [Entry(start, Tick(0), false, false)] && next.pending == {0};
    assert next.tickers == [Ticker(0, 0, 0, false, start)] && next.bufs == [None] && next.late == {};
    assert ArmFunc(next, 0) == Armed(start);
  }

  /** Two operations that do not move time, and an advance that begins. */
  lemma ArmTwice(s0: State, s1: State, s2: State, first: Op, second: Op, d: int, below: seq<Frame>) returns (k: nat)
    requires Shape(s0) && !s0.blocked && !MovesTime(first) && !MovesTime(second)
    requires s1 == Apply(s0, first) && s2 == Apply(s1, second)
    ensures Steps(Machine(s0, below + [Calls(None, [first] + ([second] + ([Advance(d)] + [])))]), k)
            == Machine(s2, below + [Calls(None, [])] + [Loop(s2.now + d)])
  {
    var last := [Advance(d)] + [];
    CallStep(s0, below, None, first, [second] + last);
    CallStep(s1, below, None, second, last);
    CallStep(s2, below, None, Advance(d), []);
    ThreeSteps(Machine(s0, below + [Calls(None, [first] + ([second] + last))]), Machine(s1, below + [Calls(None, [second] + last)]),
               Machine(s2, below + [Calls(None, last)]), Machine(s2, below + [Calls(None, [])] + [Loop(s2.now + d)]));
    k := 3;
  }

  lemma CallStep(s: State, below: seq<Frame>, who: Option<nat>, op: Op, rest: seq<Op>)
    requires Shape(s) && !s.blocked
    ensures Step(Machine(s, below + [Calls(who, [op] + rest)]))
            == if MovesTime(op) then Machine(s, below + [Calls(who, rest)] + [Loop(AskedFor(s.now, op))])
               else Machine(Apply(s, op), below + [Calls(who, rest)])
  {
    assert ([op] + rest)[1..] == rest;
    StepOnCalls(s, below, who, [op] + rest);
  }

  lemma ThreeSteps(a: Machine, b: Machine, c: Machine, d: Machine)
    requires Step(a) == b && Step(b) == c && Step(c) == d
    ensures Steps(a, 3) == d
  {
    StepsOne(a, 3, b);
    StepsOne(b, 2, c);
    StepsOne(c, 1, d);
  }

  lemma ThenReturns(m: Machine, k: nat, now: int, target: int, below: seq<Frame>) returns (n: nat)
    requires now <= target && Steps(m, k) == Machine(Armed(now), below + [Loop(target)])
    ensures var r := Steps(m, n); r.stack == below && r.s.now == target && !r.s.blocked
  {
    n := StoppedInTime(now, target, below);
    StepsAdd(m, k, n);
    n := k + n;
  }

  lemma EndsFrom(m: Machine, k: nat, now: int, target: int, below: seq<Frame>) returns (n: nat)
    requires now <= target && |below| == 1 && Steps(m, k) == Machine(Armed(now), below + [Loop(target)])
    ensures Spinning(Steps(m, k), 1, target, 0)
    ensures var r := Steps(m, n); r.stack == below && r.s.now == target && !r.s.blocked
  {
    ArmedSpins(now, target, below);
    n := ThenReturns(m, k, now, target, below);
  }

  /** NewTicker(0), AfterFunc(0, stop that ticker), Advance(d): the advance reaches the ticker and
      yet returns, and there is nothing left to call. */
  lemma RescuingEnds(start: int, d: int) returns (k: nat, n: nat)
    requires d >= 0
    ensures Spinning(Steps(BeforeRescue(start, d), k), 1, start + d, 0)
    ensures var r := Steps(BeforeRescue(start, d), n);
            r.stack == [] + [Calls(None, [])] && r.s.now == start + d && !r.s.blocked
  {
    k := RescuingStarts(start, d);
    n := EndsFrom(BeforeRescue(start, d), k, start, start + d, [] + [Calls(None, [])]);
  }
}
