/** What every run of the virtual clock keeps: firing order, firing at most
    once, one live entry per timer, and tickers without drift. */
module ClockRuns {
  import opened ClockModel

  // ---------- the invariants ----------

  /** Firing happens at the entry's own deadline, once, and only to what was armed. */
  ghost predicate Logged(s: State) {
    && (forall i :: 0 <= i < |s.log| ==> LogMatches(s, s.log[i]))
    && (forall i, j :: 0 <= i < j < |s.log| ==> s.log[i].id != s.log[j].id)
    && (forall id :: 0 <= id < |s.entries| && s.entries[id].fired ==> InLog(s.log, id))
    && (forall p :: p in s.pending && p < |s.entries| ==> !s.entries[p].fired)
    && (forall id :: 0 <= id < |s.entries| && id !in s.pending ==> s.entries[id].fired || s.entries[id].stopped)
  }

  ghost predicate LogMatches(s: State, f: Firing) {
    && f.id < |s.entries| && f.id !in s.pending
    && s.entries[f.id].fired
    && f.kind == s.entries[f.id].kind
    && f.seen == f.deadline == s.entries[f.id].deadline
  }

  ghost predicate InLog(log: seq<Firing>, id: nat) {
    exists i :: 0 <= i < |log| && log[i].id == id
  }

  /** The order of the heap, on firings. */
  predicate FiredBefore(a: Firing, b: Firing) {
    a.deadline < b.deadline || (a.deadline == b.deadline && a.id < b.id)
  }

  predicate Increasing(log: seq<Firing>) {
    forall i, j :: 0 <= i < j < |log| ==> FiredBefore(log[i], log[j])
  }

  /** Time has not been set back: nothing pending is in the past, and everything
      pending comes after everything that fired. */
  ghost predicate Ordered(s: State) {
    Prompt(s) && forall p :: p in s.pending && p < |s.entries| ==> s.now <= s.entries[p].deadline
  }

  /** What fired came in order, is not in the future, and comes before everything pending. */
  ghost predicate Prompt(s: State) {
    && Increasing(s.log)
    && (forall i :: 0 <= i < |s.log| ==> s.log[i].deadline <= s.now && s.log[i].id < |s.entries|)
    && (forall i, p :: 0 <= i < |s.log| && p in s.pending && p < |s.entries| ==>
          FiredBefore(s.log[i], Firing(p, s.entries[p].kind, s.entries[p].deadline, s.now)))
  }

  predicate BelongsTo(k: Kind, h: nat) {
    !k.Tick? && k.timer == h
  }

  /** A live entry is the one its timer or ticker points to. */
  ghost predicate Owned(s: State)
    requires Shape(s)
  {
    && (forall p :: p in s.pending && !s.entries[p].stopped ==> IsCurrent(s, p))
    && (forall h :: 0 <= h < |s.timers| ==> TimerOwns(s, h))
    && (forall k :: 0 <= k < |s.tickers| ==> TickerOwns(s, k))
  }

  ghost predicate IsCurrent(s: State, p: nat)
    requires Shape(s) && p < |s.entries|
  {
    match s.entries[p].kind
    case Func(h) => s.timers[h] == p
    case Chan(h, _) => s.timers[h] == p
    case Tick(k) => s.tickers[k].entry == p && !s.tickers[k].stopped
  }

  ghost predicate TimerOwns(s: State, h: nat)
    requires Shape(s) && h < |s.timers|
  {
    && BelongsTo(s.entries[s.timers[h]].kind, h)
    && (Active(s, h) ==> s.timers[h] in s.pending)
  }

  ghost predicate TickerOwns(s: State, k: nat)
    requires Shape(s) && k < |s.tickers|
  {
    var t := s.tickers[k];
    && s.entries[t.entry].kind == Tick(k)
    && (!t.stopped ==> t.entry in s.pending && !s.entries[t.entry].stopped)
  }

  /** The times at which ticker `k` fired, in order. */
  function TickTimes(log: seq<Firing>, k: nat): seq<int> {
    if log == [] then []
    else
      var last := log[|log| - 1];
      TickTimes(log[..|log| - 1], k) + if last.kind == Tick(k) then [last.deadline] else []
  }

  /** No drift: tick number j is at born + j * interval, and so is the one armed. */
  ghost predicate Steady(s: State, k: nat)
    requires Wf(s) && k < |s.tickers|
  {
    var t := s.tickers[k];
    var times := TickTimes(s.log, k);
    && (forall j :: 0 <= j < |times| ==> times[j] == TickAt(t, j + 1))
    && (!t.stopped ==> s.entries[t.entry].deadline == TickAt(t, |times| + 1))
  }

  function TickAt(t: Ticker, j: nat): int {
    t.born + j * t.interval
  }

  ghost predicate AllSteady(s: State)
    requires Wf(s)
  {
    forall k :: 0 <= k < |s.tickers| ==> Steady(s, k)
  }

  /** No duration is negative. */
  predicate OpOk(op: Op) {
    && OpWf(op)
    && (op.AfterFunc? || op.NewTimer? || op.ResetTimer? ==> op.d >= 0)
  }

  predicate OpsOk(ops: seq<Op>) {
    forall i :: 0 <= i < |ops| ==> OpOk(ops[i])
  }

  predicate ScriptOk(script: seq<seq<Op>>) {
    forall i :: 0 <= i < |script| ==> OpsOk(script[i])
  }

  ghost predicate Inv(s: State) {
    Wf(s) && Logged(s) && Owned(s) && AllSteady(s)
  }

  /** The invariant of runs without negative durations: order, until time is set back. */
  ghost predicate TimeInv(s: State) {
    ScriptOk(s.script) && (s.rewound || Ordered(s))
  }

  // ---------- every primitive step keeps them ----------

  lemma TickTimesAppend(log: seq<Firing>, f: Firing, k: nat)
    ensures TickTimes(log + [f], k) == TickTimes(log, k) + if f.kind == Tick(k) then [f.deadline] else []
  {
    assert (log + [f])[..|log|] == log;
  }

  lemma {:induction false} NoTicksYet(log: seq<Firing>, k: nat)
    requires forall i :: 0 <= i < |log| ==> log[i].kind != Tick(k)
    ensures TickTimes(log, k) == []
  {
    if log != [] { NoTicksYet(log[..|log| - 1], k); }
  }

  lemma GrownKeepsLogged(s: State, r: State)
    requires Wf(s) && Logged(s) && Grown(s, r)
    ensures Logged(r)
  {
    forall i | 0 <= i < |r.log| ensures LogMatches(r, r.log[i]) {
      assert LogMatches(s, s.log[i]);
    }
    forall id | 0 <= id < |r.entries| && r.entries[id].fired ensures InLog(r.log, id) {
      assert id < |s.entries| && s.entries[id].fired;
    }
  }

  lemma ApplyKeepsLogged(s: State, op: Op)
    requires Wf(s) && Logged(s) && OpWf(op) && !op.Advance? && !op.AdvanceTo?
    ensures Logged(Apply(s, op))
  {
    ApplyGrown(s, op);
    GrownKeepsLogged(s, Apply(s, op));
  }

  lemma RearmKeepsCurrent(s: State, h: nat, d: int, p: nat)
    requires Shape(s) && Owned(s) && h < |s.timers| && Shape(Rearm(s, h, d))
    requires p in Rearm(s, h, d).pending && !Rearm(s, h, d).entries[p].stopped
    ensures IsCurrent(Rearm(s, h, d), p)
  {
    assert TimerOwns(s, h);
    if p < |s.entries| { assert IsCurrent(s, p); }
  }

  lemma HaltKeepsCurrent(s: State, k: nat, p: nat)
    requires Shape(s) && Owned(s) && k < |s.tickers| && Shape(HaltTicker(s, k))
    requires p in HaltTicker(s, k).pending && !HaltTicker(s, k).entries[p].stopped
    ensures IsCurrent(HaltTicker(s, k), p)
  {
    assert IsCurrent(s, p);
  }

  lemma ApplyKeepsCurrent(s: State, op: Op, p: nat)
    requires Shape(s) && Owned(s) && !op.Advance? && !op.AdvanceTo?
    requires p in Apply(s, op).pending && !Apply(s, op).entries[p].stopped
    ensures IsCurrent(Apply(s, op), p)
  {
    if op.ResetTimer? && op.timer < |s.timers| {
      RearmKeepsCurrent(s, op.timer, op.d, p);
    } else if op.StopTicker? && op.ticker < |s.tickers| {
      HaltKeepsCurrent(s, op.ticker, p);
    } else if p < |s.entries| {
      assert IsCurrent(s, p);
    }
  }

  lemma ApplyKeepsTimer(s: State, op: Op, h: nat)
    requires Shape(s) && Owned(s) && !op.Advance? && !op.AdvanceTo?
    requires h < |Apply(s, op).timers|
    ensures TimerOwns(Apply(s, op), h)
  {
    if h < |s.timers| { assert TimerOwns(s, h); }
  }

  lemma ApplyKeepsTicker(s: State, op: Op, k: nat)
    requires Shape(s) && Owned(s) && !op.Advance? && !op.AdvanceTo?
    requires k < |Apply(s, op).tickers|
    ensures TickerOwns(Apply(s, op), k)
  {
    if k < |s.tickers| {
      assert TickerOwns(s, k);
      if (op.StopTimer? || op.ResetTimer?) && op.timer < |s.timers| { assert TimerOwns(s, op.timer); }
      if op.StopTicker? && op.ticker < |s.tickers| { assert TickerOwns(s, op.ticker); }
    }
  }

  lemma ApplyKeepsOwned(s: State, op: Op)
    requires Shape(s) && Owned(s) && !op.Advance? && !op.AdvanceTo?
    ensures Owned(Apply(s, op))
  {
    var r := Apply(s, op);
    forall p | p in r.pending && !r.entries[p].stopped ensures IsCurrent(r, p) { ApplyKeepsCurrent(s, op, p); }
    forall h | 0 <= h < |r.timers| ensures TimerOwns(r, h) { ApplyKeepsTimer(s, op, h); }
    forall k | 0 <= k < |r.tickers| ensures TickerOwns(r, k) { ApplyKeepsTicker(s, op, k); }
  }

  lemma GrownKeepsSteady(s: State, r: State, k: nat)
    requires Wf(s) && Wf(r) && Logged(s) && Grown(s, r) && TickersGrown(s, r) && k < |r.tickers|
    requires k < |s.tickers| ==> Steady(s, k)
    ensures Steady(r, k)
  {
    if k >= |s.tickers| {
      forall i | 0 <= i < |s.log| ensures s.log[i].kind != Tick(k) { assert LogMatches(s, s.log[i]); }
      NoTicksYet(s.log, k);
    }
  }

  lemma ApplyKeepsSteady(s: State, op: Op)
    requires Wf(s) && Logged(s) && AllSteady(s) && OpWf(op) && !op.Advance? && !op.AdvanceTo?
    ensures AllSteady(Apply(s, op))
  {
    var r := Apply(s, op);
    ApplyGrown(s, op);
    forall k | 0 <= k < |r.tickers| ensures Steady(r, k) { GrownKeepsSteady(s, r, k); }
  }

  lemma GrownKeepsOrdered(s: State, r: State)
    requires Wf(s) && Ordered(s) && Grown(s, r)
    requires |r.entries| > |s.entries| ==> r.entries[|s.entries|].deadline >= s.now
    ensures Ordered(r)
  {
    GrownKeepsPrompt(s, r);
  }

  lemma GrownKeepsPrompt(s: State, r: State)
    requires Wf(s) && Prompt(s) && Grown(s, r)
    requires |r.entries| > |s.entries| ==> r.entries[|s.entries|].deadline >= s.now
    ensures Prompt(r)
  {}

  lemma ApplyKeepsOrdered(s: State, op: Op)
    requires Wf(s) && Ordered(s) && OpOk(op) && !op.Advance? && !op.AdvanceTo?
    ensures Ordered(Apply(s, op))
  {
    ApplyGrown(s, op);
    GrownKeepsOrdered(s, Apply(s, op));
  }

  lemma FireKeepsLogged(s: State, id: nat)
    requires Wf(s) && Logged(s) && id in s.pending
    ensures Logged(Fire(s, id))
  {
    var r := Fire(s, id);
    forall i | 0 <= i < |r.log| ensures LogMatches(r, r.log[i]) {
      if i < |s.log| { assert LogMatches(s, s.log[i]); }
    }
    forall i, j | 0 <= i < j < |r.log| ensures r.log[i].id != r.log[j].id {
      assert LogMatches(s, s.log[i]);
    }
    forall e | 0 <= e < |r.entries| && r.entries[e].fired ensures InLog(r.log, e) {
      if e == id {
        assert r.log[|s.log|].id == id;
      } else {
        assert InLog(s.log, e);
        var i :| 0 <= i < |s.log| && s.log[i].id == e;
        assert r.log[i].id == e;
      }
    }
  }

  lemma FireKeepsOwned(s: State, id: nat)
    requires Shape(s) && Owned(s) && id in s.pending
    requires s.entries[id].kind.Tick? ==> s.entries[id].stopped
    ensures Shape(Fire(s, id)) && Owned(Fire(s, id))
  {
    FireShape(s, id);
    var r := Fire(s, id);
    forall p | p in r.pending && !r.entries[p].stopped ensures IsCurrent(r, p) { assert IsCurrent(s, p); }
    forall h | 0 <= h < |r.timers| ensures TimerOwns(r, h) { assert TimerOwns(s, h); }
    forall k | 0 <= k < |r.tickers| ensures TickerOwns(r, k) { assert TickerOwns(s, k); }
  }

  lemma FireKeepsSteady(s: State, id: nat)
    requires Wf(s) && Owned(s) && AllSteady(s) && id in s.pending
    requires s.entries[id].kind.Tick? ==> s.entries[id].stopped
    ensures Wf(Fire(s, id)) && AllSteady(Fire(s, id))
  {
    FireShape(s, id);
    var r := Fire(s, id);
    forall k | 0 <= k < |r.tickers| ensures Steady(r, k) {
      assert Steady(s, k) && TickerOwns(s, k);
      if !s.entries[id].stopped {
        TickTimesAppend(s.log, r.log[|s.log|], k);
      }
    }
  }

  lemma FireKeepsOrdered(s: State, id: nat)
    requires Wf(s) && Ordered(s) && IsEarliest(s, id)
    ensures Ordered(Fire(s, id))
  {
    FireKeepsPrompt(s, id);
  }

  lemma FireKeepsPrompt(s: State, id: nat)
    requires Wf(s) && Prompt(s) && IsEarliest(s, id)
    ensures Prompt(Fire(s, id)) && Fire(s, id).now == s.entries[id].deadline
  {}

  lemma TickKeepsLogged(s: State, k: nat)
    requires Wf(s) && Logged(s) && k < |s.tickers|
    ensures Logged(TickerFire(s, k))
  {
    var r := TickerFire(s, k);
    forall i | 0 <= i < |r.log| ensures LogMatches(r, r.log[i]) { assert LogMatches(s, s.log[i]); }
    forall e | 0 <= e < |r.entries| && r.entries[e].fired ensures InLog(r.log, e) { assert InLog(s.log, e); }
  }

  lemma TickKeepsOrdered(s: State, k: nat)
    requires Wf(s) && Ordered(s) && k < |s.tickers|
    ensures Ordered(TickerFire(s, k))
  {}

  lemma TickKeepsOwned(s: State, id: nat, k: nat)
    requires Shape(s) && Owned(s) && id in s.pending
    requires s.entries[id].kind == Tick(k) && !s.entries[id].stopped
    ensures var r := TickerFire(Fire(s, id), k); Shape(r) && Owned(r)
  {
    TurnShape(s, id);
    assert IsCurrent(s, id);
    var r := TickerFire(Fire(s, id), k);
    forall p | p in r.pending && !r.entries[p].stopped ensures IsCurrent(r, p) {
      if p < |s.entries| { assert IsCurrent(s, p); }
    }
    TickKeepsOwners(s, id, k);
  }

  lemma TickKeepsOwners(s: State, id: nat, k: nat)
    requires Shape(s) && Owned(s) && id in s.pending && IsCurrent(s, id)
    requires s.entries[id].kind == Tick(k) && !s.entries[id].stopped
    ensures Shape(TickerFire(Fire(s, id), k))
    ensures var r := TickerFire(Fire(s, id), k);
            && (forall h :: 0 <= h < |r.timers| ==> TimerOwns(r, h))
            && (forall j :: 0 <= j < |r.tickers| ==> TickerOwns(r, j))
  {
    TurnShape(s, id);
    var r := TickerFire(Fire(s, id), k);
    forall h | 0 <= h < |r.timers| ensures TimerOwns(r, h) { assert TimerOwns(s, h); }
    forall j | 0 <= j < |r.tickers| ensures TickerOwns(r, j) { assert TickerOwns(s, j); }
  }

  lemma NextTickAt(t: Ticker, j: nat)
    ensures TickAt(t, j + 1) == TickAt(t, j) + t.interval
  {
    assert (j + 1) * t.interval == j * t.interval + t.interval;
  }

  /** One tick of ticker `k` moves its own series on by one and leaves the others. */
  lemma TickKeepsSteadyAt(s: State, r: State, k: nat, j: nat)
    requires Wf(s) && Wf(r) && k < |s.tickers| == |r.tickers| && j < |s.tickers|
    requires Steady(s, j) && !s.tickers[k].stopped
    requires r.log == s.log + [Firing(s.tickers[k].entry, Tick(k), s.entries[s.tickers[k].entry].deadline, r.now)]
    requires j != k ==> r.tickers[j] == s.tickers[j]
    requires j != k ==> r.entries[s.tickers[j].entry].deadline == s.entries[s.tickers[j].entry].deadline
    requires r.tickers[k] == s.tickers[k].(entry := |s.entries|) && |r.entries| == |s.entries| + 1
    requires r.entries[|s.entries|].deadline == s.entries[s.tickers[k].entry].deadline + s.tickers[k].interval
    ensures Steady(r, j)
  {
    TickTimesAppend(s.log, r.log[|s.log|], j);
    NextTickAt(s.tickers[k], |TickTimes(s.log, k)| + 1);
    if j != k {
      assert TickTimes(r.log, j) == TickTimes(s.log, j);
    }
  }

  lemma TickKeepsSteady(s: State, id: nat, k: nat)
    requires Wf(s) && Owned(s) && AllSteady(s) && id in s.pending
    requires s.entries[id].kind == Tick(k) && !s.entries[id].stopped
    ensures var r := TickerFire(Fire(s, id), k); Wf(r) && AllSteady(r)
  {
    var r := TickerFire(Fire(s, id), k);
    TurnShape(s, id);
    assert IsCurrent(s, id);
    forall j | 0 <= j < |r.tickers| ensures Steady(r, j) { TickKeepsSteadyAt(s, r, k, j); }
  }

  // ---------- and so does every run ----------

  /** The invariant does not look at the time, the channels or the script. */
  lemma InvIgnores(a: State, b: State)
    requires Inv(a) && Wf(b)
    requires a.entries == b.entries && a.pending == b.pending && a.log == b.log
    requires a.timers == b.timers && a.tickers == b.tickers
    ensures Inv(b)
  {
    LoggedIgnores(a, b);
    OwnedIgnores(a, b);
    forall k | 0 <= k < |b.tickers| ensures Steady(b, k) { assert Steady(a, k); }
  }

  lemma LoggedIgnores(a: State, b: State)
    requires Logged(a) && a.entries == b.entries && a.pending == b.pending && a.log == b.log
    ensures Logged(b)
  {
    forall i | 0 <= i < |b.log| ensures LogMatches(b, b.log[i]) { assert LogMatches(a, a.log[i]); }
  }

  lemma TurnKeepsOwned(s: State, id: nat)
    requires Shape(s) && Owned(s) && id in s.pending
    ensures Shape(Turn(s, id)) && Owned(Turn(s, id))
  {
    TurnShape(s, id);
    var e, f := s.entries[id], Fire(s, id);
    if e.kind.Tick? && !e.stopped {
      TickKeepsOwned(s, id, e.kind.ticker);
    } else {
      FireKeepsOwned(s, id);
      OwnedIgnores(f, Turn(s, id));
    }
  }

  lemma OwnedIgnores(a: State, b: State)
    requires Shape(a) && Owned(a) && Shape(b)
    requires a.entries == b.entries && a.pending == b.pending && a.timers == b.timers && a.tickers == b.tickers
    ensures Owned(b)
  {
    forall p | p in b.pending && !b.entries[p].stopped ensures IsCurrent(b, p) { assert IsCurrent(a, p); }
    forall h | 0 <= h < |b.timers| ensures TimerOwns(b, h) { assert TimerOwns(a, h); }
    forall k | 0 <= k < |b.tickers| ensures TickerOwns(b, k) { assert TickerOwns(a, k); }
  }

  lemma TurnKeepsInv(s: State, id: nat)
    requires Inv(s) && id in s.pending
    ensures Inv(Turn(s, id))
  {
    var e, f := s.entries[id], Fire(s, id);
    FireShape(s, id);
    FireKeepsLogged(s, id);
    if e.kind.Tick? && !e.stopped {
      TickKeepsOwned(s, id, e.kind.ticker);
      TickKeepsSteady(s, id, e.kind.ticker);
      TickKeepsLogged(f, e.kind.ticker);
    } else {
      FireKeepsOwned(s, id);
      FireKeepsSteady(s, id);
      TurnDecreases(s, e.deadline, id);
      InvIgnores(f, Turn(s, id));
    }
  }

  lemma ApplyKeepsInv(s: State, op: Op)
    requires Inv(s) && OpWf(op) && !op.Advance? && !op.AdvanceTo?
    ensures Inv(Apply(s, op))
  {
    ApplyKeepsLogged(s, op);
    ApplyKeepsOwned(s, op);
    ApplyKeepsSteady(s, op);
  }

  lemma {:induction false} AdvanceKeepsInv(s: State, target: int)
    requires Inv(s)
    ensures Inv(AdvanceLoop(s, target))
    decreases |s.script|, 0, TurnsLeft(s, target)
  {
    if s.blocked {
    } else if !Due(s, target) {
      InvIgnores(s, Finish(s, target));
    } else {
      var id := Earliest(s);
      TurnDecreases(s, target, id);
      TurnKeepsInv(s, id);
      var t := Turn(s, id);
      if CallsBack(s, id) {
        var called := t.(script := t.script[1..]);
        InvIgnores(t, called);
        RunKeepsInv(called, t.script[0]);
        AdvanceKeepsInv(RunOps(called, t.script[0]), target);
      } else {
        AdvanceKeepsInv(t, target);
      }
    }
  }

  lemma {:induction false} RunKeepsInv(s: State, ops: seq<Op>)
    requires Inv(s) && OpsWf(ops)
    ensures Inv(RunOps(s, ops))
    decreases |s.script|, 2, |ops|
  {
    if ops != [] && !s.blocked {
      ExecKeepsInv(s, ops[0]);
      RunKeepsInv(Exec(s, ops[0]), ops[1..]);
    }
  }

  lemma {:induction false} ExecKeepsInv(s: State, op: Op)
    requires Inv(s) && OpWf(op)
    ensures Inv(Exec(s, op))
    decreases |s.script|, 1, 0
  {
    match op
    case Advance(d) => AdvanceKeepsInv(s, s.now + d);
    case AdvanceTo(t) => AdvanceKeepsInv(s, t);
    case _ => ApplyKeepsInv(s, op);
  }
}
