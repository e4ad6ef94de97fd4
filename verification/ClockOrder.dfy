/** The order of firings, for every run whatever its delays and targets: strictly
    increasing in (deadline, sequence) if and only if nothing that fired had been
    armed for a time before the last firing. */
module ClockOrder {
  import opened ClockModel
  import opened ClockRuns
  import opened ClockTheorems

  // ---------- what arming late means ----------

  predicate Arms(op: Op) {
    op.AfterFunc? || op.NewTimer? || op.NewTicker? || op.ResetTimer?
  }

  /** The late entries grow by the new one, if its time is before the last firing. */
  ghost predicate LateGrown(s: State, r: State) {
    && |s.entries| <= |r.entries|
    && r.late == s.late + (if |r.entries| > |s.entries| && Behind(s.log, r.entries[|s.entries|].deadline)
                           then {|s.entries|} else {})
  }

  /** The guard a caller can check before AfterFunc, NewTimer, NewTicker and Reset: what it
      arms is late exactly when now + d is before the last firing. */
  lemma ApplyLate(s: State, op: Op)
    requires Wf(s) && OpWf(op) && !MovesTime(op)
    ensures var r := Apply(s, op);
            && LateGrown(s, r)
            && (|s.entries| !in s.late ==>
                  (|s.entries| in r.late <==> |r.entries| > |s.entries| && Arms(op) && Behind(s.log, s.now + op.d)))
  {
    ApplyGrown(s, op);
  }

  /** A ticker that re-arms itself is never late. */
  lemma TickNeverLate(s: State, id: nat)
    requires Wf(s) && id in s.pending && !s.entries[id].stopped && s.entries[id].kind.Tick?
    ensures Turn(s, id).late == s.late
  {
    FireShape(s, id);
  }

  // ---------- the invariant ----------

  ghost predicate Overtaken(log: seq<Firing>, n: nat, deadline: int) {
    exists i :: 0 <= i < n && i < |log| && deadline < log[i].deadline
  }

  /** The entry comes after the last firing. */
  predicate Follows(s: State, p: nat)
    requires p < |s.entries|
  {
    s.log == [] || FiredBefore(s.log[|s.log| - 1], Firing(p, s.entries[p].kind, s.entries[p].deadline, s.now))
  }

  /** A late entry has been overtaken by an earlier firing; every other one comes after
      the firing before it. */
  ghost predicate Sequenced(s: State) {
    && (forall p :: p in s.late ==> p < |s.entries|)
    && (forall j :: 0 <= j < |s.log| ==> s.log[j].id < |s.entries|)
    && (forall p :: p in s.pending && p < |s.entries| ==>
          if p in s.late then Overtaken(s.log, |s.log|, s.entries[p].deadline) else Follows(s, p))
    && (forall j :: 0 <= j < |s.log| && s.log[j].id in s.late ==> Overtaken(s.log, j, s.log[j].deadline))
    && (forall j {:trigger StepsUp(s.log, j)} :: 0 < j < |s.log| && s.log[j].id !in s.late ==> StepsUp(s.log, j))
  }

  /** The firing comes after the one before it. */
  predicate StepsUp(log: seq<Firing>, j: nat)
    requires 0 < j < |log|
  {
    FiredBefore(log[j - 1], log[j])
  }

  lemma {:induction false} StepsIncrease(log: seq<Firing>, i: nat, j: nat)
    requires forall k {:trigger StepsUp(log, k)} :: 0 < k < |log| ==> StepsUp(log, k)
    requires i < j < |log|
    ensures FiredBefore(log[i], log[j])
    decreases j - i
  {
    assert StepsUp(log, j);
    if i + 1 < j { StepsIncrease(log, i, j - 1); }
  }

  /** In a sequenced state the log is in order exactly when nothing in it was late. */
  lemma InOrderIffNoneLate(s: State)
    requires Sequenced(s)
    ensures Increasing(s.log) <==> forall j :: 0 <= j < |s.log| ==> s.log[j].id !in s.late
  {
    if forall j :: 0 <= j < |s.log| ==> s.log[j].id !in s.late {
      forall i, j | 0 <= i < j < |s.log| ensures FiredBefore(s.log[i], s.log[j]) { StepsIncrease(s.log, i, j); }
    } else {
      var j :| 0 <= j < |s.log| && s.log[j].id in s.late;
      var i :| 0 <= i < j && s.log[j].deadline < s.log[i].deadline;
      assert !FiredBefore(s.log[i], s.log[j]);
    }
  }

  // ---------- every step keeps it ----------

  lemma GrownKeepsSequenced(s: State, r: State)
    requires Wf(s) && Sequenced(s) && Grown(s, r) && LateGrown(s, r)
    ensures Sequenced(r)
  {
    var n := |s.entries|;
    forall p | p in r.pending && p < |r.entries|
      ensures if p in r.late then Overtaken(r.log, |r.log|, r.entries[p].deadline) else Follows(r, p)
    {
      if p < n {
        assert if p in s.late then Overtaken(s.log, |s.log|, s.entries[p].deadline) else Follows(s, p);
      } else if Behind(s.log, r.entries[n].deadline) {
        assert r.entries[n].deadline < r.log[|s.log| - 1].deadline;
      }
    }
    forall j | 0 <= j < |r.log| && r.log[j].id in r.late ensures Overtaken(r.log, j, r.log[j].deadline) {
      assert s.log[j].id in s.late;
    }
  }

  lemma FireKeepsSequenced(s: State, id: nat)
    requires Wf(s) && Sequenced(s) && IsEarliest(s, id)
    ensures Sequenced(Fire(s, id))
  {
    var r, n := Fire(s, id), |s.log|;
    if s.entries[id].stopped { return; }
    forall p | p in r.pending && p < |r.entries|
      ensures if p in r.late then Overtaken(r.log, |r.log|, r.entries[p].deadline) else Follows(r, p)
    {
      assert Before(s.entries, id, p);
      if p in s.late { OvertakenStays(s.log, r.log, n, s.entries[p].deadline); }
    }
    forall j | 0 <= j < |r.log| && r.log[j].id in r.late ensures Overtaken(r.log, j, r.log[j].deadline) {
      OvertakenStays(s.log, r.log, j, r.log[j].deadline);
    }
    forall j | 0 < j < |r.log| && r.log[j].id !in r.late ensures StepsUp(r.log, j) {
      if j == n { assert Follows(s, id); } else { assert StepsUp(s.log, j); }
    }
  }

  lemma OvertakenStays(log: seq<Firing>, more: seq<Firing>, n: nat, deadline: int)
    requires log <= more && n <= |log| && Overtaken(log, n, deadline)
    ensures Overtaken(more, n, deadline)
  {
    var i :| 0 <= i < n && i < |log| && deadline < log[i].deadline;
    assert deadline < more[i].deadline;
  }

  lemma SequencedIgnores(a: State, b: State)
    requires Sequenced(a) && a.entries == b.entries && a.pending == b.pending && a.log == b.log && a.late == b.late
    ensures Sequenced(b)
  {
    assert forall p :: p in a.pending && p < |a.entries| && p !in a.late ==> Follows(a, p) && Follows(b, p);
  }

  lemma TickGrows(s: State, k: nat)
    requires Wf(s) && k < |s.tickers|
    ensures Grown(s, TickerFire(s, k)) && LateGrown(s, TickerFire(s, k))
  {}

  lemma TurnKeepsSequenced(s: State, id: nat)
    requires Wf(s) && Sequenced(s) && IsEarliest(s, id)
    ensures Sequenced(Turn(s, id))
  {
    FireShape(s, id);
    FireKeepsSequenced(s, id);
    var f, e := Fire(s, id), s.entries[id];
    if !e.stopped && e.kind.Tick? {
      TickGrows(f, e.kind.ticker);
      GrownKeepsSequenced(f, TickerFire(f, e.kind.ticker));
    } else {
      SequencedIgnores(f, Turn(s, id));
    }
  }

  lemma {:induction false} AdvanceKeepsSequenced(s: State, target: int)
    requires Wf(s) && Sequenced(s)
    ensures Sequenced(AdvanceLoop(s, target))
    decreases |s.script|, 0, TurnsLeft(s, target)
  {
    if s.blocked {
    } else if !Due(s, target) {
      SequencedIgnores(s, Finish(s, target));
    } else {
      var id := Earliest(s);
      TurnDecreases(s, target, id);
      TurnKeepsSequenced(s, id);
      var t := Turn(s, id);
      if CallsBack(s, id) {
        var called := t.(script := t.script[1..]);
        SequencedIgnores(t, called);
        RunKeepsSequenced(called, t.script[0]);
        AdvanceKeepsSequenced(RunOps(called, t.script[0]), target);
      } else {
        AdvanceKeepsSequenced(t, target);
      }
    }
  }

  lemma {:induction false} RunKeepsSequenced(s: State, ops: seq<Op>)
    requires Wf(s) && Sequenced(s) && OpsWf(ops)
    ensures Sequenced(RunOps(s, ops))
    decreases |s.script|, 2, |ops|
  {
    if ops != [] && !s.blocked {
      ExecKeepsSequenced(s, ops[0]);
      RunKeepsSequenced(Exec(s, ops[0]), ops[1..]);
    }
  }

  lemma {:induction false} ExecKeepsSequenced(s: State, op: Op)
    requires Wf(s) && Sequenced(s) && OpWf(op)
    ensures Sequenced(Exec(s, op))
    decreases |s.script|, 1, 0
  {
    if op.Advance? {
      AdvanceKeepsSequenced(s, s.now + op.d);
    } else if op.AdvanceTo? {
      AdvanceKeepsSequenced(s, op.target);
    } else {
      ApplyGrown(s, op);
      ApplyLate(s, op);
      GrownKeepsSequenced(s, Apply(s, op));
    }
  }

  // ---------- the order of every run ----------

  /** Whatever a program and its callbacks do, with any delays and targets and with
      advances inside callbacks: the firings come in strictly increasing (deadline,
      sequence) order if and only if none of them had been armed for a time before the
      last firing; and always each is seen at its own deadline, and none twice. */
  lemma RunFiresInOrderIff(start: int, script: seq<seq<Op>>, ops: seq<Op>)
    requires OpsWf(ops) && Wf(Init(start, script))
    ensures var r := RunOps(Init(start, script), ops);
            && (Increasing(r.log) <==> forall i :: 0 <= i < |r.log| ==> r.log[i].id !in r.late)
            && (forall i :: 0 <= i < |r.log| ==> r.log[i].seen == r.log[i].deadline)
            && (forall i, j :: 0 <= i < j < |r.log| ==> r.log[i].id != r.log[j].id)
  {
    var s := Init(start, script);
    assert Inv(s) && Sequenced(s);
    RunKeepsSequenced(s, ops);
    RunKeepsInv(s, ops);
    var r := RunOps(s, ops);
    InOrderIffNoneLate(r);
    assert forall i :: 0 <= i < |r.log| ==> LogMatches(r, r.log[i]);
  }

  /** With no negative delay, only a clock that was set back arms late. */
  lemma LateOnlyAfterRewind(s: State, op: Op)
    requires Wf(s) && Prompt(s) && OpOk(op) && !MovesTime(op)
    ensures Apply(s, op).late == s.late
  {
    ApplyGrown(s, op);
    ApplyLate(s, op);
  }

  // ---------- delays that reach back ----------

  predicate NoAdvances(ops: seq<Op>) {
    forall i :: 0 <= i < |ops| ==> !MovesTime(ops[i])
  }

  predicate FlatScript(script: seq<seq<Op>>) {
    forall i :: 0 <= i < |script| ==> NoAdvances(script[i])
  }

  lemma ApplyKeepsPrompt(s: State, op: Op)
    requires Wf(s) && Prompt(s) && OpOk(op) && !MovesTime(op)
    ensures Prompt(Apply(s, op))
  {
    ApplyGrown(s, op);
    GrownKeepsPrompt(s, Apply(s, op));
  }

  lemma TurnKeepsPrompt(s: State, id: nat)
    requires Wf(s) && Prompt(s) && IsEarliest(s, id)
    ensures Prompt(Turn(s, id))
  {
    FireShape(s, id);
    FireKeepsPrompt(s, id);
    var f, e := Fire(s, id), s.entries[id];
    if !e.stopped && e.kind.Tick? {
      TickGrows(f, e.kind.ticker);
      GrownKeepsPrompt(f, TickerFire(f, e.kind.ticker));
    }
  }

  lemma {:induction false} FlatRunPrompt(s: State, ops: seq<Op>)
    requires Wf(s) && Prompt(s) && OpsOk(ops) && NoAdvances(ops)
    ensures Prompt(RunOps(s, ops)) && RunOps(s, ops).script == s.script
    decreases |ops|
  {
    if ops != [] && !s.blocked {
      ApplyKeepsPrompt(s, ops[0]);
      assert forall i :: 0 <= i < |ops[1..]| ==> ops[1..][i] == ops[i + 1];
      FlatRunPrompt(Apply(s, ops[0]), ops[1..]);
    }
  }

  lemma {:induction false} FlatAdvancePrompt(s: State, target: int)
    requires Wf(s) && Prompt(s) && ScriptOk(s.script) && FlatScript(s.script)
    ensures Increasing(AdvanceLoop(s, target).log)
    decreases |s.script|, TurnsLeft(s, target)
  {
    if !s.blocked && Due(s, target) {
      var id := Earliest(s);
      TurnDecreases(s, target, id);
      TurnKeepsPrompt(s, id);
      var t := Turn(s, id);
      if CallsBack(s, id) {
        var called := t.(script := t.script[1..]);
        FlatRunPrompt(called, t.script[0]);
        FlatAdvancePrompt(RunOps(called, t.script[0]), target);
      } else {
        FlatAdvancePrompt(t, target);
      }
    }
  }

  /** A delay of any sign, armed while anything else is pending and with callbacks that do
      not themselves advance: the advance that reaches it leaves the log in order if and
      only if the delay does not reach behind the last firing. */
  lemma DelayKeepsOrderIff(s: State, d: int, target: int)
    requires Wf(s) && Ordered(s) && !s.blocked && ScriptOk(s.script) && FlatScript(s.script)
    requires s.now + d <= target
    ensures Increasing(AdvanceLoop(Apply(s, AfterFunc(d)), target).log) <==> !Behind(s.log, s.now + d)
  {
    var s1, n := Apply(s, AfterFunc(d)), |s.entries|;
    if Behind(s.log, s.now + d) {
      assert IsEarliest(s1, n);
      assert Earliest(s1) == n;
      TurnDecreases(s1, target, n);
      var t := Turn(s1, n);
      assert !FiredBefore(t.log[|s.log| - 1], t.log[|s.log|]);
      LogGrows(s1, target, n);
    } else {
      assert Prompt(s1);
      FlatAdvancePrompt(s1, target);
    }
  }

  /** What the first turn logs stays logged. */
  lemma LogGrows(s: State, target: int, id: nat)
    requires Wf(s) && !s.blocked && IsEarliest(s, id) && Earliest(s) == id && s.entries[id].deadline <= target
    ensures Turn(s, id).log <= AdvanceLoop(s, target).log
  {
    TurnDecreases(s, target, id);
    var t := Turn(s, id);
    if CallsBack(s, id) {
      var called := t.(script := t.script[1..]);
      var back := RunOps(called, t.script[0]);
      RunLater(called, t.script[0]);
      AdvanceLater(back, target);
      LaterTrans(called, back, AdvanceLoop(back, target));
    } else {
      AdvanceLater(t, target);
    }
  }

  // ---------- a run out of order ----------

  /** With nothing due, an advance does nothing but set the clock. */
  lemma IdleAdvance(s: State, target: int)
    requires Wf(s) && !s.blocked
    requires forall p :: p in s.pending ==> s.entries[p].deadline > target
    ensures AdvanceLoop(s, target) == Finish(s, target)
  {}

  /** A clock with nothing pending and no callback left to run. */
  ghost predicate Quiet(s: State) {
    Wf(s) && !s.blocked && s.script == [] && s.pending == {}
  }

  /** A callback armed on a quiet clock, and an advance that reaches it. */
  lemma ArmAndFire(s: State, d: int, target: int)
    requires Quiet(s) && s.now + d <= target
    ensures var r := AdvanceLoop(Apply(s, AfterFunc(d)), target);
            && Quiet(r) && r.now == target
            && r.log == s.log + [Firing(|s.entries|, Func(|s.timers|), s.now + d, s.now + d)]
            && |r.entries| == |s.entries| + 1
  {
    var s1, id := Apply(s, AfterFunc(d)), |s.entries|;
    assert IsEarliest(s1, id);
    assert Earliest(s1) == id;
    TurnDecreases(s1, target, id);
    assert Turn(s1, id).pending == {};
    IdleAdvance(Turn(s1, id), target);
  }

  lemma OneOp(s: State, op: Op, rest: seq<Op>)
    requires Wf(s) && !s.blocked && OpWf(op) && OpsWf(rest)
    ensures OpsWf([op] + rest) && RunOps(s, [op] + rest) == RunOps(Exec(s, op), rest)
  {
    assert ([op] + rest)[1..] == rest;
  }

  /** The same as part of a program. */
  lemma RunArmAndFire(s: State, d: int, target: int, rest: seq<Op>)
    requires Quiet(s) && s.now + d <= target && OpsWf(rest)
    ensures OpsWf([AfterFunc(d)] + ([AdvanceTo(target)] + rest))
    ensures RunOps(s, [AfterFunc(d)] + ([AdvanceTo(target)] + rest))
         == RunOps(AdvanceLoop(Apply(s, AfterFunc(d)), target), rest)
  {
    OneOp(Apply(s, AfterFunc(d)), AdvanceTo(target), rest);
    OneOp(s, AfterFunc(d), [AdvanceTo(target)] + rest);
  }

  lemma TwoInOrder(log: seq<Firing>)
    requires |log| == 2 && log[0].id < log[1].id
    ensures Increasing(log) <==> log[0].deadline <= log[1].deadline
  {
    if log[1].deadline < log[0].deadline { assert !FiredBefore(log[0], log[1]); }
  }

  function ArmAndReach(d: int, target: int): seq<Op> {
    [AfterFunc(d)] + ([AdvanceTo(target)] + [])
  }

  lemma RunArmAndReach(s: State, d: int, target: int)
    requires Quiet(s) && s.now + d <= target
    ensures OpsWf(ArmAndReach(d, target))
    ensures RunOps(s, ArmAndReach(d, target)).log
         == s.log + [Firing(|s.entries|, Func(|s.timers|), s.now + d, s.now + d)]
  {
    ArmAndFire(s, d, target);
    RunArmAndFire(s, d, target, []);
  }

  lemma RunBack(s: State, back: int, rest: seq<Op>)
    requires Quiet(s) && OpsWf(rest)
    ensures OpsWf([AdvanceTo(back)] + rest) && Quiet(Finish(s, back))
    ensures RunOps(s, [AdvanceTo(back)] + rest) == RunOps(Finish(s, back), rest)
  {
    IdleAdvance(s, back);
    OneOp(s, AdvanceTo(back), rest);
  }

  lemma FiresTwice(s: State, a: int, target: int, back: int, b: int, end: int) returns (log: seq<Firing>)
    requires Quiet(s) && s.log == [] && s.now + a <= target && back + b <= end
    ensures var ops := [AfterFunc(a)] + ([AdvanceTo(target)] + ([AdvanceTo(back)] + ArmAndReach(b, end)));
            OpsWf(ops) && log == RunOps(s, ops).log
    ensures |log| == 2 && log[0].id < log[1].id && log[0].deadline == s.now + a && log[1].deadline == back + b
  {
    ArmAndFire(s, a, target);
    var s1, last := AdvanceLoop(Apply(s, AfterFunc(a)), target), ArmAndReach(b, end);
    log := FiresAfterBack(s1, back, b, end);
    RunArmAndFire(s, a, target, [AdvanceTo(back)] + last);
  }

  lemma FiresAfterBack(s: State, back: int, b: int, end: int) returns (log: seq<Firing>)
    requires Quiet(s) && back + b <= end
    ensures OpsWf([AdvanceTo(back)] + ArmAndReach(b, end)) && log == RunOps(s, [AdvanceTo(back)] + ArmAndReach(b, end)).log
    ensures log == s.log + [Firing(|s.entries|, Func(|s.timers|), back + b, back + b)]
  {
    RunBack(s, back, ArmAndReach(b, end));
    RunArmAndReach(Finish(s, back), b, end);
    log := RunOps(Finish(s, back), ArmAndReach(b, end)).log;
  }

  /** Arm and fire, set the clock to `back`, arm and fire again: the two firings are in
      order if and only if the second is not due before the first. */
  lemma SettingBackOrderIff(start: int, a: int, target: int, back: int, b: int, end: int)
    requires start + a <= target && back + b <= end
    ensures var ops := [AfterFunc(a)] + ([AdvanceTo(target)] + ([AdvanceTo(back)] + ArmAndReach(b, end)));
            && Wf(Init(start, [])) && OpsWf(ops)
            && (Increasing(RunOps(Init(start, []), ops).log) <==> start + a <= back + b)
  {
    var log := FiresTwice(Init(start, []), a, target, back, b, end);
    TwoInOrder(log);
  }

  /** Fired at 5, set back to 0, armed for 1: the log reads 5, then 1. */
  lemma SettingBackDisorders()
    ensures var ops := [AfterFunc(5), AdvanceTo(10), AdvanceTo(0), AfterFunc(1), AdvanceTo(2)];
            && Wf(Init(0, [])) && OpsWf(ops) && !Increasing(RunOps(Init(0, []), ops).log)
  {
    SettingBackOrderIff(0, 5, 10, 0, 1, 2);
    assert [AfterFunc(5), AdvanceTo(10), AdvanceTo(0), AfterFunc(1), AdvanceTo(2)]
        == [AfterFunc(5)] + ([AdvanceTo(10)] + ([AdvanceTo(0)] + ArmAndReach(1, 2)));
  }
}
