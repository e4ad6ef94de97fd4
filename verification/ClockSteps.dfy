/** The clock one step at a time, so that advances that never return can be spoken of.

    A machine is the clock with a stack of what is under way: the calls still to be made
    by the program or by a callback, and the loops of advanceTo.  Where every interval is
    positive it comes to the result of the model's advance.  A ticker without a positive
    interval keeps the loop turning until a callback stops it. */
module ClockSteps {
  import opened Collections
  import opened ClockModel
  import opened ClockTheorems

  /** Calls still to be made, by the program or by the callback of an entry; or a loop. */
  datatype Frame = Calls(who: Option<nat>, ops: seq<Op>) | Loop(target: int)

  /** The top of the stack is its last element. */
  datatype Machine = Machine(s: State, stack: seq<Frame>)

  /** One turn of the loop of advanceTo, up to the first call of a callback. */
  ghost function StepLoop(s: State, below: seq<Frame>, target: int): (r: Machine)
    requires Shape(s)
    ensures Shape(r.s)
  {
    if !Due(s, target) then Machine(Finish(s, target), below)
    else
      var id := Earliest(s);
      TurnShape(s, id);
      var t := Turn(s, id);
      if CallsBack(s, id) then
        Machine(t.(script := t.script[1..]), below + [Loop(target)] + [Calls(Some(id), t.script[0])])
      else Machine(t, below + [Loop(target)])
  }

  /** One call, or the return from the last. */
  ghost function StepCalls(s: State, below: seq<Frame>, who: Option<nat>, ops: seq<Op>): (r: Machine)
    requires Shape(s)
    ensures Shape(r.s)
  {
    if ops == [] then Machine(s, below)
    else
      var rest := below + [Calls(who, ops[1..])];
      if ops[0].Advance? then Machine(s, rest + [Loop(s.now + ops[0].d)])
      else if ops[0].AdvanceTo? then Machine(s, rest + [Loop(ops[0].target)])
      else Machine(Apply(s, ops[0]), rest)
  }

  /** A machine with an empty stack, or one that waits to send, stays as it is. */
  ghost function Step(m: Machine): (r: Machine)
    ensures Shape(m.s) ==> Shape(r.s)
  {
    if m.stack == [] || m.s.blocked || !Shape(m.s) then m
    else
      var n := |m.stack| - 1;
      match m.stack[n]
      case Loop(target) => StepLoop(m.s, m.stack[..n], target)
      case Calls(who, ops) => StepCalls(m.s, m.stack[..n], who, ops)
  }

  ghost function Steps(m: Machine, n: nat): Machine {
    Iterate(Step, m, n)
  }

  lemma StepsOne(m: Machine, n: nat, next: Machine)
    requires next == Step(m) && n > 0
    ensures Steps(m, n) == Steps(next, n - 1)
  {}

  lemma StepsAdd(m: Machine, a: nat, b: nat)
    ensures Steps(m, a + b) == Steps(Steps(m, a), b)
  {
    IterateAdd(Step, m, a, b);
  }

  lemma StepsLast(m: Machine, n: nat, x: Machine)
    requires x == Steps(m, n)
    ensures Steps(m, n + 1) == Step(x)
  {
    StepsAdd(m, n, 1);
    StepsOne(x, 1, Step(x));
  }

  // ---------- where every interval is positive ----------

  /** After n steps the clock is in state r, and unless it waits the stack is `below`. */
  ghost predicate Reaches(m: Machine, n: nat, r: State, below: seq<Frame>) {
    Steps(m, n).s == r && (!r.blocked ==> Steps(m, n).stack == below)
  }

  lemma StepOnLoop(s: State, below: seq<Frame>, target: int)
    requires Shape(s) && !s.blocked
    ensures Step(Machine(s, below + [Loop(target)])) == StepLoop(s, below, target)
  {
    assert (below + [Loop(target)])[..|below|] == below;
  }

  lemma StepOnCalls(s: State, below: seq<Frame>, who: Option<nat>, ops: seq<Op>)
    requires Shape(s) && !s.blocked
    ensures Step(Machine(s, below + [Calls(who, ops)])) == StepCalls(s, below, who, ops)
  {
    assert (below + [Calls(who, ops)])[..|below|] == below;
  }

  lemma ReachesMore(m: Machine, a: nat, mid: Machine, b: nat, r: State, below: seq<Frame>)
    requires Steps(m, a) == mid && Reaches(mid, b, r, below)
    ensures Reaches(m, a + b, r, below)
  {
    StepsAdd(m, a, b);
  }

  /** The steps of an advance come to the result of the model's. */
  lemma {:induction false} AdvanceSteps(s: State, target: int, below: seq<Frame>) returns (n: nat)
    requires Wf(s)
    ensures Reaches(Machine(s, below + [Loop(target)]), n, AdvanceLoop(s, target), below)
    decreases |s.script|, 0, TurnsLeft(s, target)
  {
    var m := Machine(s, below + [Loop(target)]);
    if s.blocked { return 0; }
    StepOnLoop(s, below, target);
    StepsOne(m, 1, Step(m));
    if !Due(s, target) { return 1; }
    var id := Earliest(s);
    TurnDecreases(s, target, id);
    var t := Turn(s, id);
    if CallsBack(s, id) {
      var called := t.(script := t.script[1..]);
      var a := RunSteps(called, Some(id), t.script[0], below + [Loop(target)]);
      n := AfterCallback(Step(m), a, RunOps(called, t.script[0]), below, target);
      ReachesMore(m, 1, Step(m), n, AdvanceLoop(s, target), below);
      n := 1 + n;
    } else {
      n := AdvanceSteps(t, target, below);
      ReachesMore(m, 1, Step(m), n, AdvanceLoop(s, target), below);
      n := 1 + n;
    }
  }

  /** Back from the callback, the loop goes on. */
  lemma {:induction false} AfterCallback(m: Machine, a: nat, back: State, below: seq<Frame>, target: int) returns (n: nat)
    requires Wf(back) && Reaches(m, a, back, below + [Loop(target)])
    ensures Reaches(m, n, AdvanceLoop(back, target), below)
    decreases |back.script|, 3, 0
  {
    if back.blocked { return a; }
    var b := AdvanceSteps(back, target, below);
    ReachesMore(m, a, Machine(back, below + [Loop(target)]), b, AdvanceLoop(back, target), below);
    n := a + b;
  }

  lemma {:induction false} RunSteps(s: State, who: Option<nat>, ops: seq<Op>, below: seq<Frame>) returns (n: nat)
    requires Wf(s) && OpsWf(ops)
    ensures Reaches(Machine(s, below + [Calls(who, ops)]), n, RunOps(s, ops), below)
    decreases |s.script|, 2, |ops|
  {
    var m := Machine(s, below + [Calls(who, ops)]);
    if s.blocked { return 0; }
    if ops == [] {
      StepOnCalls(s, below, who, ops);
      StepsOne(m, 1, Step(m));
      return 1;
    }
    var a := ExecSteps(s, who, ops, below);
    var next := Exec(s, ops[0]);
    if next.blocked { return a; }
    var b := RunSteps(next, who, ops[1..], below);
    ReachesMore(m, a, Machine(next, below + [Calls(who, ops[1..])]), b, RunOps(s, ops), below);
    n := a + b;
  }

  function AskedFor(now: int, op: Op): int
    requires MovesTime(op)
  {
    if op.Advance? then now + op.d else op.target
  }

  lemma FirstCall(s: State, who: Option<nat>, ops: seq<Op>, below: seq<Frame>)
    requires Shape(s) && ops != [] && !s.blocked
    ensures var rest := below + [Calls(who, ops[1..])];
            Steps(Machine(s, below + [Calls(who, ops)]), 1)
            == if MovesTime(ops[0]) then Machine(s, rest + [Loop(AskedFor(s.now, ops[0]))]) else Machine(Apply(s, ops[0]), rest)
  {
    var m := Machine(s, below + [Calls(who, ops)]);
    StepOnCalls(s, below, who, ops);
    StepsOne(m, 1, Step(m));
  }

  lemma {:induction false} ExecSteps(s: State, who: Option<nat>, ops: seq<Op>, below: seq<Frame>) returns (n: nat)
    requires Wf(s) && OpsWf(ops) && ops != [] && !s.blocked
    ensures Reaches(Machine(s, below + [Calls(who, ops)]), n, Exec(s, ops[0]), below + [Calls(who, ops[1..])])
    decreases |s.script|, 1, 0
  {
    var m, rest := Machine(s, below + [Calls(who, ops)]), below + [Calls(who, ops[1..])];
    FirstCall(s, who, ops, below);
    if MovesTime(ops[0]) {
      var target := AskedFor(s.now, ops[0]);
      n := AdvanceSteps(s, target, rest);
      ReachesMore(m, 1, Machine(s, rest + [Loop(target)]), n, AdvanceLoop(s, target), rest);
      n := 1 + n;
    } else {
      n := 1;
    }
  }
}
