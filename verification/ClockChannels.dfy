/** When Advance can hang.  A NewTimer timer sends its deadline on a channel of
    capacity one, and the send waits while the channel is full.  Only Reset can
    make a timer send twice, so a run in which every Reset finds its channel
    received never waits, and an advance waits exactly when it reaches a timer
    whose earlier time was never received. */
module ClockChannels {
  import opened Collections
  import opened ClockModel
  import opened ClockRuns
  import opened ClockTheorems
  import opened ClockOrder

  /** A channel belongs to one timer, and to no ticker. */
  ghost predicate Separate(s: State) {
    && (forall i, j :: 0 <= i < |s.entries| && 0 <= j < |s.entries| ==> SameOwner(s.entries[i].kind, s.entries[j].kind))
    && (forall i, k :: 0 <= i < |s.entries| && 0 <= k < |s.tickers| ==> NotTickers(s.entries[i].kind, s.tickers[k]))
  }

  predicate SameOwner(a: Kind, b: Kind) {
    a.Chan? && b.Chan? && a.ch == b.ch ==> a.timer == b.timer
  }

  predicate NotTickers(a: Kind, t: Ticker) {
    a.Chan? ==> a.ch != t.ch
  }

  predicate RoomFor(s: State, id: nat)
    requires id < |s.entries| && KindWf(s, s.entries[id].kind)
  {
    s.entries[id].kind.Chan? ==> s.bufs[s.entries[id].kind.ch].None?
  }

  /** Every timer that can still fire has room in its channel. */
  ghost predicate Drained(s: State)
    requires Wf(s)
  {
    Separate(s) && forall p :: p in s.pending && !s.entries[p].stopped ==> RoomFor(s, p)
  }

  lemma ApplyKeepsSeparate(s: State, op: Op)
    requires Wf(s) && Separate(s) && OpWf(op) && !MovesTime(op)
    ensures Separate(Apply(s, op))
  {
    var r := Apply(s, op);
    ApplyGrown(s, op);
    SeparateGrows(s, r);
  }

  /** What a step adds uses a channel of its own, or one of the same owner. */
  lemma SeparateGrows(s: State, r: State)
    requires Separate(s)
    requires |s.entries| <= |r.entries| <= |s.entries| + 1 && |s.tickers| <= |r.tickers| <= |s.tickers| + 1
    requires forall i :: 0 <= i < |s.entries| ==> r.entries[i].kind == s.entries[i].kind
    requires forall k :: 0 <= k < |s.tickers| ==> r.tickers[k].ch == s.tickers[k].ch
    requires |r.entries| > |s.entries| ==>
               && (forall i :: 0 <= i < |s.entries| ==> SameOwner(s.entries[i].kind, r.entries[|s.entries|].kind))
               && (forall k :: 0 <= k < |s.tickers| ==> NotTickers(r.entries[|s.entries|].kind, s.tickers[k]))
    requires |r.tickers| > |s.tickers| ==>
               forall i :: 0 <= i < |r.entries| ==> NotTickers(r.entries[i].kind, r.tickers[|s.tickers|])
    ensures Separate(r)
  {
    forall i, j | 0 <= i < |r.entries| && 0 <= j < |r.entries| ensures SameOwner(r.entries[i].kind, r.entries[j].kind) {
      if i < |s.entries| && j < |s.entries| { assert SameOwner(s.entries[i].kind, s.entries[j].kind); }
    }
    forall i, k | 0 <= i < |r.entries| && 0 <= k < |r.tickers| ensures NotTickers(r.entries[i].kind, r.tickers[k]) {
      if i < |s.entries| && k < |s.tickers| { assert NotTickers(s.entries[i].kind, s.tickers[k]); }
    }
  }

  /** The guard a caller can check: a Reset finds its channel received. */
  ghost predicate ResetReceived(s: State, op: Op)
    requires Wf(s)
  {
    op.ResetTimer? && op.timer < |s.timers| ==> RoomFor(s, s.timers[op.timer])
  }

  /** What can still fire could fire before, or is new; and its room is not taken. */
  ghost predicate RoomKept(s: State, r: State)
    requires Wf(s) && Wf(r)
  {
    forall p :: p in r.pending && !r.entries[p].stopped ==>
      if p < |s.entries| then
        p in s.pending && !s.entries[p].stopped && s.entries[p].deadline == r.entries[p].deadline &&
        (RoomFor(s, p) ==> RoomFor(r, p))
      else RoomFor(r, p)
  }

  lemma ApplyKeepsRoom(s: State, op: Op)
    requires Wf(s) && OpWf(op) && !MovesTime(op) && ResetReceived(s, op)
    ensures RoomKept(s, Apply(s, op))
  {
    ApplyGrown(s, op);
  }

  lemma ApplyKeepsDrained(s: State, op: Op)
    requires Wf(s) && Drained(s) && OpWf(op) && !MovesTime(op) && ResetReceived(s, op)
    ensures Drained(Apply(s, op))
  {
    ApplyKeepsSeparate(s, op);
    ApplyKeepsRoom(s, op);
  }

  lemma TurnKeepsSeparate(s: State, id: nat)
    requires Wf(s) && Separate(s) && id in s.pending
    ensures Separate(Turn(s, id))
  {
    TurnShape(s, id);
    SeparateGrows(s, Turn(s, id));
  }

  /** The turn of one entry sends on no channel of another that can still fire. */
  lemma OthersChannel(s: State, id: nat, p: nat)
    requires Wf(s) && Owned(s) && Separate(s) && id in s.pending && p in s.pending && p != id
    requires !s.entries[p].stopped && s.entries[p].kind.Chan?
    ensures !SendsOn(s, id, s.entries[p].kind.ch)
  {
    var e := s.entries[id];
    assert IsCurrent(s, p);
    if !e.stopped { assert IsCurrent(s, id); }
    if e.kind.Chan? { assert SameOwner(s.entries[p].kind, e.kind); }
    if e.kind.Tick? { assert NotTickers(s.entries[p].kind, s.tickers[e.kind.ticker]); }
  }

  ghost predicate SendsOn(s: State, id: nat, c: nat)
    requires Wf(s) && id < |s.entries|
  {
    var e := s.entries[id];
    !e.stopped && ((e.kind.Chan? && e.kind.ch == c) || (e.kind.Tick? && s.tickers[e.kind.ticker].ch == c))
  }

  lemma TurnKeepsBuffer(s: State, id: nat, c: nat)
    requires Wf(s) && id in s.pending && c < |s.bufs| && !SendsOn(s, id, c)
    ensures |Turn(s, id).bufs| == |s.bufs| && Turn(s, id).bufs[c] == s.bufs[c]
  {}

  lemma TurnKeepsRoom(s: State, id: nat)
    requires Inv(s) && Separate(s) && id in s.pending
    ensures Wf(Turn(s, id)) && RoomKept(s, Turn(s, id))
  {
    TurnShape(s, id);
    TurnRearms(s, id);
    var t := Turn(s, id);
    forall p | p in t.pending && !t.entries[p].stopped && p < |s.entries|
      ensures p in s.pending && s.entries[p] == t.entries[p] && (RoomFor(s, p) ==> RoomFor(t, p))
    {
      assert Rearmed(s, t, id, p);
      if s.entries[p].kind.Chan? {
        OthersChannel(s, id, p);
        TurnKeepsBuffer(s, id, s.entries[p].kind.ch);
      }
    }
    forall p | p in t.pending && p >= |s.entries| ensures RoomFor(t, p) { assert Rearmed(s, t, id, p); }
  }

  lemma TurnSends(s: State, id: nat)
    requires Wf(s) && id in s.pending && !s.blocked
    ensures Turn(s, id).blocked <==> Full(s, id)
  {}

  /** An entry that cannot fire without waiting. */
  predicate Full(s: State, id: nat)
    requires id < |s.entries|
  {
    !s.entries[id].stopped && s.entries[id].kind.Chan? &&
    s.entries[id].kind.ch < |s.bufs| && s.bufs[s.entries[id].kind.ch].Some?
  }

  // ---------- programs that receive before they reset ----------

  /** No advance is waiting, and every timer that can fire has room. */
  ghost predicate Ready(s: State) {
    Inv(s) && Drained(s) && !s.blocked
  }

  lemma ReadyIgnores(a: State, b: State)
    requires Ready(a) && Wf(b) && !b.blocked
    requires a.entries == b.entries && a.pending == b.pending && a.log == b.log
    requires a.timers == b.timers && a.tickers == b.tickers && a.bufs == b.bufs
    ensures Ready(b)
  {
    InvIgnores(a, b);
    assert forall p :: p in a.pending && !a.entries[p].stopped ==> RoomFor(a, p) && RoomFor(b, p);
  }

  lemma TurnKeepsReady(s: State, id: nat)
    requires Ready(s) && id in s.pending
    ensures Ready(Turn(s, id))
  {
    TurnShape(s, id);
    TurnKeepsInv(s, id);
    TurnKeepsSeparate(s, id);
    TurnKeepsRoom(s, id);
    TurnSends(s, id);
    assert !s.entries[id].stopped ==> RoomFor(s, id);
  }

  lemma CallKeepsReady(s: State)
    requires Ready(s) && s.script != []
    ensures Ready(s.(script := s.script[1..])) && OpsWf(s.script[0])
  {
    ReadyIgnores(s, s.(script := s.script[1..]));
  }

  /** Every Reset that the advance comes to, in whatever callback, finds its channel received. */
  ghost predicate AdvanceReceives(s: State, target: int)
    requires Wf(s)
    decreases |s.script|, 0, TurnsLeft(s, target)
  {
    s.blocked || !Due(s, target) ||
    var id := Earliest(s);
    TurnDecreases(s, target, id);
    var t := Turn(s, id);
    if CallsBack(s, id) then
      var called := t.(script := t.script[1..]);
      RunReceives(called, t.script[0]) && AdvanceReceives(RunOps(called, t.script[0]), target)
    else AdvanceReceives(t, target)
  }

  ghost predicate ExecReceives(s: State, op: Op)
    requires Wf(s) && OpWf(op)
    decreases |s.script|, 1, 0
  {
    if op.Advance? then AdvanceReceives(s, s.now + op.d)
    else if op.AdvanceTo? then AdvanceReceives(s, op.target)
    else ResetReceived(s, op)
  }

  /** The same of a program: checked at each Reset when it is made. */
  ghost predicate RunReceives(s: State, ops: seq<Op>)
    requires Wf(s) && OpsWf(ops)
    decreases |s.script|, 2, |ops|
  {
    ops == [] || s.blocked || (ExecReceives(s, ops[0]) && RunReceives(Exec(s, ops[0]), ops[1..]))
  }

  lemma {:induction false} AdvanceNeverBlocks(s: State, target: int)
    requires Ready(s) && AdvanceReceives(s, target)
    ensures Ready(AdvanceLoop(s, target))
    decreases |s.script|, 0, TurnsLeft(s, target)
  {
    if Due(s, target) {
      var id := Earliest(s);
      TurnDecreases(s, target, id);
      TurnKeepsReady(s, id);
      var t := Turn(s, id);
      if CallsBack(s, id) {
        var called := t.(script := t.script[1..]);
        CallKeepsReady(t);
        RunNeverBlocks(called, t.script[0]);
        AdvanceNeverBlocks(RunOps(called, t.script[0]), target);
      } else {
        AdvanceNeverBlocks(t, target);
      }
    } else {
      ReadyIgnores(s, Finish(s, target));
    }
  }

  lemma {:induction false} RunNeverBlocks(s: State, ops: seq<Op>)
    requires Ready(s) && OpsWf(ops) && RunReceives(s, ops)
    ensures Ready(RunOps(s, ops))
    decreases |s.script|, 2, |ops|
  {
    if ops != [] {
      ExecNeverBlocks(s, ops[0]);
      RunNeverBlocks(Exec(s, ops[0]), ops[1..]);
    }
  }

  lemma ApplyKeepsReady(s: State, op: Op)
    requires Ready(s) && OpWf(op) && !MovesTime(op) && ResetReceived(s, op)
    ensures Ready(Apply(s, op))
  {
    ApplyKeepsInv(s, op);
    ApplyKeepsDrained(s, op);
  }

  lemma {:induction false} ExecNeverBlocks(s: State, op: Op)
    requires Ready(s) && OpWf(op) && ExecReceives(s, op)
    ensures Ready(Exec(s, op))
    decreases |s.script|, 1, 0
  {
    if MovesTime(op) {
      var target := if op.Advance? then s.now + op.d else op.target;
      AdvanceNeverBlocks(s, target);
      assert Exec(s, op) == AdvanceLoop(s, target);
    } else {
      ApplyKeepsReady(s, op);
      assert Exec(s, op) == Apply(s, op);
    }
  }

  lemma InitReady(start: int, script: seq<seq<Op>>)
    requires Wf(Init(start, script))
    ensures Ready(Init(start, script))
  {}

  /** A program never hangs in Advance if every Reset, of its own or of a callback, finds the
      timer's channel received when it is made. */
  lemma ReceivedNoHang(start: int, script: seq<seq<Op>>, ops: seq<Op>)
    requires OpsWf(ops) && Wf(Init(start, script)) && RunReceives(Init(start, script), ops)
    ensures !RunOps(Init(start, script), ops).blocked
  {
    InitReady(start, script);
    RunNeverBlocks(Init(start, script), ops);
  }

  // ---------- programs that do not reset ----------

  predicate NoResets(ops: seq<Op>) {
    forall i :: 0 <= i < |ops| ==> !ops[i].ResetTimer?
  }

  predicate NoResetScript(script: seq<seq<Op>>) {
    forall i :: 0 <= i < |script| ==> NoResets(script[i])
  }

  lemma {:induction false} AdvanceWithoutReset(s: State, target: int)
    requires Wf(s) && NoResetScript(s.script)
    ensures AdvanceReceives(s, target) && NoResetScript(AdvanceLoop(s, target).script)
    decreases |s.script|, 0, TurnsLeft(s, target)
  {
    if !s.blocked && Due(s, target) {
      var id := Earliest(s);
      TurnDecreases(s, target, id);
      var t := Turn(s, id);
      if CallsBack(s, id) {
        var called := t.(script := t.script[1..]);
        RunWithoutReset(called, t.script[0]);
        AdvanceWithoutReset(RunOps(called, t.script[0]), target);
      } else {
        AdvanceWithoutReset(t, target);
      }
    }
  }

  lemma {:induction false} RunWithoutReset(s: State, ops: seq<Op>)
    requires Wf(s) && OpsWf(ops) && NoResets(ops) && NoResetScript(s.script)
    ensures RunReceives(s, ops) && NoResetScript(RunOps(s, ops).script)
    decreases |s.script|, 2, |ops|
  {
    if ops != [] && !s.blocked {
      if MovesTime(ops[0]) {
        AdvanceWithoutReset(s, if ops[0].Advance? then s.now + ops[0].d else ops[0].target);
      }
      RunWithoutReset(Exec(s, ops[0]), ops[1..]);
    }
  }

  /** A program without Reset never hangs in Advance, whatever its callbacks do. */
  lemma NoResetNoHang(start: int, script: seq<seq<Op>>, ops: seq<Op>)
    requires NoResets(ops) && NoResetScript(script) && OpsWf(ops) && Wf(Init(start, script))
    ensures !RunOps(Init(start, script), ops).blocked
  {
    RunWithoutReset(Init(start, script), ops);
    ReceivedNoHang(start, script, ops);
  }

  // ---------- when a full channel is reached ----------

  predicate HandsOff(ops: seq<Op>) {
    forall i :: 0 <= i < |ops| ==> LeavesTimers(ops[i])
  }

  /** The callbacks leave the timers and the channels of the program to the program. */
  predicate HandsOffScript(script: seq<seq<Op>>) {
    forall i :: 0 <= i < |script| ==> HandsOff(script[i])
  }

  predicate LeavesTimers(op: Op) {
    !op.Receive? && !op.StopTimer? && !op.ResetTimer?
  }

  /** `id` is pending, due at `deadline`, and cannot fire without waiting. */
  ghost predicate Held(s: State, id: nat, deadline: int) {
    Inv(s) && id in s.pending && Full(s, id) && s.entries[id].deadline == deadline && HandsOffScript(s.script)
  }

  lemma FullStays(s: State, first: nat, id: nat)
    requires Wf(s) && first in s.pending && id in s.pending && first != id && Full(s, id)
    ensures var t := Turn(s, first);
            && id in t.pending && id < |t.entries| && Full(t, id)
            && t.entries[id].deadline == s.entries[id].deadline && t.script == s.script
  {
    TurnShape(s, first);
  }

  lemma TurnHolds(s: State, first: nat, id: nat, deadline: int)
    requires Held(s, id, deadline) && first in s.pending && first != id
    ensures Held(Turn(s, first), id, deadline)
  {
    FullStays(s, first, id);
    TurnKeepsInv(s, first);
  }

  lemma CallHolds(s: State, id: nat, deadline: int)
    requires Held(s, id, deadline) && s.script != []
    ensures Held(s.(script := s.script[1..]), id, deadline) && OpsWf(s.script[0]) && HandsOff(s.script[0])
  {
    HeldIgnores(s, s.(script := s.script[1..]), id, deadline);
  }

  lemma ApplyHolds(s: State, op: Op, id: nat, deadline: int)
    requires Held(s, id, deadline) && OpWf(op) && !MovesTime(op) && LeavesTimers(op)
    ensures Held(Apply(s, op), id, deadline)
  {
    ApplyKeepsInv(s, op);
    ApplyGrown(s, op);
    if op.StopTicker? && op.ticker < |s.tickers| { assert TickerOwns(s, op.ticker); }
  }

  lemma HeldIgnores(a: State, b: State, id: nat, deadline: int)
    requires Held(a, id, deadline) && Wf(b) && HandsOffScript(b.script)
    requires a.entries == b.entries && a.pending == b.pending && a.log == b.log
    requires a.timers == b.timers && a.tickers == b.tickers && a.bufs == b.bufs
    ensures Held(b, id, deadline)
  {
    InvIgnores(a, b);
  }

  lemma {:induction false} AdvanceHolds(s: State, target: int, id: nat, deadline: int)
    requires Held(s, id, deadline)
    ensures var r := AdvanceLoop(s, target); r.blocked || Held(r, id, deadline)
    decreases |s.script|, 0, TurnsLeft(s, target)
  {
    if s.blocked {
    } else if !Due(s, target) {
      HeldIgnores(s, Finish(s, target), id, deadline);
    } else {
      var first := Earliest(s);
      TurnDecreases(s, target, first);
      TurnSends(s, first);
      var t := Turn(s, first);
      if first == id { return; }
      TurnHolds(s, first, id, deadline);
      if CallsBack(s, first) {
        var called := t.(script := t.script[1..]);
        CallHolds(t, id, deadline);
        RunHolds(called, t.script[0], id, deadline);
        if !RunOps(called, t.script[0]).blocked { AdvanceHolds(RunOps(called, t.script[0]), target, id, deadline); }
      } else {
        AdvanceHolds(t, target, id, deadline);
      }
    }
  }

  lemma {:induction false} RunHolds(s: State, ops: seq<Op>, id: nat, deadline: int)
    requires Held(s, id, deadline) && OpsWf(ops) && HandsOff(ops)
    ensures var r := RunOps(s, ops); r.blocked || Held(r, id, deadline)
    decreases |s.script|, 2, |ops|
  {
    if ops != [] && !s.blocked {
      ExecHolds(s, ops[0], id, deadline);
      if !Exec(s, ops[0]).blocked { RunHolds(Exec(s, ops[0]), ops[1..], id, deadline); }
    }
  }

  lemma {:induction false} ExecHolds(s: State, op: Op, id: nat, deadline: int)
    requires Held(s, id, deadline) && OpWf(op) && LeavesTimers(op)
    ensures var r := Exec(s, op); r.blocked || Held(r, id, deadline)
    decreases |s.script|, 1, 0
  {
    if op.Advance? {
      AdvanceHolds(s, s.now + op.d, id, deadline);
    } else if op.AdvanceTo? {
      AdvanceHolds(s, op.target, id, deadline);
    } else {
      ApplyHolds(s, op, id, deadline);
    }
  }

  /** An advance that reaches a full channel waits. */
  lemma FullBlocks(s: State, target: int, id: nat)
    requires Inv(s) && HandsOffScript(s.script) && id in s.pending && Full(s, id) && s.entries[id].deadline <= target
    ensures AdvanceLoop(s, target).blocked
  {
    AdvanceHolds(s, target, id, s.entries[id].deadline);
    AdvanceLeavesNothingDue(s, target);
  }

  // ---------- exactly when an advance hangs ----------

  /** Everything due by `target` has room. */
  ghost predicate RoomBy(s: State, target: int)
    requires Wf(s)
  {
    forall p :: p in s.pending && !s.entries[p].stopped && s.entries[p].deadline <= target ==> RoomFor(s, p)
  }

  /** Nothing due by `target` waits, and no callback advances or resets. */
  ghost predicate CanReach(s: State, target: int) {
    Inv(s) && Separate(s) && RoomBy(s, target) && !s.blocked && FlatScript(s.script) && NoResetScript(s.script)
  }

  lemma TurnCanReach(s: State, target: int, id: nat)
    requires CanReach(s, target) && id in s.pending && s.entries[id].deadline <= target
    ensures CanReach(Turn(s, id), target)
  {
    TurnShape(s, id);
    TurnKeepsInv(s, id);
    TurnKeepsSeparate(s, id);
    TurnKeepsRoom(s, id);
    TurnSends(s, id);
    assert !s.entries[id].stopped ==> RoomFor(s, id);
  }

  lemma CallCanReach(s: State, target: int)
    requires CanReach(s, target) && s.script != []
    ensures CanReach(s.(script := s.script[1..]), target)
    ensures OpsWf(s.script[0]) && NoAdvances(s.script[0]) && NoResets(s.script[0])
  {
    var called := s.(script := s.script[1..]);
    InvIgnores(s, called);
    assert forall p :: p in s.pending && RoomFor(s, p) ==> RoomFor(called, p);
  }

  lemma ApplyCanReach(s: State, op: Op, target: int)
    requires CanReach(s, target) && OpWf(op) && !MovesTime(op) && !op.ResetTimer?
    ensures CanReach(Apply(s, op), target)
  {
    ApplyKeepsInv(s, op);
    ApplyKeepsSeparate(s, op);
    ApplyKeepsRoom(s, op);
  }

  lemma {:induction false} FlatRunReaches(s: State, ops: seq<Op>, target: int)
    requires CanReach(s, target) && OpsWf(ops) && NoAdvances(ops) && NoResets(ops)
    ensures CanReach(RunOps(s, ops), target)
    decreases |ops|
  {
    if ops != [] {
      assert !MovesTime(ops[0]);
      ApplyCanReach(s, ops[0], target);
      assert forall i :: 0 <= i < |ops[1..]| ==> !MovesTime(ops[1..][i]);
      FlatRunReaches(Apply(s, ops[0]), ops[1..], target);
    }
  }

  lemma {:induction false} RoomReaches(s: State, target: int)
    requires CanReach(s, target)
    ensures !AdvanceLoop(s, target).blocked
    decreases |s.script|, TurnsLeft(s, target)
  {
    if Due(s, target) {
      var id := Earliest(s);
      TurnDecreases(s, target, id);
      TurnCanReach(s, target, id);
      var t := Turn(s, id);
      if CallsBack(s, id) {
        var called := t.(script := t.script[1..]);
        CallCanReach(t, target);
        FlatRunReaches(called, t.script[0], target);
        RoomReaches(RunOps(called, t.script[0]), target);
      } else {
        RoomReaches(t, target);
      }
    }
  }

  lemma SeparateIgnores(a: State, b: State)
    requires Separate(a) && a.entries == b.entries && a.tickers == b.tickers
    ensures Separate(b)
  {}

  lemma {:induction false} AdvanceKeepsSeparate(s: State, target: int)
    requires Wf(s) && Separate(s)
    ensures Separate(AdvanceLoop(s, target))
    decreases |s.script|, 0, TurnsLeft(s, target)
  {
    if s.blocked {
    } else if !Due(s, target) {
      SeparateIgnores(s, Finish(s, target));
    } else {
      var id := Earliest(s);
      TurnDecreases(s, target, id);
      TurnKeepsSeparate(s, id);
      var t := Turn(s, id);
      if CallsBack(s, id) {
        var called := t.(script := t.script[1..]);
        SeparateIgnores(t, called);
        RunKeepsSeparate(called, t.script[0]);
        AdvanceKeepsSeparate(RunOps(called, t.script[0]), target);
      } else {
        AdvanceKeepsSeparate(t, target);
      }
    }
  }

  /** Every run keeps channels apart. */
  lemma {:induction false} RunKeepsSeparate(s: State, ops: seq<Op>)
    requires Wf(s) && Separate(s) && OpsWf(ops)
    ensures Separate(RunOps(s, ops))
    decreases |s.script|, 2, |ops|
  {
    if ops != [] && !s.blocked {
      ExecKeepsSeparate(s, ops[0]);
      RunKeepsSeparate(Exec(s, ops[0]), ops[1..]);
    }
  }

  lemma {:induction false} ExecKeepsSeparate(s: State, op: Op)
    requires Wf(s) && Separate(s) && OpWf(op)
    ensures Separate(Exec(s, op))
    decreases |s.script|, 1, 0
  {
    if op.Advance? {
      AdvanceKeepsSeparate(s, s.now + op.d);
    } else if op.AdvanceTo? {
      AdvanceKeepsSeparate(s, op.target);
    } else {
      ApplyKeepsSeparate(s, op);
      assert Exec(s, op) == Apply(s, op);
    }
  }

  /** From any state with channels apart, with callbacks that neither advance nor touch the timers: an advance
      hangs if and only if some timer due by its target still has a time in its channel. */
  lemma AdvanceHangsIff(s: State, target: int)
    requires Inv(s) && Separate(s) && !s.blocked && FlatScript(s.script) && HandsOffScript(s.script)
    ensures AdvanceLoop(s, target).blocked
            <==> exists p :: p in s.pending && s.entries[p].deadline <= target && Full(s, p)
  {
    if p :| p in s.pending && s.entries[p].deadline <= target && Full(s, p) {
      FullBlocks(s, target, p);
    } else {
      forall p | p in s.pending && !s.entries[p].stopped && s.entries[p].deadline <= target ensures RoomFor(s, p) {
        assert !Full(s, p);
      }
      assert NoResetScript(s.script);
      RoomReaches(s, target);
    }
  }

  /** So it is after any program, on any clock. */
  lemma ReachedHangsIff(start: int, script: seq<seq<Op>>, ops: seq<Op>, target: int)
    requires OpsWf(ops) && Wf(Init(start, script))
    ensures var s := RunOps(Init(start, script), ops);
            !s.blocked && FlatScript(s.script) && HandsOffScript(s.script) ==>
              (AdvanceLoop(s, target).blocked
               <==> exists p :: p in s.pending && s.entries[p].deadline <= target && Full(s, p))
  {
    InitReady(start, script);
    RunKeepsInv(Init(start, script), ops);
    RunKeepsSeparate(Init(start, script), ops);
    var s := RunOps(Init(start, script), ops);
    if !s.blocked && FlatScript(s.script) && HandsOffScript(s.script) { AdvanceHangsIff(s, target); }
  }

  /** After Reset, an advance that reaches the new deadline hangs exactly when the time sent
      by an earlier firing is still in the channel; callbacks may advance, too. */
  lemma ResetHangsIffNotReceived(s: State, h: nat, d: int, target: int)
    requires Ready(s) && HandsOffScript(s.script)
    requires h < |s.timers| && s.entries[s.timers[h]].kind.Chan? && s.now + d <= target
    ensures AdvanceLoop(Apply(s, ResetTimer(h, d)), target).blocked
            <==> s.bufs[s.entries[s.timers[h]].kind.ch].Some?
  {
    var op := ResetTimer(h, d);
    var r := Apply(s, op);
    ApplyKeepsInv(s, op);
    if s.bufs[s.entries[s.timers[h]].kind.ch].Some? {
      FullBlocks(r, target, |s.entries|);
    } else {
      ApplyKeepsDrained(s, op);
      assert NoResetScript(r.script);
      AdvanceWithoutReset(r, target);
      AdvanceNeverBlocks(r, target);
    }
  }

  // ---------- a program that hangs ----------

  /** A timer on a fresh clock, and an advance that reaches it: its time is in the channel. */
  lemma TimerSends(start: int, a: int, target: int)
    requires start + a <= target
    ensures Wf(Init(start, []))
    ensures var r := AdvanceLoop(Apply(Init(start, []), NewTimer(a)), target);
            Ready(r) && r.now == target && r.script == [] && r.timers == [0] && |r.entries| == 1
            && r.entries[0].kind == Chan(0, 0) && r.bufs == [Some(start + a)]
  {
    var s := Init(start, []);
    InitReady(start, []);
    var s1 := Apply(s, NewTimer(a));
    ApplyKeepsReady(s, NewTimer(a));
    AdvanceWithoutReset(s1, target);
    AdvanceNeverBlocks(s1, target);
    TimerLeaves(start, a, target);
  }

  lemma TimerLeaves(start: int, a: int, target: int)
    requires start + a <= target
    ensures Wf(Init(start, []))
    ensures var r := AdvanceLoop(Apply(Init(start, []), NewTimer(a)), target);
            r.now == target && r.script == [] && r.timers == [0] && |r.entries| == 1
            && r.entries[0].kind == Chan(0, 0) && r.bufs == [Some(start + a)]
  {
    var s := Apply(Init(start, []), NewTimer(a));
    assert IsEarliest(s, 0);
    assert Earliest(s) == 0;
    TurnDecreases(s, target, 0);
    assert Turn(s, 0).pending == {};
    IdleAdvance(Turn(s, 0), target);
  }

  function ApplyAndAdvance(op: Op, d: int, rest: seq<Op>): seq<Op> {
    [op] + ([Advance(d)] + rest)
  }

  lemma RunApplyAndAdvance(s: State, op: Op, d: int, rest: seq<Op>)
    requires Wf(s) && !s.blocked && OpWf(op) && !MovesTime(op) && OpsWf(rest)
    ensures OpsWf(ApplyAndAdvance(op, d, rest))
    ensures RunOps(s, ApplyAndAdvance(op, d, rest)) == RunOps(AdvanceLoop(Apply(s, op), s.now + d), rest)
  {
    var r := Apply(s, op);
    assert Exec(s, op) == r;
    assert Exec(r, Advance(d)) == AdvanceLoop(r, s.now + d);
    OneOp(r, Advance(d), rest);
    OneOp(s, op, [Advance(d)] + rest);
  }

  /** An advance that hangs, hangs the program. */
  lemma RunHangs(s: State, op: Op, d: int, rest: seq<Op>)
    requires Wf(s) && !s.blocked && OpWf(op) && !MovesTime(op) && OpsWf(rest)
    requires AdvanceLoop(Apply(s, op), s.now + d).blocked
    ensures OpsWf(ApplyAndAdvance(op, d, rest))
    ensures RunOps(s, ApplyAndAdvance(op, d, rest)).blocked
  {
    RunApplyAndAdvance(s, op, d, rest);
  }

  lemma RunHangsLater(s: State, first: Op, b: int, s2: State, second: Op, d: int)
    requires Wf(s) && !s.blocked && OpWf(first) && !MovesTime(first) && OpWf(second) && !MovesTime(second)
    requires s2 == AdvanceLoop(Apply(s, first), s.now + b) && !s2.blocked
    requires AdvanceLoop(Apply(s2, second), s2.now + d).blocked
    ensures OpsWf(ApplyAndAdvance(first, b, ApplyAndAdvance(second, d, [])))
    ensures RunOps(s, ApplyAndAdvance(first, b, ApplyAndAdvance(second, d, []))).blocked
  {
    RunHangs(s2, second, d, []);
    RunApplyAndAdvance(s, first, b, ApplyAndAdvance(second, d, []));
  }

  lemma SecondAdvanceHangs(start: int, a: int, target: int, c: int, d: int) returns (s: State)
    requires start + a <= target && c <= d
    ensures Wf(Init(start, [])) && s == AdvanceLoop(Apply(Init(start, []), NewTimer(a)), target)
    ensures !s.blocked && AdvanceLoop(Apply(s, ResetTimer(0, c)), s.now + d).blocked
  {
    TimerSends(start, a, target);
    s := AdvanceLoop(Apply(Init(start, []), NewTimer(a)), target);
    FullHangs(s, c, d);
  }

  lemma FullHangs(s: State, c: int, d: int)
    requires Ready(s) && s.script == [] && s.timers == [0] && |s.entries| == 1 && s.entries[0].kind == Chan(0, 0)
    requires |s.bufs| == 1 && s.bufs[0].Some? && c <= d
    ensures AdvanceLoop(Apply(s, ResetTimer(0, c)), s.now + d).blocked
  {
    ResetHangsIffNotReceived(s, 0, c, s.now + d);
  }

  /** Fired, reset without a receive, and reached again: the second advance hangs. */
  lemma UnreceivedResetHangs(start: int, a: int, b: int, c: int, d: int)
    requires a <= b && c <= d
    ensures var ops := ApplyAndAdvance(NewTimer(a), b, ApplyAndAdvance(ResetTimer(0, c), d, []));
            Wf(Init(start, [])) && OpsWf(ops) && RunOps(Init(start, []), ops).blocked
  {
    var s := Init(start, []);
    assert s.now + b == start + b;
    var s2 := SecondAdvanceHangs(start, a, s.now + b, c, d);
    RunHangsLater(s, NewTimer(a), b, s2, ResetTimer(0, c), d);
  }

  lemma ResetAfterFiringHangs()
    ensures var ops := [NewTimer(1), Advance(2), ResetTimer(0, 1), Advance(2)];
            Wf(Init(0, [])) && OpsWf(ops) && RunOps(Init(0, []), ops).blocked
  {
    UnreceivedResetHangs(0, 1, 2, 1, 2);
    assert [NewTimer(1), Advance(2), ResetTimer(0, 1), Advance(2)]
        == ApplyAndAdvance(NewTimer(1), 2, ApplyAndAdvance(ResetTimer(0, 1), 2, []));
  }
}
