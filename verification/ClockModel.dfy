/** The virtual clock as a value: what one call, one callback and one whole run
    of AfterFunc, NewTimer, NewTicker, Stop, Reset and Advance do to it.

    time.Time and time.Duration are integers of nanoseconds.  A timerEntry is
    named by its sequence number, which is also its place in `entries`, so the
    pointers of the source are indices here.  The heap is the set `pending`.

    A callback is an arbitrary list of clock operations.  `script` holds the
    lists in the order in which AfterFunc callbacks will run; a callback that
    runs when the script is used up does nothing. */
module ClockModel {
  import opened Collections

  /** Who armed an entry: AfterFunc, NewTimer (with its channel) or a ticker. */
  datatype Kind = Func(timer: nat) | Chan(timer: nat, ch: nat) | Tick(ticker: nat)

  datatype Entry = Entry(deadline: int, kind: Kind, stopped: bool, fired: bool)

  /** `born` is the time of the NewTicker call; it is history, the source does not keep it. */
  datatype Ticker = Ticker(ch: nat, interval: int, entry: nat, stopped: bool, born: int)

  datatype Op =
    | AfterFunc(d: int)
    | NewTimer(d: int)
    | NewTicker(d: int)
    | StopTimer(timer: nat)
    | ResetTimer(timer: nat, d: int)
    | StopTicker(ticker: nat)
    | Receive(ch: nat)
    | Advance(d: int)
    | AdvanceTo(target: int)

  /** One firing: which entry, and what `now` was when its callback or send began. */
  datatype Firing = Firing(id: nat, kind: Kind, deadline: int, seen: int)

  /** `received`, `log`, `late`, `rewound` and `blocked` are history: how many firings there had
      been when a channel was last received from, the firings in order, the entries armed for a time before the last firing, whether an advance ever ended below the
      time already reached, and whether an advance is waiting to send on a channel that
      is still full. */
  datatype State = State(
    now: int,
    entries: seq<Entry>,
    pending: set<nat>,
    timers: seq<nat>,
    tickers: seq<Ticker>,
    bufs: seq<Option<int>>,
    received: map<nat, nat>,
    script: seq<seq<Op>>,
    log: seq<Firing>,
    late: set<nat>,
    blocked: bool,
    rewound: bool)

  function Init(start: int, script: seq<seq<Op>>): State {
    State(start, [], {}, [], [], [], map[], script, [], {}, false, false)
  }

  // ---------- well-formedness ----------

  /** A ticker made by the operation has a positive interval. */
  predicate OpWf(op: Op) {
    op.NewTicker? ==> op.d > 0
  }

  predicate OpsWf(ops: seq<Op>) {
    forall i :: 0 <= i < |ops| ==> OpWf(ops[i])
  }

  predicate KindWf(s: State, k: Kind) {
    match k
    case Func(t) => t < |s.timers|
    case Chan(t, c) => t < |s.timers| && c < |s.bufs|
    case Tick(t) => t < |s.tickers|
  }

  /** Everything that is named exists. */
  ghost predicate Shape(s: State) {
    && (forall p :: p in s.pending ==> p < |s.entries|)
    && (forall i :: 0 <= i < |s.entries| ==> KindWf(s, s.entries[i].kind))
    && (forall h :: 0 <= h < |s.timers| ==> s.timers[h] < |s.entries|)
    && (forall k :: 0 <= k < |s.tickers| ==> s.tickers[k].entry < |s.entries| && s.tickers[k].ch < |s.bufs|)
  }

  /** Every running ticker, and every one still to be made, has a positive interval: what
      it takes for every advance to end. */
  ghost predicate Paced(s: State) {
    && (forall k :: 0 <= k < |s.tickers| && !s.tickers[k].stopped ==> s.tickers[k].interval > 0)
    && (forall i :: 0 <= i < |s.script| ==> OpsWf(s.script[i]))
  }

  ghost predicate Wf(s: State) {
    Shape(s) && Paced(s)
  }

  // ---------- the operations that do not move time ----------

  /** The time lies before the last firing. */
  predicate Behind(log: seq<Firing>, deadline: int) {
    log != [] && deadline < log[|log| - 1].deadline
  }

  function Push(s: State, deadline: int, kind: Kind): State {
    s.(entries := s.entries + [Entry(deadline, kind, false, false)],
       pending := s.pending + {|s.entries|},
       late := if Behind(s.log, deadline) then s.late + {|s.entries|} else s.late)
  }

  function MarkStopped(s: State, id: nat): State
    requires id < |s.entries|
  {
    s.(entries := s.entries[id := s.entries[id].(stopped := true)])
  }

  /** What Stop and Reset answer: the timer has neither fired nor been stopped. */
  predicate Active(s: State, h: nat)
    requires h < |s.timers| && s.timers[h] < |s.entries|
  {
    var e := s.entries[s.timers[h]];
    !e.stopped && !e.fired
  }

  function ArmFunc(s: State, d: int): State {
    Push(s.(timers := s.timers + [|s.entries|]), s.now + d, Func(|s.timers|))
  }

  function ArmChan(s: State, d: int): State {
    Push(s.(timers := s.timers + [|s.entries|], bufs := s.bufs + [None]), s.now + d, Chan(|s.timers|, |s.bufs|))
  }

  function ArmTicker(s: State, d: int): State {
    Push(s.(tickers := s.tickers + [Ticker(|s.bufs|, d, |s.entries|, false, s.now)], bufs := s.bufs + [None]),
         s.now + d, Tick(|s.tickers|))
  }

  function Rearm(s: State, h: nat, d: int): State
    requires h < |s.timers| && s.timers[h] < |s.entries|
  {
    var e := s.timers[h];
    Push(MarkStopped(s, e).(timers := s.timers[h := |s.entries|]), s.now + d, s.entries[e].kind)
  }

  function HaltTicker(s: State, k: nat): State
    requires k < |s.tickers| && s.tickers[k].entry < |s.entries|
  {
    MarkStopped(s, s.tickers[k].entry).(tickers := s.tickers[k := s.tickers[k].(stopped := true)])
  }

  lemma ArmShape(s: State, d: int)
    requires Shape(s)
    ensures Shape(ArmFunc(s, d)) && Shape(ArmChan(s, d)) && Shape(ArmTicker(s, d))
    ensures Paced(s) ==> Paced(ArmFunc(s, d)) && Paced(ArmChan(s, d)) && (d > 0 ==> Paced(ArmTicker(s, d)))
  {}

  lemma RearmShape(s: State, h: nat, d: int)
    requires Shape(s) && h < |s.timers|
    ensures Shape(Rearm(s, h, d)) && (Paced(s) ==> Paced(Rearm(s, h, d)))
  {}

  lemma HaltShape(s: State, k: nat)
    requires Shape(s) && k < |s.tickers|
    ensures Shape(HaltTicker(s, k)) && (Paced(s) ==> Paced(HaltTicker(s, k)))
  {}

  lemma StopShape(s: State, id: nat)
    requires Shape(s) && id < |s.entries|
    ensures Shape(MarkStopped(s, id)) && (Paced(s) ==> Paced(MarkStopped(s, id)))
  {}

  /** An operation on a handle that was never handed out has no effect. */
  ghost function Apply(s: State, op: Op): (r: State)
    requires Shape(s) && !op.Advance? && !op.AdvanceTo?
    ensures Shape(r) && (Paced(s) && OpWf(op) ==> Paced(r))
    ensures r.now == s.now && r.script == s.script && r.log == s.log
    ensures r.blocked == s.blocked && r.rewound == s.rewound
  {
    match op
    case AfterFunc(d) => ArmShape(s, d); ArmFunc(s, d)
    case NewTimer(d) => ArmShape(s, d); ArmChan(s, d)
    case NewTicker(d) => ArmShape(s, d); ArmTicker(s, d)
    case StopTimer(h) =>
      if h < |s.timers| && Active(s, h) then StopShape(s, s.timers[h]); MarkStopped(s, s.timers[h]) else s
    case ResetTimer(h, d) => if h < |s.timers| then RearmShape(s, h, d); Rearm(s, h, d) else s
    case StopTicker(k) => if k < |s.tickers| then HaltShape(s, k); HaltTicker(s, k) else s
    case Receive(c) => if c < |s.bufs| then s.(bufs := s.bufs[c := None], received := s.received[c := |s.log|]) else s
  }

  /** What such an operation does to the entries and the tickers: an old entry may
      be stopped, and at most one entry is armed, from now on. */
  ghost predicate Grown(s: State, r: State) {
    && r.now == s.now && r.log == s.log
    && (forall i :: 0 <= i < |s.entries| && i < |r.entries| ==>
          r.entries[i] == s.entries[i] || r.entries[i] == s.entries[i].(stopped := true))
    && |s.entries| <= |r.entries| <= |s.entries| + 1
    && (if |r.entries| == |s.entries| then r.pending == s.pending
        else r.pending == s.pending + {|s.entries|} &&
             !r.entries[|s.entries|].stopped && !r.entries[|s.entries|].fired)
  }

  ghost predicate TickersGrown(s: State, r: State) {
    && (forall k :: 0 <= k < |s.tickers| && k < |r.tickers| ==>
          r.tickers[k] == s.tickers[k] || r.tickers[k] == s.tickers[k].(stopped := true))
    && |s.tickers| <= |r.tickers| <= |s.tickers| + 1
    && (|r.tickers| > |s.tickers| ==>
          var t := r.tickers[|s.tickers|];
          t.born == s.now && t.entry == |s.entries| && |r.entries| == |s.entries| + 1 &&
          r.entries[|s.entries|].deadline == s.now + t.interval)
  }

  lemma ApplyGrown(s: State, op: Op)
    requires Shape(s) && !op.Advance? && !op.AdvanceTo?
    ensures Grown(s, Apply(s, op)) && TickersGrown(s, Apply(s, op))
    ensures var r := Apply(s, op);
            |r.entries| > |s.entries| ==>
              && (op.AfterFunc? || op.NewTimer? || op.NewTicker? || op.ResetTimer?)
              && r.entries[|s.entries|].deadline == s.now + op.d
  {
    match op
    case AfterFunc(d) => ArmGrown(s, d); assert Apply(s, op) == ArmFunc(s, d);
    case NewTimer(d) => ArmGrown(s, d); assert Apply(s, op) == ArmChan(s, d);
    case NewTicker(d) => ArmGrown(s, d); assert Apply(s, op) == ArmTicker(s, d);
    case ResetTimer(h, d) => if h < |s.timers| { RearmGrown(s, h, d); assert Apply(s, op) == Rearm(s, h, d); }
    case StopTimer(h) => if h < |s.timers| { StopGrown(s, s.timers[h]); }
    case StopTicker(k) => if k < |s.tickers| { HaltGrown(s, k); }
    case _ =>
  }

  lemma StopGrown(s: State, id: nat)
    requires Shape(s) && id < |s.entries|
    ensures Grown(s, MarkStopped(s, id)) && TickersGrown(s, MarkStopped(s, id))
  {}

  lemma HaltGrown(s: State, k: nat)
    requires Shape(s) && k < |s.tickers|
    ensures Grown(s, HaltTicker(s, k)) && TickersGrown(s, HaltTicker(s, k))
  {}

  lemma ArmGrown(s: State, d: int)
    requires Shape(s)
    ensures Grown(s, ArmFunc(s, d)) && TickersGrown(s, ArmFunc(s, d))
    ensures Grown(s, ArmChan(s, d)) && TickersGrown(s, ArmChan(s, d))
    ensures Grown(s, ArmTicker(s, d)) && TickersGrown(s, ArmTicker(s, d))
  {}

  lemma RearmGrown(s: State, h: nat, d: int)
    requires Shape(s) && h < |s.timers|
    ensures Grown(s, Rearm(s, h, d)) && TickersGrown(s, Rearm(s, h, d))
  {}

  // ---------- firing ----------

  /** timerHeap.Less: deadline first, then sequence number. */
  predicate Before(es: seq<Entry>, a: nat, b: nat)
    requires a < |es| && b < |es|
  {
    es[a].deadline < es[b].deadline || (es[a].deadline == es[b].deadline && a < b)
  }

  ghost predicate IsEarliest(s: State, id: nat)
    requires Shape(s)
  {
    id in s.pending && forall p :: p in s.pending && p != id ==> Before(s.entries, id, p)
  }

  lemma {:induction false} EarliestIn(es: seq<Entry>, ids: set<nat>) returns (id: nat)
    requires ids != {} && forall p :: p in ids ==> p < |es|
    ensures id in ids && forall p :: p in ids && p != id ==> Before(es, id, p)
  {
    var some :| some in ids;
    id := some;
    var rest := ids - {some};
    assert forall p :: p in ids ==> p == some || p in rest;
    if rest != {} {
      var m := EarliestIn(es, rest);
      if Before(es, m, some) { id := m; }
    }
  }

  ghost function Earliest(s: State): (id: nat)
    requires Shape(s) && s.pending != {}
    ensures IsEarliest(s, id)
  {
    assert exists i :: IsEarliest(s, i) by {
      var i := EarliestIn(s.entries, s.pending);
      assert IsEarliest(s, i);
    }
    var id :| IsEarliest(s, id); id
  }

  /** The loop of advanceTo goes on: the root of the heap is due. */
  ghost predicate Due(s: State, target: int)
    requires Shape(s)
  {
    s.pending != {} && s.entries[Earliest(s)].deadline <= target
  }

  function Pop(s: State, id: nat): State
    requires id < |s.entries|
  {
    s.(pending := s.pending - {id}, now := s.entries[id].deadline)
  }

  function MarkFired(s: State, id: nat): State
    requires id < |s.entries|
  {
    var e := s.entries[id];
    s.(entries := s.entries[id := e.(fired := true)],
       log := s.log + [Firing(id, e.kind, e.deadline, s.now)])
  }

  /** virtualTicker.fire: a non-blocking send, then the next tick. */
  function TickerFire(s: State, k: nat): State
    requires k < |s.tickers| && s.tickers[k].ch < |s.bufs|
  {
    var t := s.tickers[k];
    if t.stopped then s
    else
      var sent := if s.bufs[t.ch].None? then s.(bufs := s.bufs[t.ch := Some(s.now)]) else s;
      Push(sent.(tickers := s.tickers[k := t.(entry := |s.entries|)]), s.now + t.interval, Tick(k))
  }

  predicate Ticks(s: State, kind: Kind)
    requires KindWf(s, kind)
  {
    kind.Tick? && !s.tickers[kind.ticker].stopped
  }

  /** How many more times the loop can turn on this entry before `target`. */
  function Turns(s: State, target: int, id: nat): nat
    requires id < |s.entries| && KindWf(s, s.entries[id].kind)
    requires Ticks(s, s.entries[id].kind) ==> s.tickers[s.entries[id].kind.ticker].interval > 0
  {
    var e := s.entries[id];
    if e.deadline > target then 0
    else if Ticks(s, e.kind) then 1 + (target - e.deadline) / s.tickers[e.kind.ticker].interval
    else 1
  }

  ghost function TurnsUpTo(s: State, target: int, n: nat): nat
    requires Wf(s) && n <= |s.entries|
  {
    if n == 0 then 0
    else TurnsUpTo(s, target, n - 1) + if n - 1 in s.pending then Turns(s, target, n - 1) else 0
  }

  ghost function TurnsLeft(s: State, target: int): nat
    requires Wf(s)
  {
    TurnsUpTo(s, target, |s.entries|)
  }

  /** `b` has the entries and intervals of `a`, and perhaps more entries. */
  ghost predicate Extends(a: State, b: State) {
    && |a.entries| <= |b.entries|
    && (forall i :: 0 <= i < |a.entries| ==>
          a.entries[i].deadline == b.entries[i].deadline && a.entries[i].kind == b.entries[i].kind)
    && |a.tickers| == |b.tickers|
    && (forall k :: 0 <= k < |a.tickers| ==>
          a.tickers[k].interval == b.tickers[k].interval && a.tickers[k].stopped == b.tickers[k].stopped)
  }

  lemma {:induction false} TurnsWithout(a: State, b: State, target: int, id: nat, n: nat)
    requires Wf(a) && Wf(b) && Extends(a, b) && n <= |a.entries|
    requires id in a.pending
    requires forall p :: p < n ==> (p in b.pending <==> p in a.pending && p != id)
    ensures TurnsUpTo(a, target, n) ==
            TurnsUpTo(b, target, n) + if id < n then Turns(a, target, id) else 0
  {
    if n > 0 {
      TurnsWithout(a, b, target, id, n - 1);
      assert Turns(a, target, n - 1) == Turns(b, target, n - 1);
    }
  }

  /** Taking the due root away leaves fewer turns. */
  lemma PopTurns(s: State, b: State, target: int, id: nat)
    requires Wf(s) && Wf(b) && Extends(s, b) && |b.entries| == |s.entries|
    requires id in s.pending && b.pending == s.pending - {id}
    requires s.entries[id].deadline <= target
    ensures TurnsLeft(b, target) < TurnsLeft(s, target)
  {
    TurnsWithout(s, b, target, id, |s.entries|);
  }

  lemma NextTick(gap: int, interval: int)
    requires interval > 0 && gap >= interval
    ensures (gap - interval) / interval == gap / interval - 1
  {
    assert gap == interval * (gap / interval) + gap % interval;
    var q := gap / interval - 1;
    assert gap - interval == interval * q + gap % interval;
    Quotient(interval, q, gap % interval);
  }

  lemma Quotient(d: int, q: int, r: int)
    requires d > 0 && 0 <= r < d
    ensures (d * q + r) / d == q
  {
    var x := d * q + r;
    var e := x / d - q;
    assert d * e == r - x % d by {
      assert x == d * (x / d) + x % d;
      assert d * e == d * (x / d) - d * q;
    }
    assert e >= 1 ==> d * e >= d;
    assert e <= -1 ==> d * e <= -d;
  }

  /** A ticker that re-arms itself uses up one turn. */
  lemma TickTurns(s: State, b: State, target: int, id: nat, k: nat)
    requires Wf(s) && Wf(b) && Extends(s, b) && |b.entries| == |s.entries| + 1
    requires id in s.pending && b.pending == s.pending - {id} + {|s.entries|}
    requires s.entries[id].kind == Tick(k) == b.entries[|s.entries|].kind && !s.tickers[k].stopped
    requires s.entries[id].deadline <= target
    requires b.entries[|s.entries|].deadline == s.entries[id].deadline + s.tickers[k].interval
    ensures TurnsLeft(b, target) < TurnsLeft(s, target)
  {
    var n := |s.entries|;
    TurnsWithout(s, b, target, id, n);
    var gap, interval := target - s.entries[id].deadline, s.tickers[k].interval;
    if gap >= interval { NextTick(gap, interval); }
  }

  // ---------- advanceTo and whole runs ----------

  /** One turn of the loop of advanceTo on a due entry, up to the callback. */
  function Fire(s: State, id: nat): State
    requires id < |s.entries|
  {
    if s.entries[id].stopped then Pop(s, id) else MarkFired(Pop(s, id), id)
  }

  /** The end of the loop: the clock reads the target. */
  function Finish(s: State, target: int): State {
    s.(now := target, rewound := s.rewound || target < s.now)
  }

  lemma FireShape(s: State, id: nat)
    requires Shape(s) && id in s.pending
    ensures Shape(Fire(s, id)) && (Paced(s) ==> Paced(Fire(s, id))) && Extends(s, Fire(s, id))
  {}

  /** One turn of the loop on a due entry, up to the user's callback: a tombstone
      is dropped, a ticker re-arms itself, a channel takes the deadline or blocks. */
  ghost function Turn(s: State, id: nat): State
    requires Shape(s) && id in s.pending
  {
    FireShape(s, id);
    var e := s.entries[id];
    var f := Fire(s, id);
    if e.stopped then f
    else match e.kind
      case Func(_) => f
      case Chan(_, c) =>
        if f.bufs[c].Some? then f.(blocked := true) else f.(bufs := f.bufs[c := Some(e.deadline)])
      case Tick(k) => TickerFire(f, k)
  }

  /** The entry runs a user callback that still has operations to make. */
  predicate CallsBack(s: State, id: nat)
    requires id < |s.entries|
  {
    !s.entries[id].stopped && s.entries[id].kind.Func? && s.script != []
  }

  lemma TickShape(s: State, k: nat)
    requires Shape(s) && k < |s.tickers|
    ensures Shape(TickerFire(s, k)) && (Paced(s) ==> Paced(TickerFire(s, k))) && Extends(s, TickerFire(s, k))
  {}

  lemma SendShape(s: State, c: nat, time: int)
    requires Shape(s) && c < |s.bufs|
    ensures var sent, waits := s.(bufs := s.bufs[c := Some(time)]), s.(blocked := true);
            && Shape(sent) && (Paced(s) ==> Paced(sent)) && Extends(s, sent)
            && Shape(waits) && (Paced(s) ==> Paced(waits)) && Extends(s, waits)
  {}

  lemma TurnShape(s: State, id: nat)
    requires Shape(s) && id in s.pending
    ensures Shape(Turn(s, id)) && (Paced(s) ==> Paced(Turn(s, id)))
    ensures Extends(s, Turn(s, id)) && Turn(s, id).script == s.script
  {
    FireShape(s, id);
    var e, f, t := s.entries[id], Fire(s, id), Turn(s, id);
    if e.stopped || e.kind.Func? {
      assert t == f;
    } else if e.kind.Tick? {
      TickShape(f, e.kind.ticker);
      assert t == TickerFire(f, e.kind.ticker);
      ExtendsMore(s, f, t);
    } else {
      SendShape(f, e.kind.ch, e.deadline);
      ExtendsMore(s, f, t);
    }
  }

  lemma ExtendsMore(a: State, b: State, c: State)
    requires Extends(a, b) && Extends(b, c)
    ensures Extends(a, c)
  {}

  /** What a turn leaves pending was pending before, or is the next tick. */
  lemma TurnRearms(s: State, id: nat)
    requires Shape(s) && id in s.pending
    ensures forall p :: p in Turn(s, id).pending ==> Rearmed(s, Turn(s, id), id, p)
  {
    FireShape(s, id);
    var e, f, t := s.entries[id], Fire(s, id), Turn(s, id);
    forall p | p in f.pending ensures Rearmed(s, f, id, p) {}
    if !e.stopped && e.kind.Tick? { TickRearms(s, f, id, e.kind.ticker); }
  }

  predicate Rearmed(s: State, t: State, id: nat, p: nat) {
    && p < |t.entries|
    && if p < |s.entries| then p in s.pending && p != id && t.entries[p] == s.entries[p] else t.entries[p].kind.Tick?
  }

  lemma TickRearms(s: State, f: State, id: nat, k: nat)
    requires Shape(f) && k < |f.tickers| && |f.entries| == |s.entries| && forall p :: p in f.pending ==> Rearmed(s, f, id, p)
    ensures forall p :: p in TickerFire(f, k).pending ==> Rearmed(s, TickerFire(f, k), id, p)
  {
    var t := TickerFire(f, k);
    forall p | p in t.pending ensures Rearmed(s, t, id, p) {
      if p in f.pending { assert Rearmed(s, f, id, p); }
    }
  }

  /** Every turn uses up a turn: the loop ends. */
  lemma TurnDecreases(s: State, target: int, id: nat)
    requires Wf(s) && id in s.pending && s.entries[id].deadline <= target
    ensures Wf(Turn(s, id)) && Turn(s, id).script == s.script && Turn(s, id).rewound == s.rewound
    ensures TurnsLeft(Turn(s, id), target) < TurnsLeft(s, target)
  {
    TurnShape(s, id);
    var e, t := s.entries[id], Turn(s, id);
    if |t.entries| == |s.entries| {
      PopTurns(s, t, target, id);
    } else {
      TickTurns(s, t, target, id, e.kind.ticker);
    }
  }

  ghost function AdvanceLoop(s: State, target: int): (r: State)
    requires Wf(s)
    ensures Wf(r) && |r.script| <= |s.script| && (s.rewound ==> r.rewound)
    decreases |s.script|, 0, TurnsLeft(s, target)
  {
    if s.blocked then s
    else if !Due(s, target) then Finish(s, target)
    else
      var id := Earliest(s);
      TurnDecreases(s, target, id);
      var t := Turn(s, id);
      if CallsBack(s, id) then
        AdvanceLoop(RunOps(t.(script := t.script[1..]), t.script[0]), target)
      else
        AdvanceLoop(t, target)
  }

  /** One operation of a program or of a callback. */
  ghost function Exec(s: State, op: Op): (r: State)
    requires Wf(s) && OpWf(op)
    ensures Wf(r) && |r.script| <= |s.script| && (s.rewound ==> r.rewound)
    decreases |s.script|, 1, 0
  {
    if op.Advance? then AdvanceLoop(s, s.now + op.d)
    else if op.AdvanceTo? then AdvanceLoop(s, op.target)
    else Apply(s, op)
  }

  /** A list of operations, in order; nothing follows an advance that blocked. */
  ghost function RunOps(s: State, ops: seq<Op>): (r: State)
    requires Wf(s) && OpsWf(ops)
    ensures Wf(r) && |r.script| <= |s.script| && (s.rewound ==> r.rewound)
    decreases |s.script|, 2, |ops|
  {
    if ops == [] || s.blocked then s
    else RunOps(Exec(s, ops[0]), ops[1..])
  }
}
