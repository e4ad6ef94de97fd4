/** What the channels of the clock hold, told from the firings alone: the time of the first
    firing since the channel was last received from.  A later tick is dropped, and a later
    send of a timer waits, so neither replaces it. */
module ClockContents {
  import opened Collections
  import opened ClockModel
  import opened ClockRuns
  import opened ClockChannels

  /** The firing is one of a timer or ticker that sends on the channel. */
  predicate FiredOn(tickers: seq<Ticker>, f: Firing, c: nat) {
    match f.kind
    case Func(_) => false
    case Chan(_, ch) => ch == c
    case Tick(k) => k < |tickers| && tickers[k].ch == c
  }

  /** A ticker sends the time that the clock reads, a timer its deadline. */
  function Sends(f: Firing): int {
    if f.kind.Tick? then f.seen else f.deadline
  }

  /** The first firing on the channel from position `from` on. */
  predicate FirstOn(tickers: seq<Ticker>, log: seq<Firing>, from: nat, c: nat, i: int) {
    && from <= i < |log| && FiredOn(tickers, log[i], c)
    && forall j :: from <= j < i ==> !FiredOn(tickers, log[j], c)
  }

  ghost predicate Holds(tickers: seq<Ticker>, log: seq<Firing>, from: nat, c: nat, buf: Option<int>) {
    && from <= |log|
    && match buf
       case None => forall i :: from <= i < |log| ==> !FiredOn(tickers, log[i], c)
       case Some(t) => exists i :: FirstOn(tickers, log, from, c, i) && t == Sends(log[i])
  }

  ghost predicate Contents(s: State) {
    && (forall c :: 0 <= c < |s.bufs| ==> Holds(s.tickers, s.log, Get(s.received, c), c, s.bufs[c]))
    && (forall c :: c in s.received ==> c < |s.bufs|)
  }

  /** No two tickers share a channel. */
  predicate Apart(tickers: seq<Ticker>) {
    forall k, l :: 0 <= k < |tickers| && 0 <= l < |tickers| && k != l ==> tickers[k].ch != tickers[l].ch
  }

  /** The tickers of `a`, and perhaps one more, on another channel. */
  predicate SameOn(a: seq<Ticker>, b: seq<Ticker>, c: nat) {
    && |a| <= |b|
    && (forall k :: 0 <= k < |a| ==> a[k].ch == b[k].ch)
    && (forall k :: |a| <= k < |b| ==> b[k].ch != c)
  }

  lemma SameFirings(a: seq<Ticker>, b: seq<Ticker>, f: Firing, c: nat)
    requires SameOn(a, b, c)
    ensures FiredOn(a, f, c) <==> FiredOn(b, f, c)
  {}

  lemma HoldsWith(a: seq<Ticker>, b: seq<Ticker>, log: seq<Firing>, from: nat, c: nat, buf: Option<int>)
    requires SameOn(a, b, c) && Holds(a, log, from, c, buf)
    ensures Holds(b, log, from, c, buf)
  {
    forall i | 0 <= i < |log| ensures FiredOn(a, log[i], c) <==> FiredOn(b, log[i], c) { SameFirings(a, b, log[i], c); }
    if buf.Some? {
      var i :| FirstOn(a, log, from, c, i) && buf.value == Sends(log[i]);
      assert FirstOn(b, log, from, c, i);
    }
  }

  /** What a send on the channel leaves in it. */
  function After(buf: Option<int>, on: bool, f: Firing): Option<int> {
    if on && buf.None? then Some(Sends(f)) else buf
  }

  lemma HoldsNext(tickers: seq<Ticker>, log: seq<Firing>, from: nat, c: nat, buf: Option<int>, f: Firing)
    requires Holds(tickers, log, from, c, buf)
    ensures Holds(tickers, log + [f], from, c, After(buf, FiredOn(tickers, f, c), f))
  {
    var longer := log + [f];
    assert forall i :: 0 <= i < |log| ==> longer[i] == log[i];
    if buf.Some? {
      var i :| FirstOn(tickers, log, from, c, i) && buf.value == Sends(log[i]);
      assert FirstOn(tickers, longer, from, c, i);
    } else if FiredOn(tickers, f, c) {
      assert FirstOn(tickers, longer, from, c, |log|);
    }
  }

  // ---------- every step keeps it ----------

  /** Only Receive moves the mark of a channel, and only Receive empties one. */
  lemma ApplyMarks(s: State, op: Op)
    requires Shape(s) && !op.Advance? && !op.AdvanceTo?
    ensures var r := Apply(s, op);
            && |s.bufs| <= |r.bufs|
            && (forall c: nat :: Get(r.received, c) == if op == Receive(c) && c < |s.bufs| then |s.log| else Get(s.received, c))
            && (forall c :: 0 <= c < |s.bufs| ==> r.bufs[c] == if op == Receive(c) then None else s.bufs[c])
            && (forall c :: |s.bufs| <= c < |r.bufs| ==> r.bufs[c] == None)
  {}

  lemma TurnMarks(s: State, id: nat)
    requires Shape(s) && id in s.pending
    ensures Turn(s, id).received == s.received && |Turn(s, id).bufs| == |s.bufs|
  {
    FireShape(s, id);
    if !s.entries[id].stopped && s.entries[id].kind.Tick? { FireMarks(Fire(s, id), s.entries[id].kind.ticker); }
  }

  lemma FireMarks(s: State, k: nat)
    requires Shape(s) && k < |s.tickers|
    ensures TickerFire(s, k).received == s.received && |TickerFire(s, k).bufs| == |s.bufs|
  {}

  lemma ApplyTickers(s: State, op: Op, c: nat)
    requires Shape(s) && !op.Advance? && !op.AdvanceTo? && Apart(s.tickers)
    ensures Apart(Apply(s, op).tickers) && (c < |s.bufs| ==> SameOn(s.tickers, Apply(s, op).tickers, c))
  {}

  /** A channel that is not made yet has no firings. */
  lemma NothingOnNew(s: State, r: State, c: nat)
    requires Shape(s) && Logged(s) && |s.bufs| <= c && r.log == s.log
    requires |s.tickers| <= |r.tickers| && forall k :: 0 <= k < |s.tickers| ==> r.tickers[k].ch == s.tickers[k].ch
    ensures Holds(r.tickers, r.log, 0, c, None)
  {
    forall i | 0 <= i < |s.log| ensures !FiredOn(r.tickers, s.log[i], c) {
      assert LogMatches(s, s.log[i]);
      assert KindWf(s, s.entries[s.log[i].id].kind);
    }
  }

  lemma ApplyKeepsContents(s: State, op: Op)
    requires Shape(s) && Logged(s) && Contents(s) && Apart(s.tickers) && !op.Advance? && !op.AdvanceTo?
    ensures Contents(Apply(s, op)) && Apart(Apply(s, op).tickers)
  {
    var r := Apply(s, op);
    ApplyMarks(s, op);
    ApplyTickers(s, op, 0);
    ApplyGrown(s, op);
    forall c | 0 <= c < |r.bufs| ensures Holds(r.tickers, r.log, Get(r.received, c), c, r.bufs[c]) {
      if c >= |s.bufs| {
        assert c !in s.received;
        NothingOnNew(s, r, c);
      } else if op != Receive(c) {
        ApplyTickers(s, op, c);
        HoldsWith(s.tickers, r.tickers, s.log, Get(s.received, c), c, s.bufs[c]);
      }
    }
  }

  /** What the firing that a turn makes is, and what it leaves in each channel. */
  lemma TurnFires(s: State, id: nat, c: nat)
    requires Shape(s) && Owned(s) && id in s.pending && !s.entries[id].stopped && c < |s.bufs|
    ensures var e, t := s.entries[id], Turn(s, id);
            var f := Firing(id, e.kind, e.deadline, e.deadline);
            t.log == s.log + [f] && |t.bufs| == |s.bufs| && t.bufs[c] == After(s.bufs[c], FiredOn(s.tickers, f, c), f)
  {
    assert IsCurrent(s, id);
  }

  lemma TurnTickers(s: State, id: nat)
    requires Shape(s) && id in s.pending
    ensures SameChannels(s.tickers, Turn(s, id).tickers)
  {
    FireShape(s, id);
    var f := Fire(s, id);
    if !s.entries[id].stopped && s.entries[id].kind.Tick? { FireChannels(f, s.entries[id].kind.ticker); }
  }

  predicate SameChannels(a: seq<Ticker>, b: seq<Ticker>) {
    |a| == |b| && forall k :: 0 <= k < |a| ==> a[k].ch == b[k].ch
  }

  lemma FireChannels(s: State, k: nat)
    requires Shape(s) && k < |s.tickers|
    ensures SameChannels(s.tickers, TickerFire(s, k).tickers)
  {}

  lemma ChannelsKept(a: seq<Ticker>, b: seq<Ticker>, c: nat)
    requires SameChannels(a, b) && Apart(a)
    ensures Apart(b) && SameOn(a, b, c)
  {}

  lemma TurnKeepsContents(s: State, id: nat)
    requires Shape(s) && Owned(s) && Contents(s) && Apart(s.tickers) && id in s.pending
    ensures Contents(Turn(s, id)) && Apart(Turn(s, id).tickers)
  {
    var t := Turn(s, id);
    TurnMarks(s, id);
    TurnTickers(s, id);
    ChannelsKept(s.tickers, t.tickers, 0);
    forall c | 0 <= c < |t.bufs| ensures Holds(t.tickers, t.log, Get(t.received, c), c, t.bufs[c]) {
      ChannelsKept(s.tickers, t.tickers, c);
      if !s.entries[id].stopped {
        TurnFires(s, id, c);
        HoldsNext(s.tickers, s.log, Get(s.received, c), c, s.bufs[c], t.log[|s.log|]);
      }
      HoldsWith(s.tickers, t.tickers, t.log, Get(t.received, c), c, t.bufs[c]);
    }
  }

  // ---------- and so does every run ----------

  /** The invariant of runs. */
  ghost predicate Told(s: State) {
    Inv(s) && Contents(s) && Apart(s.tickers)
  }

  lemma ToldIgnores(a: State, b: State)
    requires Told(a) && Wf(b)
    requires a.entries == b.entries && a.pending == b.pending && a.log == b.log
    requires a.timers == b.timers && a.tickers == b.tickers && a.bufs == b.bufs && a.received == b.received
    ensures Told(b)
  {
    InvIgnores(a, b);
  }

  lemma CallKeepsTold(s: State)
    requires Told(s) && s.script != []
    ensures Told(s.(script := s.script[1..])) && OpsWf(s.script[0])
  {
    ToldIgnores(s, s.(script := s.script[1..]));
  }

  lemma TurnKeepsTold(s: State, id: nat)
    requires Told(s) && id in s.pending
    ensures Told(Turn(s, id))
  {
    TurnKeepsInv(s, id);
    TurnKeepsContents(s, id);
  }

  lemma {:induction false} AdvanceKeepsTold(s: State, target: int)
    requires Told(s)
    ensures Told(AdvanceLoop(s, target))
    decreases |s.script|, 0, TurnsLeft(s, target)
  {
    if s.blocked {
    } else if !Due(s, target) {
      ToldIgnores(s, Finish(s, target));
    } else {
      var id := Earliest(s);
      TurnDecreases(s, target, id);
      TurnKeepsTold(s, id);
      var t := Turn(s, id);
      if CallsBack(s, id) {
        var called := t.(script := t.script[1..]);
        CallKeepsTold(t);
        RunKeepsTold(called, t.script[0]);
        AdvanceKeepsTold(RunOps(called, t.script[0]), target);
      } else {
        AdvanceKeepsTold(t, target);
      }
    }
  }

  lemma {:induction false} RunKeepsTold(s: State, ops: seq<Op>)
    requires Told(s) && OpsWf(ops)
    ensures Told(RunOps(s, ops))
    decreases |s.script|, 2, |ops|
  {
    if ops != [] && !s.blocked {
      ExecKeepsTold(s, ops[0]);
      RunKeepsTold(Exec(s, ops[0]), ops[1..]);
    }
  }

  lemma {:induction false} ExecKeepsTold(s: State, op: Op)
    requires Told(s) && OpWf(op)
    ensures Told(Exec(s, op))
    decreases |s.script|, 1, 0
  {
    if op.Advance? {
      AdvanceKeepsTold(s, s.now + op.d);
    } else if op.AdvanceTo? {
      AdvanceKeepsTold(s, op.target);
    } else {
      ApplyKeepsInv(s, op);
      ApplyKeepsContents(s, op);
      assert Exec(s, op) == Apply(s, op);
    }
  }

  // ---------- what is in a channel ----------

  /** Position `i` is the first at or after `from` at which `wanted` fired. */
  predicate FirstFiring(log: seq<Firing>, from: nat, wanted: Firing -> bool, i: int) {
    from <= i < |log| && wanted(log[i]) && forall j :: from <= j < i ==> !wanted(log[j])
  }

  /** On any clock, after any program: the channel of a ticker is empty if and only if the ticker
      has not fired since the channel was last received from, and a time in it is what the clock
      read at the first such firing. */
  lemma TickerChannelHolds(start: int, script: seq<seq<Op>>, ops: seq<Op>, k: nat)
    requires OpsWf(ops) && Wf(Init(start, script))
    ensures var s := RunOps(Init(start, script), ops);
            k < |s.tickers| ==>
              var c := s.tickers[k].ch;
              c < |s.bufs| &&
              match s.bufs[c]
              case None => forall i :: Get(s.received, c) <= i < |s.log| ==> s.log[i].kind != Tick(k)
              case Some(t) =>
                exists i :: FirstFiring(s.log, Get(s.received, c), (f: Firing) => f.kind == Tick(k), i) && s.log[i].seen == t
  {
    var s := Run(start, script, ops);
    if k < |s.tickers| {
      var c := s.tickers[k].ch;
      forall i | 0 <= i < |s.log| ensures FiredOn(s.tickers, s.log[i], c) <==> s.log[i].kind == Tick(k) {
        OnTickersChannel(s, k, i);
      }
      assert Holds(s.tickers, s.log, Get(s.received, c), c, s.bufs[c]);
      if s.bufs[c].Some? {
        var i :| FirstOn(s.tickers, s.log, Get(s.received, c), c, i) && s.bufs[c].value == Sends(s.log[i]);
        assert FirstFiring(s.log, Get(s.received, c), (f: Firing) => f.kind == Tick(k), i) && s.log[i].seen == s.bufs[c].value;
      }
    }
  }

  /** The same for the channel of a timer, whose time is the deadline of its first firing since. */
  lemma TimerChannelHolds(start: int, script: seq<seq<Op>>, ops: seq<Op>, h: nat)
    requires OpsWf(ops) && Wf(Init(start, script))
    ensures var s := RunOps(Init(start, script), ops);
            h < |s.timers| && s.entries[s.timers[h]].kind.Chan? ==>
              var c := s.entries[s.timers[h]].kind.ch;
              c < |s.bufs| &&
              match s.bufs[c]
              case None => forall i :: Get(s.received, c) <= i < |s.log| ==> s.log[i].kind != Chan(h, c)
              case Some(t) =>
                exists i :: FirstFiring(s.log, Get(s.received, c), (f: Firing) => f.kind == Chan(h, c), i) && s.log[i].deadline == t
  {
    var s := Run(start, script, ops);
    if h < |s.timers| && s.entries[s.timers[h]].kind.Chan? {
      var c := s.entries[s.timers[h]].kind.ch;
      forall i | 0 <= i < |s.log| ensures FiredOn(s.tickers, s.log[i], c) <==> s.log[i].kind == Chan(h, c) {
        OnTimersChannel(s, h, i);
      }
      assert Holds(s.tickers, s.log, Get(s.received, c), c, s.bufs[c]);
      if s.bufs[c].Some? {
        var i :| FirstOn(s.tickers, s.log, Get(s.received, c), c, i) && s.bufs[c].value == Sends(s.log[i]);
        assert FirstFiring(s.log, Get(s.received, c), (f: Firing) => f.kind == Chan(h, c), i) && s.log[i].deadline == s.bufs[c].value;
      }
    }
  }

  lemma Run(start: int, script: seq<seq<Op>>, ops: seq<Op>) returns (s: State)
    requires OpsWf(ops) && Wf(Init(start, script))
    ensures s == RunOps(Init(start, script), ops) && Told(s) && Separate(s)
  {
    InitReady(start, script);
    RunKeepsTold(Init(start, script), ops);
    RunKeepsSeparate(Init(start, script), ops);
    s := RunOps(Init(start, script), ops);
  }

  lemma OnTickersChannel(s: State, k: nat, i: nat)
    requires Told(s) && Separate(s) && k < |s.tickers| && i < |s.log|
    ensures FiredOn(s.tickers, s.log[i], s.tickers[k].ch) <==> s.log[i].kind == Tick(k)
  {
    assert LogMatches(s, s.log[i]);
    assert NotTickers(s.entries[s.log[i].id].kind, s.tickers[k]);
  }

  lemma OnTimersChannel(s: State, h: nat, i: nat)
    requires Told(s) && Separate(s) && h < |s.timers| && s.entries[s.timers[h]].kind.Chan? && i < |s.log|
    ensures var c := s.entries[s.timers[h]].kind.ch;
            FiredOn(s.tickers, s.log[i], c) <==> s.log[i].kind == Chan(h, c)
  {
    var mine := s.entries[s.timers[h]].kind;
    assert TimerOwns(s, h);
    assert LogMatches(s, s.log[i]);
    var kind := s.entries[s.log[i].id].kind;
    assert SameOwner(kind, mine);
    if kind.Tick? { assert NotTickers(mine, s.tickers[kind.ticker]); }
  }
}
