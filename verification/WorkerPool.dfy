/** The bounded worker pool for fleet operations, as a state machine over every
    interleaving of its workers, its closer and its collector. */
module WorkerPool {
  import opened Collections

  type Name = string

  datatype Result = Result(name: Name, code: int)

  /** A worker waits for work, runs the operation, has a result to hand over, or is gone. */
  datatype Worker = Idle | Running(name: Name) | Holding(result: Result) | Exited

  /** The work channel holds `names[taken..]` and is closed from the start; the results
      channel holds `sent[received..]`, with room for one result per name. `calls` is the
      history of operations performed. */
  datatype State = State(
    names: seq<Name>, taken: nat, workers: seq<Worker>, calls: seq<Name>, sent: seq<Result>, received: nat,
    succeeded: nat, failed: nat, closed: bool, finished: bool)

  datatype Step = Take(w: nat) | Call(w: nat, code: int) | Send(w: nat) | Exit(w: nat) | Close | Collect | Stop

  const EXIT_OK := 0
  const EXIT_ERROR := 1

  /** How many workers are started. */
  function Workers(names: seq<Name>, parallel: int): nat {
    var clamped := if parallel < 1 then 1 else if parallel > 64 then 64 else parallel;
    if clamped > |names| then |names| else clamped
  }

  function AllIdle(n: nat): (ws: seq<Worker>)
    ensures |ws| == n && forall i :: 0 <= i < n ==> ws[i] == Idle
  {
    if n == 0 then [] else AllIdle(n - 1) + [Idle]
  }

  function Start(names: seq<Name>, parallel: int): State {
    State(names, 0, AllIdle(Workers(names, parallel)), [], [], 0, 0, 0, false, false)
  }

  predicate Enabled(s: State, step: Step) {
    match step
    case Take(w) => w < |s.workers| && s.workers[w] == Idle && s.taken < |s.names|
    case Call(w, _) => w < |s.workers| && s.workers[w].Running?
    case Send(w) => w < |s.workers| && s.workers[w].Holding? && |s.sent| - s.received < |s.names|
    case Exit(w) => w < |s.workers| && s.workers[w] == Idle && s.taken >= |s.names|
    case Close => !s.closed && forall i :: 0 <= i < |s.workers| ==> s.workers[i] == Exited
    case Collect => !s.finished && s.received < |s.sent|
    case Stop => !s.finished && s.closed && s.received >= |s.sent|
  }

  function Apply(s: State, step: Step): State
    requires Enabled(s, step)
  {
    match step
    case Take(w) => s.(taken := s.taken + 1, workers := s.workers[w := Running(s.names[s.taken])])
    case Call(w, code) =>
      var name := s.workers[w].name;
      s.(calls := s.calls + [name], workers := s.workers[w := Holding(Result(name, code))])
    case Send(w) => s.(sent := s.sent + [s.workers[w].result], workers := s.workers[w := Idle])
    case Exit(w) => s.(workers := s.workers[w := Exited])
    case Close => s.(closed := true)
    case Collect =>
      if s.sent[s.received].code == EXIT_OK then s.(received := s.received + 1, succeeded := s.succeeded + 1)
      else s.(received := s.received + 1, failed := s.failed + 1)
    case Stop => s.(finished := true)
  }

  function ExitCode(failed: nat): int {
    if failed > 0 then EXIT_ERROR else EXIT_OK
  }

  // ---------- conservation ----------

  /** What can be counted over the workers: those inside whose hands a name is, those that
      performed its operation, those with anything in hand, and the steps they have left. */
  datatype Gauge = Has(name: Name) | Did(name: Name) | Busy | Steps

  function Weight(w: Worker, g: Gauge): nat {
    match g
    case Has(n) => if (w.Running? && w.name == n) || (w.Holding? && w.result.name == n) then 1 else 0
    case Did(n) => if w.Holding? && w.result.name == n then 1 else 0
    case Busy => if w.Running? || w.Holding? then 1 else 0
    case Steps => if w.Idle? then 1 else if w.Running? then 4 else if w.Holding? then 3 else 0
  }

  function Total(ws: seq<Worker>, g: Gauge): nat {
    if ws == [] then 0 else Total(ws[..|ws| - 1], g) + Weight(ws[|ws| - 1], g)
  }

  lemma {:induction false} WorkerChanges(ws: seq<Worker>, i: nat, w: Worker, g: Gauge)
    requires i < |ws|
    ensures Total(ws[i := w], g) + Weight(ws[i], g) == Total(ws, g) + Weight(w, g)
  {
    var n := |ws| - 1;
    if i == n {
      assert ws[i := w][..n] == ws[..n];
    } else {
      WorkerChanges(ws[..n], i, w, g);
      assert ws[i := w][..n] == ws[..n][i := w];
    }
  }

  lemma {:induction false} WeighsAlike(ws: seq<Worker>, w: Worker, g: Gauge)
    requires forall i :: 0 <= i < |ws| ==> ws[i] == w
    ensures Total(ws, g) == |ws| * Weight(w, g)
  {
    if ws != [] { WeighsAlike(ws[..|ws| - 1], w, g); }
  }

  function Occurs(names: seq<Name>, n: Name): nat {
    if names == [] then 0 else Occurs(names[..|names| - 1], n) + if names[|names| - 1] == n then 1 else 0
  }

  lemma OccursAppend(names: seq<Name>, m: Name, n: Name)
    ensures Occurs(names + [m], n) == Occurs(names, n) + if m == n then 1 else 0
  {
    assert (names + [m])[..|names|] == names;
  }

  lemma {:induction false} OccursIsMultiplicity(names: seq<Name>, n: Name)
    ensures Occurs(names, n) == multiset(names)[n]
  {
    if names != [] {
      OccursIsMultiplicity(names[..|names| - 1], n);
      assert names == names[..|names| - 1] + [names[|names| - 1]];
    }
  }

  function NamesOf(rs: seq<Result>): (names: seq<Name>)
    ensures |names| == |rs|
  {
    if rs == [] then [] else NamesOf(rs[..|rs| - 1]) + [rs[|rs| - 1].name]
  }

  function FailedIn(rs: seq<Result>): nat {
    if rs == [] then 0 else FailedIn(rs[..|rs| - 1]) + if rs[|rs| - 1].code == EXIT_OK then 0 else 1
  }

  lemma ResultAppend(rs: seq<Result>, r: Result)
    ensures NamesOf(rs + [r]) == NamesOf(rs) + [r.name]
  {
    assert (rs + [r])[..|rs|] == rs;
  }

  lemma FailedNext(rs: seq<Result>, i: nat)
    requires i < |rs|
    ensures FailedIn(rs[..i + 1]) == FailedIn(rs[..i]) + if rs[i].code == EXIT_OK then 0 else 1
  {
    assert rs[..i + 1][..i] == rs[..i];
  }

  /** A name taken is in the hands of a worker or in a result; an operation performed is
      for a name whose result waits to be handed over, or was. */
  predicate Accounted(s: State, n: Name)
    requires s.taken <= |s.names|
  {
    && Occurs(s.names[..s.taken], n) == Total(s.workers, Has(n)) + Occurs(NamesOf(s.sent), n)
    && Occurs(s.calls, n) == Total(s.workers, Did(n)) + Occurs(NamesOf(s.sent), n)
  }

  /** The order in which things end. */
  ghost predicate Orderly(s: State) {
    && s.taken <= |s.names| && s.received <= |s.sent|
    && (forall i :: 0 <= i < |s.workers| && s.workers[i] == Exited ==> s.taken == |s.names|)
    && (s.workers == [] ==> s.names == [])
    && (s.closed ==> forall i :: 0 <= i < |s.workers| ==> s.workers[i] == Exited)
    && (s.finished ==> s.closed && s.received == |s.sent|)
  }

  ghost predicate Tallied(s: State)
    requires s.received <= |s.sent|
  {
    s.failed == FailedIn(s.sent[..s.received]) && s.succeeded + s.failed == s.received
  }

  ghost predicate Inv(s: State) {
    && Orderly(s) && Tallied(s)
    && s.taken == Total(s.workers, Busy) + |s.sent|
    && forall n: Name :: Accounted(s, n)
  }

  lemma StartInv(names: seq<Name>, parallel: int)
    ensures Inv(Start(names, parallel))
  {
    var s := Start(names, parallel);
    WeighsAlike(s.workers, Idle, Busy);
    forall n: Name ensures Accounted(s, n) {
      WeighsAlike(s.workers, Idle, Has(n));
      WeighsAlike(s.workers, Idle, Did(n));
    }
  }

  lemma TakeAccounts(s: State, w: nat, n: Name)
    requires s.taken <= |s.names| && Enabled(s, Take(w)) && Accounted(s, n)
    ensures Accounted(Apply(s, Take(w)), n)
  {
    var name := s.names[s.taken];
    WorkerChanges(s.workers, w, Running(name), Has(n));
    WorkerChanges(s.workers, w, Running(name), Did(n));
    assert s.names[..s.taken + 1] == s.names[..s.taken] + [name];
    OccursAppend(s.names[..s.taken], name, n);
  }

  lemma CallAccounts(s: State, w: nat, code: int, n: Name)
    requires s.taken <= |s.names| && Enabled(s, Call(w, code)) && Accounted(s, n)
    ensures Accounted(Apply(s, Call(w, code)), n)
  {
    var name := s.workers[w].name;
    WorkerChanges(s.workers, w, Holding(Result(name, code)), Has(n));
    WorkerChanges(s.workers, w, Holding(Result(name, code)), Did(n));
    OccursAppend(s.calls, name, n);
  }

  lemma SendAccounts(s: State, w: nat, n: Name)
    requires s.taken <= |s.names| && Enabled(s, Send(w)) && Accounted(s, n)
    ensures Accounted(Apply(s, Send(w)), n)
  {
    var r := s.workers[w].result;
    WorkerChanges(s.workers, w, Idle, Has(n));
    WorkerChanges(s.workers, w, Idle, Did(n));
    ResultAppend(s.sent, r);
    OccursAppend(NamesOf(s.sent), r.name, n);
  }

  lemma ExitAccounts(s: State, w: nat, n: Name)
    requires s.taken <= |s.names| && Enabled(s, Exit(w)) && Accounted(s, n)
    ensures Accounted(Apply(s, Exit(w)), n)
  {
    WorkerChanges(s.workers, w, Exited, Has(n));
    WorkerChanges(s.workers, w, Exited, Did(n));
  }

  lemma StepAccounts(s: State, step: Step, n: Name)
    requires s.taken <= |s.names| && Enabled(s, step) && Accounted(s, n)
    ensures Apply(s, step).taken <= |s.names| && Accounted(Apply(s, step), n)
  {
    match step
    case Take(w) => TakeAccounts(s, w, n);
    case Call(w, code) => CallAccounts(s, w, code, n);
    case Send(w) => SendAccounts(s, w, n);
    case Exit(w) => ExitAccounts(s, w, n);
    case _ =>
  }

  lemma StepBalances(s: State, step: Step)
    requires Enabled(s, step) && s.taken == Total(s.workers, Busy) + |s.sent|
    ensures Apply(s, step).taken == Total(Apply(s, step).workers, Busy) + |Apply(s, step).sent|
  {
    match step
    case Take(w) => WorkerChanges(s.workers, w, Running(s.names[s.taken]), Busy);
    case Call(w, code) => WorkerChanges(s.workers, w, Holding(Result(s.workers[w].name, code)), Busy);
    case Send(w) => WorkerChanges(s.workers, w, Idle, Busy);
    case Exit(w) => WorkerChanges(s.workers, w, Exited, Busy);
    case _ =>
  }

  lemma StepIsOrderly(s: State, step: Step)
    requires Enabled(s, step) && Orderly(s) && Tallied(s)
    ensures Orderly(Apply(s, step)) && Tallied(Apply(s, step))
  {
    match step
    case Send(w) => assert Apply(s, step).sent[..s.received] == s.sent[..s.received];
    case Collect => FailedNext(s.sent, s.received);
    case _ =>
  }

  lemma StepKeepsInv(s: State, step: Step)
    requires Inv(s) && Enabled(s, step)
    ensures Inv(Apply(s, step))
  {
    StepIsOrderly(s, step);
    StepBalances(s, step);
    forall n: Name ensures Accounted(Apply(s, step), n) { StepAccounts(s, step, n); }
  }

  // ---------- no worker ever blocks, and something can always happen ----------

  /** A worker with a result to hand over always finds room for it. */
  lemma NeverBlocks(s: State, w: nat)
    requires Inv(s) && w < |s.workers| && s.workers[w].Holding?
    ensures Enabled(s, Send(w))
  {
    WorkerChanges(s.workers, w, Idle, Busy);
  }

  /** Until the collector has finished, some step is possible. */
  lemma NoDeadlock(s: State)
    requires Inv(s) && !s.finished
    ensures exists step :: Enabled(s, step)
  {
    if w :| 0 <= w < |s.workers| && s.workers[w] != Exited {
      match s.workers[w]
      case Idle => assert Enabled(s, if s.taken < |s.names| then Take(w) else Exit(w));
      case Running(_) => assert Enabled(s, Call(w, EXIT_OK));
      case Holding(_) => NeverBlocks(s, w);
    } else if !s.closed {
      assert Enabled(s, Close);
    } else {
      assert Enabled(s, if s.received < |s.sent| then Collect else Stop);
    }
  }

  // ---------- every run takes the same number of steps ----------

  /** The steps still to come, whatever their order. */
  function StepsLeft(s: State): nat
    requires s.taken <= |s.names| && s.received <= |s.sent|
  {
    4 * (|s.names| - s.taken) + Total(s.workers, Steps) + (|s.sent| - s.received)
    + (if s.closed then 0 else 1) + (if s.finished then 0 else 1)
  }

  lemma StepCounts(s: State, step: Step)
    requires Inv(s) && Enabled(s, step)
    ensures Inv(Apply(s, step)) && StepsLeft(Apply(s, step)) == StepsLeft(s) - 1
  {
    StepKeepsInv(s, step);
    match step
    case Take(w) => WorkerChanges(s.workers, w, Running(s.names[s.taken]), Steps);
    case Call(w, code) => WorkerChanges(s.workers, w, Holding(Result(s.workers[w].name, code)), Steps);
    case Send(w) => WorkerChanges(s.workers, w, Idle, Steps);
    case Exit(w) => WorkerChanges(s.workers, w, Exited, Steps);
    case _ =>
  }

  ghost predicate IsRun(s: State, steps: seq<Step>, t: State)
    decreases |steps|
  {
    if steps == [] then s == t
    else Enabled(s, steps[0]) && IsRun(Apply(s, steps[0]), steps[1..], t)
  }

  lemma {:induction false} RunKeepsInv(s: State, steps: seq<Step>, t: State)
    requires Inv(s) && IsRun(s, steps, t)
    ensures Inv(t) && StepsLeft(t) + |steps| == StepsLeft(s) && t.names == s.names
    decreases |steps|
  {
    if steps != [] {
      StepCounts(s, steps[0]);
      RunKeepsInv(Apply(s, steps[0]), steps[1..], t);
    }
  }

  // ---------- what a run delivers ----------

  lemma AllDone(s: State)
    requires Inv(s) && s.finished
    ensures StepsLeft(s) == 0 && s.taken == s.received == |s.names| == |s.sent|
  {
    WeighsAlike(s.workers, Exited, Busy);
    WeighsAlike(s.workers, Exited, Steps);
    assert s.workers != [] ==> s.workers[0] == Exited;
  }

  lemma DoneOnce(s: State, n: Name)
    requires Inv(s) && s.finished
    ensures Occurs(NamesOf(s.sent), n) == Occurs(s.calls, n) == Occurs(s.names, n)
  {
    AllDone(s);
    assert s.names[..s.taken] == s.names;
    assert Accounted(s, n);
    WeighsAlike(s.workers, Exited, Has(n));
    WeighsAlike(s.workers, Exited, Did(n));
  }

  lemma SameMultiset(a: seq<Name>, b: seq<Name>)
    requires forall n: Name :: Occurs(a, n) == Occurs(b, n)
    ensures multiset(a) == multiset(b)
  {
    forall n: Name ensures multiset(a)[n] == multiset(b)[n] {
      OccursIsMultiplicity(a, n);
      OccursIsMultiplicity(b, n);
    }
  }

  /** Every name is operated on once for each time it is listed, and its results arrive. */
  lemma ExactlyOnce(s: State)
    requires Inv(s) && s.finished
    ensures multiset(s.calls) == multiset(s.names) && multiset(NamesOf(s.sent)) == multiset(s.names)
  {
    forall n: Name ensures Occurs(NamesOf(s.sent), n) == Occurs(s.calls, n) == Occurs(s.names, n) {
      DoneOnce(s, n);
    }
    SameMultiset(s.calls, s.names);
    SameMultiset(NamesOf(s.sent), s.names);
  }

  lemma StartSteps(names: seq<Name>, parallel: int)
    ensures Inv(Start(names, parallel))
    ensures StepsLeft(Start(names, parallel)) == 4 * |names| + Workers(names, parallel) + 2
  {
    StartInv(names, parallel);
    WeighsAlike(Start(names, parallel).workers, Idle, Steps);
  }

  lemma FinishedTally(s: State)
    requires Inv(s) && s.finished
    ensures s.succeeded + s.failed == |s.names| && s.failed == FailedIn(s.sent)
  {
    AllDone(s);
    assert s.sent[..s.received] == s.sent;
  }

  /** Whatever the interleaving: a run ends after exactly four steps a name, one a worker
      and two, and only then; until it ends it can go on. */
  lemma EveryRunEnds(names: seq<Name>, parallel: int, steps: seq<Step>, t: State)
    requires IsRun(Start(names, parallel), steps, t)
    ensures Inv(t) && t.names == names
    ensures t.finished <==> |steps| == 4 * |names| + Workers(names, parallel) + 2
    ensures !t.finished ==> exists step :: Enabled(t, step)
  {
    var s := Start(names, parallel);
    StartSteps(names, parallel);
    RunKeepsInv(s, steps, t);
    assert StepsLeft(t) == 0 ==> t.finished;
    if t.finished { AllDone(t); } else { NoDeadlock(t); }
  }

  /** Whatever the interleaving: when a run ends every name was operated on once for each
      time it is listed, and every result was tallied. */
  lemma EveryRunDelivers(names: seq<Name>, parallel: int, steps: seq<Step>, t: State)
    requires IsRun(Start(names, parallel), steps, t) && t.finished
    ensures multiset(t.calls) == multiset(names) && multiset(NamesOf(t.sent)) == multiset(names)
    ensures t.succeeded + t.failed == |names| && t.failed == FailedIn(t.sent)
  {
    EveryRunEnds(names, parallel, steps, t);
    ExactlyOnce(t);
    FinishedTally(t);
  }

  // ---------- agreement with the sequential form ----------

  function Failing(names: seq<Name>, op: Name -> int): nat {
    if names == [] then 0 else Failing(names[..|names| - 1], op) + if op(names[|names| - 1]) == 0 then 0 else 1
  }

  lemma FailingAppend(a: seq<Name>, n: Name, b: seq<Name>, op: Name -> int)
    ensures Failing(a + [n] + b, op) == Failing(a + b, op) + if op(n) == 0 then 0 else 1
    decreases |b|
  {
    if b == [] {
      assert (a + [n] + b)[..|a|] == a && a + b == a;
    } else {
      var k := |b| - 1;
      FailingAppend(a, n, b[..k], op);
      assert (a + [n] + b)[..|a| + 1 + k] == a + [n] + b[..k];
      assert (a + b)[..|a| + k] == a + b[..k];
    }
  }

  /** The number of failing names does not depend on their order. */
  lemma {:induction false} FailingAnyOrder(a: seq<Name>, b: seq<Name>, op: Name -> int)
    requires multiset(a) == multiset(b)
    ensures Failing(a, op) == Failing(b, op)
    decreases |a|
  {
    if a == [] {
      NothingLeft(b);
    } else {
      var front, back := TakeOut(a, b);
      FailingAnyOrder(a[..|a| - 1], front + back, op);
      FailingAppend(front, a[|a| - 1], back, op);
    }
  }

  /** All codes so far are those of an operation that depends only on the name. */
  ghost predicate Follows(s: State, op: Name -> int) {
    && (forall i :: 0 <= i < |s.sent| ==> s.sent[i].code == op(s.sent[i].name))
    && forall i :: 0 <= i < |s.workers| && s.workers[i].Holding? ==> s.workers[i].result.code == op(s.workers[i].result.name)
  }

  ghost predicate Allowed(s: State, step: Step, op: Name -> int) {
    Enabled(s, step) && (step.Call? ==> step.code == op(s.workers[step.w].name))
  }

  lemma StepFollows(s: State, step: Step, op: Name -> int)
    requires Follows(s, op) && Allowed(s, step, op)
    ensures Follows(Apply(s, step), op)
  {
  }

  lemma {:induction false} FailedIsFailing(rs: seq<Result>, op: Name -> int)
    requires forall i :: 0 <= i < |rs| ==> rs[i].code == op(rs[i].name)
    ensures FailedIn(rs) == Failing(NamesOf(rs), op)
  {
    if rs != [] {
      var k := |rs| - 1;
      FailedIsFailing(rs[..k], op);
      assert NamesOf(rs)[..k] == NamesOf(rs[..k]);
    }
  }

  lemma SameTally(s: State, op: Name -> int)
    requires Inv(s) && s.finished && Follows(s, op)
    ensures s.failed == Failing(s.names, op) && s.succeeded == |s.names| - s.failed
  {
    AllDone(s);
    ExactlyOnce(s);
    assert s.sent[..s.received] == s.sent;
    FailedIsFailing(s.sent, op);
    FailingAnyOrder(NamesOf(s.sent), s.names, op);
  }

  method RunSequential(names: seq<Name>, op: Name -> int) returns (succeeded: nat, failed: nat, code: int)
    ensures failed == Failing(names, op) && succeeded + failed == |names|
    ensures code == if exists i :: 0 <= i < |names| && op(names[i]) != 0 then 1 else 0
    ensures code == ExitCode(failed)
  {
    succeeded, failed := 0, 0;
    for i := 0 to |names|
      invariant failed == Failing(names[..i], op) && succeeded + failed == i
      invariant failed > 0 <==> exists j :: 0 <= j < i && op(names[j]) != 0
    {
      assert names[..i + 1][..i] == names[..i];
      if op(names[i]) == EXIT_OK { succeeded := succeeded + 1; } else { failed := failed + 1; }
    }
    assert names[..|names|] == names;
    code := ExitCode(failed);
  }

  ghost predicate Obeys(s: State, steps: seq<Step>, op: Name -> int)
    decreases |steps|
  {
    steps != [] ==> Allowed(s, steps[0], op) && Obeys(Apply(s, steps[0]), steps[1..], op)
  }

  lemma {:induction false} RunFollows(s: State, steps: seq<Step>, t: State, op: Name -> int)
    requires Follows(s, op) && IsRun(s, steps, t) && Obeys(s, steps, op)
    ensures Follows(t, op)
    decreases |steps|
  {
    if steps != [] {
      StepFollows(s, steps[0], op);
      RunFollows(Apply(s, steps[0]), steps[1..], t, op);
    }
  }

  /** Whatever the interleaving and the number of workers, an operation that depends only
      on the name gives the tallies of one pass over the names in order. */
  lemma SameAsSequential(names: seq<Name>, parallel: int, steps: seq<Step>, t: State, op: Name -> int)
    requires IsRun(Start(names, parallel), steps, t) && Obeys(Start(names, parallel), steps, op) && t.finished
    ensures t.failed == Failing(names, op) && t.succeeded == |names| - t.failed
  {
    EveryRunEnds(names, parallel, steps, t);
    RunFollows(Start(names, parallel), steps, t, op);
    SameTally(t, op);
  }

  /** Who moves next: a worker, the goroutine that closes the results, or the collector. */
  function StepOf(s: State, actor: nat, op: Name -> int): Step {
    if actor < |s.workers| then
      match s.workers[actor]
      case Idle => if s.taken < |s.names| then Take(actor) else Exit(actor)
      case Running(name) => Call(actor, op(name))
      case _ => Send(actor)
    else if actor == |s.workers| then Close
    else if s.received < |s.sent| then Collect
    else Stop
  }

  lemma SomeoneMoves(s: State, op: Name -> int)
    requires Inv(s) && !s.finished
    ensures exists actor: nat :: actor < |s.workers| + 2 && Enabled(s, StepOf(s, actor, op))
  {
    if w :| 0 <= w < |s.workers| && s.workers[w] != Exited {
      if s.workers[w].Holding? { NeverBlocks(s, w); }
      assert Enabled(s, StepOf(s, w, op));
    } else {
      var actor: nat := if s.closed then |s.workers| + 1 else |s.workers|;
      assert Enabled(s, StepOf(s, actor, op));
    }
  }

  /** One step of whoever the scheduler picks among those that can move. */
  method Schedule(s: State, op: Name -> int) returns (t: State)
    requires Inv(s) && Follows(s, op) && !s.finished
    ensures Inv(t) && Follows(t, op) && t.names == s.names && StepsLeft(t) == StepsLeft(s) - 1
  {
    SomeoneMoves(s, op);
    var actor: nat :| actor < |s.workers| + 2 && Enabled(s, StepOf(s, actor, op));
    StepCounts(s, StepOf(s, actor, op));
    StepFollows(s, StepOf(s, actor, op), op);
    t := Apply(s, StepOf(s, actor, op));
  }

  /** runParallel, with the scheduler free to let anyone who can move next: it always
      ends, with the exit code of one pass over the names in order. */
  method RunParallel(names: seq<Name>, parallel: int, op: Name -> int) returns (code: int)
    ensures code == ExitCode(Failing(names, op))
  {
    if Workers(names, parallel) == 1 {
      var _, _, sequential := RunSequential(names, op);
      return sequential;
    }
    var s := Start(names, parallel);
    StartInv(names, parallel);
    while !s.finished
      invariant Inv(s) && Follows(s, op) && s.names == names
      decreases StepsLeft(s)
    {
      s := Schedule(s, op);
    }
    SameTally(s, op);
    code := ExitCode(s.failed);
  }
}
