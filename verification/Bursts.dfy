/** The burst analysis: each peer's series cut into runs, and the updates of the large and of
    the small ones shared out, which are all that were counted as long as no timestamp is zero. */
module Bursts {
  import opened Collections
  import opened Wire
  import opened Sums
  import opened TimeSeries
  import opened Density

  // ---------- runs ----------

  datatype Run = Run(startTS: uint32, duration: nat, updates: nat)

  /** A second continues the run of the one before when at most one second later, in
      32-bit arithmetic. */
  predicate Joins(before: uint32, after: uint32) {
    (after - before) as int % 0x1_0000_0000 <= 1
  }

  function Runs(series: seq<Second>): (runs: seq<Run>)
    ensures runs == [] <==> series == []
  {
    if series == [] then []
    else if |series| == 1 then [FirstRun(series[0])]
    else RunStep(Runs(series[..|series| - 1]), series[|series| - 2].ts, series[|series| - 1])
  }

  function FirstRun(s: Second): Run {
    Run(s.ts, 1, s.count)
  }

  function RunStep(runs: seq<Run>, before: uint32, s: Second): (r: seq<Run>)
    requires runs != []
    ensures r != []
  {
    if Joins(before, s.ts) then runs[..|runs| - 1] + [Extended(runs[|runs| - 1], s)]
    else runs + [FirstRun(s)]
  }

  function Extended(r: Run, s: Second): Run {
    Run(r.startTS, r.duration + 1, r.updates + s.count)
  }

  function UpdatesOf(runs: seq<Run>): nat {
    if runs == [] then 0 else UpdatesOf(runs[..|runs| - 1]) + runs[|runs| - 1].updates
  }

  function SecondsOf(runs: seq<Run>): nat {
    if runs == [] then 0 else SecondsOf(runs[..|runs| - 1]) + runs[|runs| - 1].duration
  }

  function Breaks(series: seq<Second>): nat {
    if |series| < 2 then 0
    else Breaks(series[..|series| - 1]) + if Joins(series[|series| - 2].ts, series[|series| - 1].ts) then 0 else 1
  }

  lemma RunAppend(runs: seq<Run>, r: Run)
    ensures UpdatesOf(runs + [r]) == UpdatesOf(runs) + r.updates
    ensures SecondsOf(runs + [r]) == SecondsOf(runs) + r.duration
  {
    assert (runs + [r])[..|runs|] == runs;
  }

  /** Runs share out the updates and the seconds of the series, and one starts after every
      break in it. */
  lemma {:induction false} RunsAddUp(series: seq<Second>)
    ensures UpdatesOf(Runs(series)) == CountSum(series) && SecondsOf(Runs(series)) == |series|
    ensures series != [] ==> |Runs(series)| == Breaks(series) + 1
  {
    if series != [] {
      var front, s := series[..|series| - 1], series[|series| - 1];
      RunsAddUp(front);
      if |series| > 1 { StepAddsUp(Runs(front), series[|series| - 2].ts, s); }
    }
  }

  lemma StepAddsUp(runs: seq<Run>, before: uint32, s: Second)
    requires runs != []
    ensures UpdatesOf(RunStep(runs, before, s)) == UpdatesOf(runs) + s.count
    ensures SecondsOf(RunStep(runs, before, s)) == SecondsOf(runs) + 1
    ensures |RunStep(runs, before, s)| == |runs| + if Joins(before, s.ts) then 0 else 1
  {
    RunAppend(runs, FirstRun(s));
    RunAppend(runs[..|runs| - 1], Extended(runs[|runs| - 1], s));
  }

  /** A run starts at second i: the first, or one that does not continue the one before. */
  predicate Opens(series: seq<Second>, i: nat)
    requires i < |series|
  {
    i == 0 || !Joins(series[i - 1].ts, series[i].ts)
  }

  /** Where the runs start. */
  function Starts(series: seq<Second>): seq<nat> {
    if series == [] then []
    else
      var n := |series| - 1;
      Starts(series[..n]) + if Opens(series, n) then [n] else []
  }

  /** The seconds from one to another as one run. */
  function RunOf(series: seq<Second>, from: nat, to: nat): Run
    requires from < to <= |series|
  {
    Run(series[from].ts, to - from, CountSum(series[from..to]))
  }

  function EndOf(starts: seq<nat>, k: nat, n: nat): nat
    requires k < |starts|
  {
    if k + 1 < |starts| then starts[k + 1] else n
  }

  /** The block of the series from one start to the next. */
  function Block(series: seq<Second>, starts: seq<nat>, k: nat): Run
    requires k < |starts| && Rising(starts, |series|)
  {
    RunOf(series, starts[k], EndOf(starts, k, |series|))
  }

  /** The starts cut the series into blocks, and the runs are those blocks. */
  ghost predicate Blocks(series: seq<Second>, starts: seq<nat>, runs: seq<Run>) {
    && |starts| == |runs| && Rising(starts, |series|)
    && forall k :: 0 <= k < |runs| ==> runs[k] == Block(series, starts, k)
  }

  lemma RunOfPrefix(series: seq<Second>, s: Second, from: nat, to: nat)
    requires from < to <= |series|
    ensures RunOf(series + [s], from, to) == RunOf(series, from, to)
  {
    assert (series + [s])[from..to] == series[from..to];
  }

  lemma RunOfMore(series: seq<Second>, s: Second, from: nat)
    requires from < |series|
    ensures RunOf(series + [s], from, |series| + 1) == Extended(RunOf(series, from, |series|), s)
  {
    var n := |series|;
    assert (series + [s])[from..n + 1] == series[from..n] + [s];
    CountSumAppend(series[from..n], s);
  }

  lemma BlockKept(series: seq<Second>, s: Second, starts: seq<nat>, k: nat)
    requires k < |starts| && Rising(starts, |series|)
    ensures Rising(starts, |series| + 1) && Rising(starts + [|series|], |series| + 1)
    ensures Block(series + [s], starts + [|series|], k) == Block(series, starts, k)
    ensures Block(series + [s], starts, k) == if k + 1 < |starts| then Block(series, starts, k)
                                               else Extended(Block(series, starts, k), s)
  {
    RisingGrows(starts, |series|);
    RunOfPrefix(series, s, starts[k], EndOf(starts, k, |series|));
    if k + 1 == |starts| { RunOfMore(series, s, starts[k]); }
  }

  lemma BlocksJoined(series: seq<Second>, s: Second, starts: seq<nat>, runs: seq<Run>)
    requires Blocks(series, starts, runs) && runs != []
    ensures Blocks(series + [s], starts, runs[..|runs| - 1] + [Extended(runs[|runs| - 1], s)])
  {
    RisingGrows(starts, |series|);
    forall k | 0 <= k < |starts|
      ensures Block(series + [s], starts, k) == if k + 1 < |starts| then runs[k] else Extended(runs[k], s)
    {
      BlockKept(series, s, starts, k);
    }
  }

  lemma BlocksOpened(series: seq<Second>, s: Second, starts: seq<nat>, runs: seq<Run>)
    requires Blocks(series, starts, runs)
    ensures Blocks(series + [s], starts + [|series|], runs + [FirstRun(s)])
  {
    var n, more := |series|, starts + [|series|];
    RisingGrows(starts, n);
    forall k | 0 <= k < |starts| ensures Block(series + [s], more, k) == runs[k] { BlockKept(series, s, starts, k); }
    assert (series + [s])[n..n + 1] == [] + [s];
    CountSumAppend([], s);
    assert Block(series + [s], more, |starts|) == FirstRun(s);
  }

  lemma RunsStep(front: seq<Second>, s: Second)
    ensures Opens(front + [s], |front|) ==> Runs(front + [s]) == Runs(front) + [FirstRun(s)]
    ensures !Opens(front + [s], |front|) ==>
              (var runs := Runs(front); runs != [] && Runs(front + [s]) == runs[..|runs| - 1] + [Extended(runs[|runs| - 1], s)])
  {
    assert (front + [s])[..|front|] == front;
  }

  lemma StartsStep(front: seq<Second>, s: Second)
    ensures Starts(front + [s]) == if Opens(front + [s], |front|) then Starts(front) + [|front|] else Starts(front)
  {
    assert (front + [s])[..|front|] == front;
  }

  lemma {:induction false} RunsAreBlocks(series: seq<Second>)
    ensures Blocks(series, Starts(series), Runs(series))
  {
    if series != [] {
      var front, s := series[..|series| - 1], series[|series| - 1];
      RunsAreBlocks(front);
      FrontAndLast(series);
      RunsStep(front, s);
      StartsStep(front, s);
      if Opens(series, |front|) {
        BlocksOpened(front, s, Starts(front), Runs(front));
      } else {
        BlocksJoined(front, s, Starts(front), Runs(front));
      }
    }
  }

  lemma {:induction false} StartIffOpens(series: seq<Second>, i: nat)
    requires i < |series|
    ensures i in Starts(series) <==> Opens(series, i)
  {
    var n := |series| - 1;
    var front := series[..n];
    FrontAndLast(series);
    StartsStep(front, series[n]);
    RunsAreBlocks(front);
    RisingGrows(Starts(front), n);
    if i < n { StartIffOpens(front, i); }
  }

  /** Second i is the first, or comes neither at the second before it nor one later, in 32 bits. */
  predicate Cut(series: seq<Second>, i: nat)
    requires i < |series|
  {
    i == 0 || (series[i].ts - series[i - 1].ts) as int % 0x1_0000_0000 > 1
  }

  /** The runs are exactly the maximal blocks of the series in which each second is at most one
      after the one before, in 32 bits: the series is cut where a second is not and nowhere
      else, and each run has its block's first timestamp, its length and its updates. */
  lemma RunsPartition(series: seq<Second>)
    ensures Blocks(series, Starts(series), Runs(series))
    ensures forall i: nat :: i < |series| ==> (i in Starts(series) <==> Cut(series, i))
  {
    RunsAreBlocks(series);
    forall i: nat | i < |series| ensures i in Starts(series) <==> Cut(series, i) { StartIffOpens(series, i); }
  }

  lemma RunsNext(series: seq<Second>, i: nat)
    requires 0 < i < |series|
    ensures Runs(series[..i]) != [] && Runs(series[..i + 1]) == RunStep(Runs(series[..i]), series[i - 1].ts, series[i])
  {
    assert series[..i + 1][..i] == series[..i];
  }

  lemma StepOnCurrent(runs: seq<Run>, current: Run, before: uint32, s: Second)
    ensures RunStep(runs + [current], before, s)
         == if Joins(before, s.ts) then runs + [Extended(current, s)] else runs + [current] + [FirstRun(s)]
  {
    assert (runs + [current])[..|runs|] == runs;
  }

  method DetectPeerRuns(series: seq<Second>) returns (runs: seq<Run>)
    ensures runs == Runs(series)
  {
    if series == [] { return []; }
    runs := [];
    var current := FirstRun(series[0]);
    assert runs + [current] == Runs(series[..1]);
    for i := 1 to |series|
      invariant runs + [current] == Runs(series[..i])
    {
      RunsNext(series, i);
      StepOnCurrent(runs, current, series[i - 1].ts, series[i]);
      if Joins(series[i - 1].ts, series[i].ts) {
        current := Extended(current, series[i]);
      } else {
        runs := runs + [current];
        current := FirstRun(series[i]);
      }
    }
    assert series[..|series|] == series;
    runs := runs + [current];
  }

  const SETUP_THRESHOLD: nat := 100

  /** The updates of the runs large enough to be session set-up. */
  function SetupIn(runs: seq<Run>): nat {
    if runs == [] then 0
    else SetupIn(runs[..|runs| - 1])
         + if runs[|runs| - 1].updates >= SETUP_THRESHOLD then runs[|runs| - 1].updates else 0
  }

  lemma SetupAppend(runs: seq<Run>, i: nat)
    requires i < |runs|
    ensures SetupIn(runs[..i + 1]) == SetupIn(runs[..i]) + if runs[i].updates >= SETUP_THRESHOLD then runs[i].updates else 0
    ensures UpdatesOf(runs[..i + 1]) == UpdatesOf(runs[..i]) + runs[i].updates
    ensures SecondsOf(runs[..i + 1]) == SecondsOf(runs[..i]) + runs[i].duration
  {
    assert runs[..i + 1][..i] == runs[..i];
  }

  method SplitRuns(runs: seq<Run>) returns (maintenance: nat, setup: nat, seconds: nat)
    ensures setup == SetupIn(runs) && maintenance + setup == UpdatesOf(runs) && seconds == SecondsOf(runs)
  {
    maintenance, setup, seconds := 0, 0, 0;
    for i := 0 to |runs|
      invariant setup == SetupIn(runs[..i]) && maintenance + setup == UpdatesOf(runs[..i])
      invariant seconds == SecondsOf(runs[..i])
    {
      SetupAppend(runs, i);
      if runs[i].updates >= SETUP_THRESHOLD {
        setup := setup + runs[i].updates;
      } else {
        maintenance := maintenance + runs[i].updates;
      }
      seconds := seconds + runs[i].duration;
    }
    assert runs[..|runs|] == runs;
  }

  /** The sum of the sizes that are at least 100, and of the others. */
  function LargeOnes(sizes: seq<nat>): nat {
    if sizes == [] then 0
    else LargeOnes(sizes[..|sizes| - 1]) + if sizes[|sizes| - 1] >= 100 then sizes[|sizes| - 1] else 0
  }

  function SmallOnes(sizes: seq<nat>): nat {
    if sizes == [] then 0
    else SmallOnes(sizes[..|sizes| - 1]) + if sizes[|sizes| - 1] < 100 then sizes[|sizes| - 1] else 0
  }

  /** The updates of each maximal block. */
  ghost function BlockSizes(series: seq<Second>): (sizes: seq<nat>)
    ensures |sizes| == |Starts(series)| && Rising(Starts(series), |series|)
    ensures forall k :: 0 <= k < |sizes| ==> sizes[k] == Block(series, Starts(series), k).updates
  {
    RunsAreBlocks(series);
    var starts := Starts(series);
    seq(|starts|, k requires 0 <= k < |starts| => Block(series, starts, k).updates)
  }

  /** The updates of a peer's maximal blocks of at least 100, and of its smaller ones. */
  ghost function InLargeBlocks(p: uint32, t: Tracker): int {
    LargeOnes(BlockSizes(t.series))
  }

  ghost function InSmallBlocks(p: uint32, t: Tracker): int {
    SmallOnes(BlockSizes(t.series))
  }

  lemma {:induction false} SetupIsLarge(runs: seq<Run>, sizes: seq<nat>)
    requires |runs| == |sizes| && forall k :: 0 <= k < |runs| ==> runs[k].updates == sizes[k]
    ensures SetupIn(runs) == LargeOnes(sizes) && UpdatesOf(runs) == LargeOnes(sizes) + SmallOnes(sizes)
  {
    if runs != [] { SetupIsLarge(runs[..|runs| - 1], sizes[..|sizes| - 1]); }
  }

  lemma SplitIsBlocks(p: uint32, t: Tracker)
    ensures SetupIn(Runs(t.series)) == InLargeBlocks(p, t)
    ensures UpdatesOf(Runs(t.series)) == InLargeBlocks(p, t) + InSmallBlocks(p, t)
  {
    var runs, sizes := Runs(t.series), BlockSizes(t.series);
    RunsAreBlocks(t.series);
    forall k | 0 <= k < |runs| ensures runs[k].updates == sizes[k] {
      assert runs[k] == Block(t.series, Starts(t.series), k);
    }
    SetupIsLarge(runs, sizes);
  }

  function Held(p: uint32, t: Tracker): int {
    CountSum(t.series)
  }

  function Missing(p: uint32, times: seq<uint32>): int {
    Lost(times)
  }

  /** The totals of the burst analysis: set-up is the updates of the peers' blocks of at least
      100, maintenance those of the others, and together they are what the series hold. */
  method BurstTotals(peerBins: map<uint32, Tracker>) returns (maintenance: nat, setup: nat)
    ensures setup == Sum<uint32, Tracker>(peerBins, InLargeBlocks)
    ensures maintenance == Sum<uint32, Tracker>(peerBins, InSmallBlocks)
    ensures maintenance + setup == Sum<uint32, Tracker>(peerBins, Held)
  {
    maintenance, setup := 0, 0;
    var todo := peerBins.Keys;
    assert peerBins - todo == map[];
    while todo != {}
      invariant todo <= peerBins.Keys
      invariant setup == Sum<uint32, Tracker>(peerBins - todo, InLargeBlocks)
      invariant maintenance == Sum<uint32, Tracker>(peerBins - todo, InSmallBlocks)
      invariant maintenance + setup == Sum<uint32, Tracker>(peerBins - todo, Held)
      decreases todo
    {
      var p :| p in todo;
      var runs := DetectPeerRuns(peerBins[p].series);
      RunsAddUp(peerBins[p].series);
      var m, s, _ := SplitRuns(runs);
      maintenance, setup := maintenance + m, setup + s;
      assert peerBins - (todo - {p}) - {p} == peerBins - todo;
      SplitIsBlocks(p, peerBins[p]);
      SumWithout<uint32, Tracker>(peerBins - (todo - {p}), Held, p);
      SumWithout<uint32, Tracker>(peerBins - (todo - {p}), InLargeBlocks, p);
      SumWithout<uint32, Tracker>(peerBins - (todo - {p}), InSmallBlocks, p);
      todo := todo - {p};
    }
    assert peerBins - todo == peerBins;
  }

  lemma {:induction false} PeersAddUp(bins: map<uint32, Tracker>, totals: map<uint32, nat>, log: map<uint32, seq<uint32>>)
    requires Settled(bins, totals, log)
    ensures Sum<uint32, Tracker>(bins, Held) + Sum<uint32, seq<uint32>>(log, Missing) == Sum<uint32, nat>(totals, Total)
    decreases |bins|
  {
    if bins.Keys == {} {
      assert bins == map[] && totals == map[] && log == map[];
    } else {
      var p :| p in bins;
      PeersAddUp(bins - {p}, totals - {p}, log - {p});
      TrackerHolds(log[p]);
      SumWithout<uint32, Tracker>(bins, Held, p);
      SumWithout<uint32, seq<uint32>>(log, Missing, p);
      SumWithout<uint32, nat>(totals, Total, p);
    }
  }

  lemma {:induction false} NothingMissingIff(log: map<uint32, seq<uint32>>)
    ensures Sum<uint32, seq<uint32>>(log, Missing) >= 0
    ensures Sum<uint32, seq<uint32>>(log, Missing) == 0 <==> forall p :: p in log ==> Lost(log[p]) == 0
    decreases |log|
  {
    if log.Keys == {} {
      assert log == map[];
    } else {
      var p :| p in log;
      SumWithout<uint32, seq<uint32>>(log, Missing, p);
      NothingMissingIff(log - {p});
      assert forall q :: q in log ==> q == p || (q in log - {p} && (log - {p})[q] == log[q]);
    }
  }

  /** The burst analysis accounts for every UPDATE counted exactly when no peer has one
      stamped zero before its last. */
  lemma BurstAccountsForAllIff(bins: map<uint32, Tracker>, totals: map<uint32, nat>, log: map<uint32, seq<uint32>>)
    requires Settled(bins, totals, log)
    ensures Sum<uint32, Tracker>(bins, Held) == Sum<uint32, nat>(totals, Total)
       <==> forall p :: p in log ==> ZeroOnlyLast(log[p])
  {
    PeersAddUp(bins, totals, log);
    NothingMissingIff(log);
    forall p | p in log ensures Lost(log[p]) == 0 <==> ZeroOnlyLast(log[p]) {
      NothingLostIff(log[p]);
    }
  }
}
