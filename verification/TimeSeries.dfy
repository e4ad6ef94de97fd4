/** A series of seconds from the timestamps of UPDATEs: what it holds, what it loses to
    timestamps of zero, and how much time it says has passed. */
module TimeSeries {
  import opened Collections
  import opened Wire
  import opened Sums

  datatype Second = Second(ts: uint32, count: nat)

  function CountSum(series: seq<Second>): nat {
    if series == [] then 0 else CountSum(series[..|series| - 1]) + series[|series| - 1].count
  }

  lemma CountSumAppend(series: seq<Second>, s: Second)
    ensures CountSum(series + [s]) == CountSum(series) + s.count
  {
    assert (series + [s])[..|series|] == series;
  }

  function Times(k: nat, n: nat): int {
    k * n
  }

  function Seconds(k: nat, n: nat): int {
    n
  }

  ghost function UpdatesIn(m: map<nat, nat>): int {
    Sum<nat, nat>(m, Times)
  }

  ghost function SecondsIn(m: map<nat, nat>): int {
    Sum<nat, nat>(m, Seconds)
  }

  lemma OneMoreSecond(m: map<nat, nat>, k: nat)
    ensures UpdatesIn(m[k := Get(m, k) + 1]) == UpdatesIn(m) + k
    ensures SecondsIn(m[k := Get(m, k) + 1]) == SecondsIn(m) + 1
  {
    SumChange<nat, nat>(m, Times, k, Get(m, k) + 1);
    SumChange<nat, nat>(m, Seconds, k, Get(m, k) + 1);
    assert k * (Get(m, k) + 1) == k * Get(m, k) + k;
  }

  /** UPDATEs that a bin opened at timestamp zero loses: zero is read as "no bin open",
      so the next UPDATE starts afresh. */
  function Lost(times: seq<uint32>): nat {
    if |times| < 2 then 0 else Lost(times[..|times| - 1]) + if times[|times| - 2] == 0 then 1 else 0
  }

  lemma LostAppend(times: seq<uint32>, ts: uint32)
    ensures Lost(times + [ts]) == Lost(times) + if times != [] && times[|times| - 1] == 0 then 1 else 0
  {
    assert (times + [ts])[..|times|] == times;
  }

  /** Only the last timestamp may be zero. */
  ghost predicate ZeroOnlyLast(times: seq<uint32>) {
    forall i :: 0 <= i < |times| - 1 ==> times[i] != 0
  }

  lemma {:induction false} NothingLostIff(times: seq<uint32>)
    ensures Lost(times) == 0 <==> ZeroOnlyLast(times)
  {
    if |times| >= 2 { NothingLostIff(times[..|times| - 1]); }
  }

  /** Seconds the histogram gains when the clock of the capture moves from one UPDATE to
      the next: a gap counts for at most an hour, a step back for the one second closed. */
  function Passed(from: uint32, to: uint32): nat {
    if from == 0 || from == to then 0
    else if to < from then 1
    else if to - from < 3600 then to - from
    else 3600
  }

  function Elapsed(times: seq<uint32>): nat {
    if |times| < 2 then 0 else Elapsed(times[..|times| - 1]) + Passed(times[|times| - 2], times[|times| - 1])
  }

  lemma ElapsedAppend(times: seq<uint32>, ts: uint32)
    ensures Elapsed(times + [ts]) == Elapsed(times) + if times == [] then 0 else Passed(times[|times| - 1], ts)
  {
    assert (times + [ts])[..|times|] == times;
  }

  /** On an ordered capture without hour-long silences, elapsed time is the capture's span. */
  lemma {:induction false} ElapsedIsSpan(times: seq<uint32>)
    requires times != [] && times[0] > 0
    requires forall i :: 0 < i < |times| ==> times[i - 1] <= times[i] && times[i] - times[i - 1] <= 3600
    ensures times[0] + Elapsed(times) == times[|times| - 1] as int
  {
    if |times| >= 2 {
      var front := times[..|times| - 1];
      FirstIsLeast(front, |front| - 1);
      ElapsedIsSpan(front);
      assert times[|times| - 2] <= times[|times| - 1];
    }
  }

  /** And a silence of an hour or more counts for exactly an hour. */
  lemma {:induction false} SilencesCountAnHour(times: seq<uint32>)
    requires times != [] && times[0] > 0
    requires forall i :: 0 < i < |times| ==> times[i - 1] + 3600 <= times[i] as int
    ensures Elapsed(times) == 3600 * (|times| - 1)
  {
    if |times| >= 2 {
      var front := times[..|times| - 1];
      SilencesCountAnHour(front);
      FirstIsLeast(front, |front| - 1);
      assert times[|times| - 2] + 3600 <= times[|times| - 1] as int;
    }
  }

  lemma {:induction false} FirstIsLeast(times: seq<uint32>, k: nat)
    requires k < |times|
    requires forall i :: 0 < i < |times| ==> times[i - 1] <= times[i]
    ensures times[0] <= times[k]
  {
    if k > 0 { FirstIsLeast(times, k - 1); }
  }

  // ---------- what a series of seconds says ----------

  /** A timestamp, once for each of `n` UPDATEs. */
  function Stamps(ts: uint32, n: nat): seq<uint32> {
    seq(n, _ => ts)
  }

  /** The timestamps of the UPDATEs that a series holds, in order. */
  function Expand(series: seq<Second>): seq<uint32> {
    if series == [] then []
    else
      var last := series[|series| - 1];
      Expand(series[..|series| - 1]) + Stamps(last.ts, last.count)
  }

  lemma ExpandAppend(series: seq<Second>, s: Second)
    ensures Expand(series + [s]) == Expand(series) + Stamps(s.ts, s.count)
  {
    assert (series + [s])[..|series|] == series;
  }

  function NonZero(times: seq<uint32>): seq<uint32> {
    if times == [] then []
    else
      var last := times[|times| - 1];
      NonZero(times[..|times| - 1]) + if last == 0 then [] else [last]
  }

  /** The timestamps that are kept: the last, and of those before it all that are not zero. */
  function Kept(times: seq<uint32>): seq<uint32> {
    if times == [] then [] else NonZero(times[..|times| - 1]) + [times[|times| - 1]]
  }

  lemma KeptAppend(times: seq<uint32>, ts: uint32)
    ensures times == [] ==> Kept(times + [ts]) == [ts]
    ensures times != [] ==> Kept(times) == NonZero(times[..|times| - 1]) + [times[|times| - 1]]
    ensures times != [] ==>
              Kept(times + [ts]) == if times[|times| - 1] == 0 then NonZero(times[..|times| - 1]) + [ts] else Kept(times) + [ts]
  {
    assert (times + [ts])[..|times|] == times;
  }

  /** No second is empty. */
  predicate NoneEmpty(series: seq<Second>) {
    series == [] || (NoneEmpty(series[..|series| - 1]) && series[|series| - 1].count > 0)
  }

  /** No two neighbours are the same second. */
  predicate Proper(series: seq<Second>) {
    |series| < 2 || (Proper(series[..|series| - 1]) && series[|series| - 2].ts != series[|series| - 1].ts)
  }

  lemma SeriesAppend(series: seq<Second>, s: Second)
    ensures NoneEmpty(series + [s]) <==> NoneEmpty(series) && s.count > 0
    ensures Proper(series + [s]) <==> Proper(series) && (series == [] || series[|series| - 1].ts != s.ts)
  {
    assert (series + [s])[..|series|] == series;
  }

  /** The series holds exactly the UPDATEs kept, each under its own timestamp, none of its
      seconds empty; and where nothing was lost, each second once. */
  ghost predicate SpellsOut(series: seq<Second>, times: seq<uint32>) {
    && Expand(series) == Kept(times)
    && NoneEmpty(series)
    && (ZeroOnlyLast(times) ==> Proper(series))
  }

  // ---------- the tracker ----------

  datatype Tracker = Tracker(lastTS: uint32, currentBin: nat, series: seq<Second>)

  const NO_TRACKER := Tracker(0, 0, [])

  /** The switch on the timestamp. */
  function Track(t: Tracker, ts: uint32): Tracker {
    if t.lastTS == 0 then t.(lastTS := ts, currentBin := 1)
    else if ts == t.lastTS then t.(currentBin := t.currentBin + 1)
    else Tracker(ts, 1, t.series + [Second(t.lastTS, t.currentBin)])
  }

  /** What the UPDATEs at `times` leave. */
  function TrackerOf(times: seq<uint32>): Tracker {
    if times == [] then NO_TRACKER else Track(TrackerOf(times[..|times| - 1]), times[|times| - 1])
  }

  lemma TrackerNext(times: seq<uint32>, ts: uint32)
    ensures TrackerOf(times + [ts]) == Track(TrackerOf(times), ts)
  {
    assert (times + [ts])[..|times|] == times;
  }

  /** The series with its open second, if there is one. */
  function Closed(t: Tracker): seq<Second> {
    if t.currentBin > 0 then t.series + [Second(t.lastTS, t.currentBin)] else t.series
  }

  /** The tracker is at the last timestamp, and its second is open. */
  ghost predicate AtLast(t: Tracker, times: seq<uint32>) {
    && t.lastTS == (if times == [] then 0 else times[|times| - 1])
    && (t.lastTS == 0 ==> t.currentBin == if times == [] then 0 else 1)
    && (times != [] ==> t.currentBin > 0)
  }

  lemma {:induction false} TrackerAtLast(times: seq<uint32>)
    ensures AtLast(TrackerOf(times), times)
  {
    if times != [] { TrackerAtLast(times[..|times| - 1]); }
  }

  lemma CountClosed(t: Tracker)
    ensures CountSum(Closed(t)) == CountSum(t.series) + t.currentBin
  {
    CountSumAppend(t.series, Second(t.lastTS, t.currentBin));
  }

  /** A turn of the switch holds one UPDATE more, in place of the open second where that is at zero. */
  lemma TrackCounts(t: Tracker, ts: uint32)
    requires t.lastTS != 0 ==> t.currentBin > 0
    ensures CountSum(Closed(Track(t, ts))) + (if t.lastTS == 0 then t.currentBin else 0) == CountSum(Closed(t)) + 1
  {
    CountClosed(t);
    CountClosed(Track(t, ts));
  }

  /** Series, open second and losses add up to the UPDATEs. */
  lemma {:induction false} TrackerHolds(times: seq<uint32>)
    ensures CountSum(Closed(TrackerOf(times))) + Lost(times) == |times|
  {
    if times != [] {
      var front := times[..|times| - 1];
      FrontAndLast(times);
      TrackerHolds(front);
      TrackerAtLast(front);
      TrackCounts(TrackerOf(front), times[|times| - 1]);
      LostAppend(front, times[|times| - 1]);
    }
  }

  /** Nothing is missing from series and open second exactly when no UPDATE but the last is
      stamped zero. */
  lemma ConservedIff(times: seq<uint32>)
    ensures CountSum(Closed(TrackerOf(times))) == |times| <==> ZeroOnlyLast(times)
  {
    TrackerHolds(times);
    NothingLostIff(times);
  }

  // ---------- what it spells ----------

  lemma AddStamp(a: seq<uint32>, ts: uint32, n: nat)
    ensures a + Stamps(ts, n) + [ts] == a + Stamps(ts, n + 1)
  {}

  lemma DropStamp(a: seq<uint32>, b: seq<uint32>, x: uint32, ts: uint32)
    requires a + Stamps(x, 1) == b + [x]
    ensures a + Stamps(ts, 1) == b + [ts]
  {
    assert a == (a + Stamps(x, 1))[..|a|] && b == (b + [x])[..|b|];
  }

  lemma OneStamp(a: seq<uint32>, ts: uint32)
    ensures a + Stamps(ts, 1) == a + [ts]
  {}

  lemma ExpandClosed(t: Tracker)
    ensures Expand(Closed(t)) == Expand(t.series) + Stamps(t.lastTS, t.currentBin)
  {
    ExpandAppend(t.series, Second(t.lastTS, t.currentBin));
  }

  /** What one turn of the switch adds to the timestamps. */
  lemma TrackExpands(t: Tracker, ts: uint32)
    ensures var was, now := Expand(Closed(t)), Expand(Closed(Track(t, ts)));
            if t.lastTS == 0 then now == Expand(t.series) + Stamps(ts, 1)
            else t.currentBin > 0 ==> now == was + [ts]
  {
    ExpandClosed(t);
    ExpandClosed(Track(t, ts));
    if t.lastTS == 0 {
    } else if ts == t.lastTS {
      AddStamp(Expand(t.series), ts, t.currentBin);
    } else if t.currentBin > 0 {
      OneStamp(Expand(Closed(t)), ts);
    }
  }

  lemma {:induction false} TrackerExpands(times: seq<uint32>)
    ensures Expand(Closed(TrackerOf(times))) == Kept(times)
  {
    if times != [] {
      var front, ts := times[..|times| - 1], times[|times| - 1];
      var t := TrackerOf(front);
      FrontAndLast(times);
      KeptAppend(front, ts);
      TrackerAtLast(front);
      TrackExpands(t, ts);
      TrackerExpands(front);
      ExpandClosed(t);
      if front == [] {
        assert Expand(t.series) == [];
        OneStamp([], ts);
      } else if t.lastTS == 0 {
        DropStamp(Expand(t.series), NonZero(front[..|front| - 1]), 0, ts);
      }
    }
  }

  lemma {:induction false} TrackerNoneEmpty(times: seq<uint32>)
    ensures NoneEmpty(Closed(TrackerOf(times))) && NoneEmpty(TrackerOf(times).series)
  {
    var now := TrackerOf(times);
    if times != [] {
      TrackerNoneEmpty(times[..|times| - 1]);
      TrackerAtLast(times[..|times| - 1]);
      TrackerAtLast(times);
      SeriesAppend(now.series, Second(now.lastTS, now.currentBin));
    }
  }

  lemma ZeroBefore(times: seq<uint32>, ts: uint32)
    requires times != [] && ZeroOnlyLast(times + [ts])
    ensures ZeroOnlyLast(times) && times[|times| - 1] != 0
  {
    var more := times + [ts];
    assert forall i :: 0 <= i < |times| ==> more[i] == times[i];
  }

  lemma {:induction false} TrackerProper(times: seq<uint32>)
    requires ZeroOnlyLast(times)
    ensures Proper(Closed(TrackerOf(times)))
  {
    if |times| > 1 {
      var front, ts := times[..|times| - 1], times[|times| - 1];
      FrontAndLast(times);
      ZeroBefore(front, ts);
      TrackerProper(front);
      TrackerAtLast(front);
      ProperNext(TrackerOf(front), ts);
    } else if |times| == 1 {
      assert TrackerOf(times[..0]) == NO_TRACKER;
    }
  }

  lemma ProperNext(t: Tracker, ts: uint32)
    requires t.lastTS != 0 && t.currentBin > 0 && Proper(Closed(t))
    ensures Proper(Closed(Track(t, ts)))
  {
    var next := Track(t, ts);
    SeriesAppend(t.series, Second(t.lastTS, t.currentBin));
    SeriesAppend(next.series, Second(next.lastTS, next.currentBin));
  }

  /** The series closed at the end spells out the timestamps. */
  lemma TrackerSpells(times: seq<uint32>)
    ensures SpellsOut(Closed(TrackerOf(times)), times)
  {
    TrackerExpands(times);
    TrackerNoneEmpty(times);
    if ZeroOnlyLast(times) { TrackerProper(times); }
  }

  // ---------- the histogram of a series ----------

  /** How many of the seconds hold exactly k UPDATEs. */
  function SecondsWith(series: seq<Second>, k: nat): nat {
    if series == [] then 0
    else SecondsWith(series[..|series| - 1], k) + if series[|series| - 1].count == k then 1 else 0
  }

  lemma SecondsAppend(series: seq<Second>, s: Second, k: nat)
    ensures SecondsWith(series + [s], k) == SecondsWith(series, k) + if s.count == k then 1 else 0
  {
    assert (series + [s])[..|series|] == series;
  }

  /** For every rate but zero, the number of seconds of the series with that rate. */
  ghost predicate Histogram(m: map<nat, nat>, series: seq<Second>) {
    forall k :: k > 0 ==> Get(m, k) == SecondsWith(series, k)
  }

  lemma HistogramMore(m: map<nat, nat>, series: seq<Second>, s: Second)
    requires Histogram(m, series)
    ensures Histogram(m[s.count := Get(m, s.count) + 1], series + [s])
  {
    var more := m[s.count := Get(m, s.count) + 1];
    forall k | k > 0 ensures Get(more, k) == SecondsWith(series + [s], k) { SecondsAppend(series, s, k); }
  }

  // ---------- updates per second ----------

  function OneMore(m: map<nat, nat>, k: nat): map<nat, nat> {
    m[k := Get(m, k) + 1]
  }

  /** `n` seconds more without an UPDATE. */
  function Idle(m: map<nat, nat>, n: nat): map<nat, nat> {
    if n == 0 then m else m[0 := Get(m, 0) + n]
  }

  /** What an UPDATE makes of the histogram: the open second goes in when another begins, and
      the seconds between them, up to an hour. */
  function Rate(m: map<nat, nat>, t: Tracker, ts: uint32): map<nat, nat> {
    if t.lastTS == 0 || ts == t.lastTS then m
    else
      var closed := OneMore(m, t.currentBin);
      if ts < t.lastTS then closed else Idle(closed, (if ts - t.lastTS < 3600 then ts - t.lastTS else 3600) - 1)
  }

  function RatesOf(times: seq<uint32>): map<nat, nat> {
    if times == [] then map[]
    else
      var front := times[..|times| - 1];
      Rate(RatesOf(front), TrackerOf(front), times[|times| - 1])
  }

  lemma RatesNext(times: seq<uint32>, ts: uint32)
    ensures RatesOf(times + [ts]) == Rate(RatesOf(times), TrackerOf(times), ts)
  {
    assert (times + [ts])[..|times|] == times;
  }

  /** The histogram at the end, when the open second goes in too. */
  function FinalRates(times: seq<uint32>): map<nat, nat> {
    if TrackerOf(times).currentBin > 0 then OneMore(RatesOf(times), TrackerOf(times).currentBin) else RatesOf(times)
  }

  lemma IdleSeconds(m: map<nat, nat>, n: nat, series: seq<Second>)
    ensures UpdatesIn(Idle(m, n)) == UpdatesIn(m) && SecondsIn(Idle(m, n)) == SecondsIn(m) + n
    ensures Histogram(m, series) ==> Histogram(Idle(m, n), series)
  {
    SumChange<nat, nat>(m, Times, 0, Get(m, 0) + n);
    SumChange<nat, nat>(m, Seconds, 0, Get(m, 0) + n);
    if Histogram(m, series) {
      forall k | k > 0 ensures Get(Idle(m, n), k) == SecondsWith(series, k) { assert Get(m, k) == SecondsWith(series, k); }
    }
  }

  /** The histogram is the one of the series, and its seconds are `elapsed`. */
  ghost predicate Rated(m: map<nat, nat>, series: seq<Second>, elapsed: nat) {
    UpdatesIn(m) == CountSum(series) && SecondsIn(m) == elapsed && Histogram(m, series)
  }

  lemma RatedMore(m: map<nat, nat>, series: seq<Second>, elapsed: nat, s: Second)
    requires Rated(m, series, elapsed)
    ensures Rated(OneMore(m, s.count), series + [s], elapsed + 1)
  {
    OneMoreSecond(m, s.count);
    CountSumAppend(series, s);
    HistogramMore(m, series, s);
  }

  lemma RateRated(m: map<nat, nat>, t: Tracker, ts: uint32, elapsed: nat)
    requires Rated(m, t.series, elapsed) && (t.lastTS != 0 ==> t.currentBin > 0)
    ensures Rated(Rate(m, t, ts), Track(t, ts).series, elapsed + Passed(t.lastTS, ts))
  {
    if t.lastTS != 0 && ts != t.lastTS {
      var s := Second(t.lastTS, t.currentBin);
      RatedMore(m, t.series, elapsed, s);
      if ts > t.lastTS {
        var n := (if ts - t.lastTS < 3600 then ts - t.lastTS else 3600) - 1;
        IdleSeconds(OneMore(m, t.currentBin), n, t.series + [s]);
      }
    }
  }

  lemma {:induction false} RatesRated(times: seq<uint32>)
    ensures Rated(RatesOf(times), TrackerOf(times).series, Elapsed(times))
  {
    if times == [] {
      NothingYet();
    } else {
      var front, ts := times[..|times| - 1], times[|times| - 1];
      RatesRated(front);
      TrackerAtLast(front);
      FrontAndLast(times);
      ElapsedAppend(front, ts);
      RateRated(RatesOf(front), TrackerOf(front), ts, Elapsed(front));
    }
  }

  lemma NothingYet()
    ensures Rated(map[], [], 0)
  {}

  /** At the end the histogram is that of the whole series, its seconds the time that passed and the last one. */
  lemma FinalRated(times: seq<uint32>)
    ensures Rated(FinalRates(times), Closed(TrackerOf(times)), Elapsed(times) + if times == [] then 0 else 1)
  {
    var t := TrackerOf(times);
    RatesRated(times);
    TrackerAtLast(times);
    if t.currentBin > 0 { RatedMore(RatesOf(times), t.series, Elapsed(times), Second(t.lastTS, t.currentBin)); }
  }
}
