/** Time binning of UPDATEs: every UPDATE counted lands in exactly one bin, overall and for
    its peer, as long as no timestamp is zero. */
module Density {
  import opened Collections
  import opened Wire
  import opened Sums
  import opened TimeSeries

  function TimesOf(log: map<uint32, seq<uint32>>, peer: uint32): seq<uint32> {
    if peer in log then log[peer] else []
  }

  function Logged(log: map<uint32, seq<uint32>>, peer: uint32, ts: uint32): map<uint32, seq<uint32>> {
    log[peer := TimesOf(log, peer) + [ts]]
  }

  function Total(p: uint32, n: nat): int {
    n
  }

  // ---------- the statistics ----------

  class DensityStats {
    var perSecond: map<nat, nat>
    var series: seq<Second>
    var totalUpdates: nat
    var lastTS: uint32
    var currentBin: nat
    var peerBins: map<uint32, Tracker>
    var peerTotals: map<uint32, nat>
    ghost var times: seq<uint32>
    ghost var peerTimes: map<uint32, seq<uint32>>

    /** The bins are what the UPDATEs counted leave. */
    ghost predicate Binned()
      reads `perSecond, `series, `totalUpdates, `lastTS, `currentBin, `times
    {
      && totalUpdates == |times| && perSecond == RatesOf(times)
      && Tracker(lastTS, currentBin, series) == TrackerOf(times)
    }

    ghost predicate PeersBinned()
      reads `peerBins, `peerTotals, `peerTimes
    {
      Flushed(peerBins, peerTotals, peerTimes, peerBins.Keys)
    }

    constructor ()
      ensures Binned() && PeersBinned() && times == [] && peerTimes == map[]
    {
      perSecond, series, totalUpdates, lastTS, currentBin := map[], [], 0, 0, 0;
      peerBins, peerTotals, times, peerTimes := map[], map[], [], map[];
    }

    method CountPeer(peer: uint32, ts: uint32)
      requires PeersBinned()
      modifies `peerBins, `peerTotals, `peerTimes
      ensures PeersBinned()
      ensures peerTimes == Logged(old(peerTimes), peer, ts)
      ensures Sum<uint32, nat>(peerTotals, Total) == old(Sum<uint32, nat>(peerTotals, Total)) + 1
    {
      var t, total := NO_TRACKER, 0;
      if peer in peerBins { t, total := peerBins[peer], peerTotals[peer]; }
      ghost var before := TimesOf(peerTimes, peer);
      TrackedMore(peerBins, peerTotals, peerTimes, peer, ts);
      SumChange<uint32, nat>(peerTotals, Total, peer, total + 1);
      peerTotals := peerTotals[peer := total + 1];
      peerBins := peerBins[peer := Track(t, ts)];
      peerTimes := peerTimes[peer := before + [ts]];
    }

    method CloseBin()
      modifies `perSecond, `series
      ensures series == old(series) + [Second(lastTS, currentBin)] && perSecond == OneMore(old(perSecond), currentBin)
    {
      perSecond := perSecond[currentBin := Get(perSecond, currentBin) + 1];
      series := series + [Second(lastTS, currentBin)];
    }

    method CountIdle(gap: nat)
      requires gap > 0
      modifies `perSecond
      ensures perSecond == Idle(old(perSecond), gap - 1)
    {
      var i := 1;
      while i < gap
        invariant 1 <= i <= gap && perSecond == Idle(old(perSecond), i - 1)
      {
        perSecond := perSecond[0 := Get(perSecond, 0) + 1];
        i := i + 1;
      }
    }

    method Bin(ts: uint32)
      requires lastTS != 0 ==> currentBin > 0
      modifies `lastTS, `currentBin, `perSecond, `series
      ensures Tracker(lastTS, currentBin, series) == old(Track(Tracker(lastTS, currentBin, series), ts))
      ensures perSecond == old(Rate(perSecond, Tracker(lastTS, currentBin, series), ts))
    {
      if lastTS == 0 {
        lastTS, currentBin := ts, 1;
      } else if ts == lastTS {
        currentBin := currentBin + 1;
      } else {
        if currentBin > 0 { CloseBin(); }
        if ts < lastTS {
          lastTS, currentBin := ts, 1;
          return;
        }
        CountIdle(if ts - lastTS < 3600 then ts - lastTS else 3600);
        lastTS, currentBin := ts, 1;
      }
    }

    /** densityProcessBGP4MP, for an UPDATE whose prefixes counted cleanly. */
    method Process(peer: uint32, ts: uint32)
      requires Binned() && PeersBinned()
      modifies this
      ensures Binned() && PeersBinned() && times == old(times) + [ts]
      ensures peerTimes == if peer == 0 then old(peerTimes) else Logged(old(peerTimes), peer, ts)
      ensures Sum<uint32, nat>(peerTotals, Total)
           == old(Sum<uint32, nat>(peerTotals, Total)) + if peer == 0 then 0 else 1
    {
      if peer > 0 { CountPeer(peer, ts); }
      CountUpdate(ts);
    }

    /** The end of the run: the open bins are closed. */
    method Flush()
      requires Binned() && PeersBinned()
      modifies `perSecond, `series, `peerBins
      ensures series == Closed(TrackerOf(times)) && perSecond == FinalRates(times)
      ensures Settled(peerBins, peerTotals, peerTimes)
    {
      if currentBin > 0 { CloseBin(); }
      FlushPeers();
    }

    method FlushPeers()
      requires PeersBinned()
      modifies `peerBins
      ensures Settled(peerBins, peerTotals, peerTimes)
    {
      var todo := peerBins.Keys;
      while todo != {}
        invariant todo <= peerBins.Keys && Flushed(peerBins, peerTotals, peerTimes, todo)
        decreases todo
      {
        var p :| p in todo;
        ghost var before := peerBins;
        FlushPeer(p);
        FlushedMore(before, peerBins, peerTotals, peerTimes, todo, p);
        todo := todo - {p};
      }
    }

    method FlushPeer(p: uint32)
      requires p in peerBins && p in peerTimes
      requires peerBins[p] == TrackerOf(peerTimes[p])
      modifies `peerBins
      ensures peerBins.Keys == old(peerBins).Keys && forall q :: q in peerBins && q != p ==> peerBins[q] == old(peerBins)[q]
      ensures peerBins[p].series == Closed(TrackerOf(peerTimes[p]))
    {
      var t := peerBins[p];
      if t.currentBin > 0 {
        peerBins := peerBins[p := t.(series := t.series + [Second(t.lastTS, t.currentBin)])];
      }
    }

    method CountUpdate(ts: uint32)
      requires Binned()
      modifies `perSecond, `series, `totalUpdates, `lastTS, `currentBin, `times
      ensures Binned() && times == old(times) + [ts]
    {
      totalUpdates := totalUpdates + 1;
      TrackerAtLast(times);
      TrackerNext(times, ts);
      RatesNext(times, ts);
      Bin(ts);
      times := times + [ts];
    }
  }

  /** Every peer's series holds what its tracker came to, and its total counts its UPDATEs. */
  ghost predicate Settled(bins: map<uint32, Tracker>, totals: map<uint32, nat>, log: map<uint32, seq<uint32>>) {
    && bins.Keys == totals.Keys == log.Keys
    && forall p :: p in bins ==> bins[p].series == Closed(TrackerOf(log[p])) && totals[p] == |log[p]|
  }

  /** The same of the peers not in `todo`; those are still open. */
  ghost predicate Flushed(bins: map<uint32, Tracker>, totals: map<uint32, nat>, log: map<uint32, seq<uint32>>, todo: set<uint32>) {
    && bins.Keys == totals.Keys == log.Keys
    && forall p :: p in bins ==>
         && totals[p] == |log[p]|
         && if p in todo then bins[p] == TrackerOf(log[p]) else bins[p].series == Closed(TrackerOf(log[p]))
  }

  /** One UPDATE more of a peer. */
  lemma TrackedMore(bins: map<uint32, Tracker>, totals: map<uint32, nat>, log: map<uint32, seq<uint32>>, peer: uint32, ts: uint32)
    requires Flushed(bins, totals, log, bins.Keys)
    ensures var t := if peer in bins then bins[peer] else NO_TRACKER;
            var more := bins[peer := Track(t, ts)];
            Flushed(more, totals[peer := |TimesOf(log, peer)| + 1], Logged(log, peer, ts), more.Keys)
    ensures peer in bins ==> totals[peer] == |TimesOf(log, peer)|
  {
    TrackerNext(TimesOf(log, peer), ts);
  }

  lemma FlushedMore(
    bins: map<uint32, Tracker>, more: map<uint32, Tracker>, totals: map<uint32, nat>, log: map<uint32, seq<uint32>>,
    todo: set<uint32>, p: uint32)
    requires Flushed(bins, totals, log, todo) && p in bins && more.Keys == bins.Keys
    requires forall q :: q in more && q != p ==> more[q] == bins[q]
    requires more[p].series == Closed(TrackerOf(log[p]))
    ensures Flushed(more, totals, log, todo - {p})
  {}

  /** Every peer's series spells out its UPDATEs. */
  lemma SettledSpells(bins: map<uint32, Tracker>, totals: map<uint32, nat>, log: map<uint32, seq<uint32>>)
    requires Settled(bins, totals, log)
    ensures forall p :: p in bins ==> SpellsOut(bins[p].series, log[p])
  {
    forall p | p in bins ensures SpellsOut(bins[p].series, log[p]) { TrackerSpells(log[p]); }
  }

  // ---------- a whole run ----------

  /** One UPDATE of the capture: the AS it came from, zero when unknown, and its second. */
  datatype Seen = Seen(peer: uint32, ts: uint32)

  ghost function TimesIn(records: seq<Seen>): (times: seq<uint32>)
    ensures |times| == |records| && forall i :: 0 <= i < |records| ==> times[i] == records[i].ts
  {
    if records == [] then [] else TimesIn(records[..|records| - 1]) + [records[|records| - 1].ts]
  }

  ghost function Attributed(records: seq<Seen>): nat {
    if records == [] then 0
    else Attributed(records[..|records| - 1]) + if records[|records| - 1].peer == 0 then 0 else 1
  }

  /** The timestamps of each known peer, in order. */
  ghost function PeerLog(records: seq<Seen>): map<uint32, seq<uint32>> {
    if records == [] then map[] else
      var before, r := PeerLog(records[..|records| - 1]), records[|records| - 1];
      if r.peer == 0 then before else Logged(before, r.peer, r.ts)
  }

  /** The timestamps of one peer, in order. */
  ghost function TimesFrom(records: seq<Seen>, peer: uint32): seq<uint32> {
    if records == [] then []
    else
      var r := records[|records| - 1];
      TimesFrom(records[..|records| - 1], peer) + if r.peer == peer then [r.ts] else []
  }

  /** The log holds the timestamps of every peer that was seen, and of no AS zero. */
  lemma {:induction false} PeerLogIs(records: seq<Seen>, peer: uint32)
    ensures peer in PeerLog(records) <==> peer != 0 && TimesFrom(records, peer) != []
    ensures peer in PeerLog(records) ==> PeerLog(records)[peer] == TimesFrom(records, peer)
  {
    if records != [] { PeerLogIs(records[..|records| - 1], peer); }
  }

  lemma NoTotals(totals: map<uint32, nat>)
    requires totals.Keys == {}
    ensures Sum<uint32, nat>(totals, Total) == 0
  {
    assert totals == map[];
  }
}
