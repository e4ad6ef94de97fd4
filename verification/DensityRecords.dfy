/** The density measurement from the records of a capture: which of them count, and what
    the distributions add up to. */
module DensityRecords {
  import opened Collections
  import opened Wire
  import opened Sums
  import opened Update
  import opened Mrt
  import opened SecondWalkers
  import opened TimeSeries
  import opened Density
  import opened Bursts

  /** What OnBGP4MP is handed: the payload with its subtype and second, and the message in it
      with the context that was attached. */
  datatype Capture = Capture(data: seq<byte>, subtype: uint16, ts: uint32, wire: seq<byte>, context: Context)

  ghost function CountOf(opens: seq<byte> -> bool, r: Capture): Count {
    match ParseMessage(opens, r.wire, r.context)
    case Refused => Count(0, 0, false)
    case Control => Count(0, 0, true)
    case Has(u) => CountUpdate(u, r.context)
  }

  /** The UPDATE a record contributes: one that counts cleanly, with the peer it names. */
  ghost function SeenOf(opens: seq<byte> -> bool, r: Capture): Option<Seen> {
    if !CountOf(opens, r).clean then None
    else
      match ExtractUpdate(r.subtype, r.data)
      case None => None
      case Some((_, peer)) => Some(Seen(peer, r.ts))
  }

  /** The record is as readMRTRecords hands it on: its message is what follows its header. */
  predicate Delivered(r: Capture) {
    && MessageSubtype(r.subtype) && DecodeBGP4MP(r.subtype, r.data).Some?
    && r.wire == r.data[DecodeBGP4MP(r.subtype, r.data).value.1..]
  }

  /** A record contributes if and only if it is an UPDATE whose prefixes count cleanly, and it
      does so for the peer AS of its header. */
  lemma SeenIffUpdate(opens: seq<byte> -> bool, r: Capture)
    requires Delivered(r)
    ensures SeenOf(opens, r).Some? <==> ParseMessage(opens, r.wire, r.context).Has? && CountOf(opens, r).clean
    ensures SeenOf(opens, r).Some? ==>
              SeenOf(opens, r) == Some(Seen(DecodeBGP4MP(r.subtype, r.data).value.0.peerAS, r.ts))
  {
    var parsed := ParseMessage(opens, r.wire, r.context);
    if parsed.Has? {
      ExtractRefines(opens, r.subtype, r.data, r.context);
    } else if parsed.Control? {
      SameHeader(r.subtype, r.data);
    }
  }

  /** What a record is found to be. */
  datatype Reading = Reading(seen: Option<Seen>, count: Count)

  ghost function Readings(opens: seq<byte> -> bool, records: seq<Capture>): seq<Reading> {
    seq(|records|, i requires 0 <= i < |records| => Reading(SeenOf(opens, records[i]), CountOf(opens, records[i])))
  }

  // ---------- the records that contribute ----------

  /** What the records of a capture come to: the UPDATEs that contribute, their prefixes, and
      how many records are damaged. */
  datatype Tally = Tally(seen: seq<Seen>, counts: seq<Count>, damaged: nat)

  const NO_TALLY := Tally([], [], 0)

  function Add(t: Tally, r: Reading): Tally {
    if r.seen.Some? then Tally(t.seen + [r.seen.value], t.counts + [r.count], t.damaged)
    else if r.count.clean then t
    else t.(damaged := t.damaged + 1)
  }

  function TallyOf(readings: seq<Reading>): Tally {
    if readings == [] then NO_TALLY
    else Add(TallyOf(readings[..|readings| - 1]), readings[|readings| - 1])
  }

  lemma TallyNext(readings: seq<Reading>, i: nat)
    requires i < |readings|
    ensures TallyOf(readings[..i + 1]) == Add(TallyOf(readings[..i]), readings[i])
  {
    assert readings[..i + 1][..i] == readings[..i];
  }

  lemma TallyEnds(readings: seq<Reading>, n: nat)
    requires n == |readings|
    ensures TallyOf(readings[..0]) == NO_TALLY && TallyOf(readings[..n]) == TallyOf(readings)
  {
    assert readings[..n] == readings;
  }

  lemma {:induction false} CleanIffNoneDamaged(readings: seq<Reading>)
    requires forall i :: 0 <= i < |readings| && readings[i].seen.Some? ==> readings[i].count.clean
    ensures TallyOf(readings).damaged == 0 <==> forall i :: 0 <= i < |readings| ==> readings[i].count.clean
  {
    if readings != [] {
      var front := readings[..|readings| - 1];
      CleanIffNoneDamaged(front);
      assert forall i :: 0 <= i < |front| ==> front[i] == readings[i];
    }
  }

  /** Where the records stand that contribute. */
  function Places(readings: seq<Reading>): seq<nat> {
    if readings == [] then []
    else
      var n := |readings| - 1;
      Places(readings[..n]) + if readings[n].seen.Some? then [n] else []
  }

  /** They stand at `at`, in order, and what they say is `seen` and `counts`. */
  ghost predicate Contribute(readings: seq<Reading>, at: seq<nat>, seen: seq<Seen>, counts: seq<Count>) {
    && Rising(at, |readings|) && |at| == |seen| == |counts|
    && (forall i :: 0 <= i < |readings| ==> (i in at <==> readings[i].seen.Some?))
    && forall k :: 0 <= k < |at| ==> readings[at[k]] == Reading(Some(seen[k]), counts[k])
  }

  lemma ContributeNext(front: seq<Reading>, r: Reading, at: seq<nat>, t: Tally)
    requires Contribute(front, at, t.seen, t.counts)
    ensures Contribute(front + [r], if r.seen.Some? then at + [|front|] else at, Add(t, r).seen, Add(t, r).counts)
  {
    var n, more, now := |front|, front + [r], Add(t, r);
    var places := if r.seen.Some? then at + [n] else at;
    RisingGrows(at, n);
    assert n !in at;
    forall i | 0 <= i < |more| ensures i in places <==> more[i].seen.Some? {
      if i < n { assert more[i] == front[i]; }
    }
    forall k | 0 <= k < |places| ensures more[places[k]] == Reading(Some(now.seen[k]), now.counts[k]) {
      if k < |at| { assert places[k] == at[k] && more[at[k]] == front[at[k]]; }
    }
  }

  lemma {:induction false} TallyContributes(readings: seq<Reading>)
    ensures Contribute(readings, Places(readings), TallyOf(readings).seen, TallyOf(readings).counts)
  {
    if readings != [] {
      var n := |readings| - 1;
      FrontAndLast(readings);
      TallyContributes(readings[..n]);
      ContributeNext(readings[..n], readings[n], Places(readings[..n]), TallyOf(readings[..n]));
    }
  }

  // ---------- prefixes per UPDATE ----------

  /** The distributions of prefixes, and the totals. */
  datatype Prefixes = Prefixes(
    announced: map<nat, nat>, withdrawn: map<nat, nat>, total: map<nat, nat>, totalAnnounced: nat, totalWithdrawn: nat)

  const NO_PREFIXES := Prefixes(map[], map[], map[], 0, 0)

  function MorePrefixes(p: Prefixes, a: nat, w: nat): Prefixes {
    Prefixes(OneMore(p.announced, a), OneMore(p.withdrawn, w), OneMore(p.total, a + w), p.totalAnnounced + a, p.totalWithdrawn + w)
  }

  function PrefixesOf(counts: seq<Count>): Prefixes {
    if counts == [] then NO_PREFIXES
    else
      var last := counts[|counts| - 1];
      MorePrefixes(PrefixesOf(counts[..|counts| - 1]), last.announced, last.withdrawn)
  }

  lemma PrefixesNext(counts: seq<Count>, c: Count)
    ensures PrefixesOf(counts + [c]) == MorePrefixes(PrefixesOf(counts), c.announced, c.withdrawn)
  {
    assert (counts + [c])[..|counts|] == counts;
  }

  function Announced(counts: seq<Count>): seq<nat> {
    seq(|counts|, i requires 0 <= i < |counts| => counts[i].announced)
  }

  function Withdrawn(counts: seq<Count>): seq<nat> {
    seq(|counts|, i requires 0 <= i < |counts| => counts[i].withdrawn)
  }

  function BothWays(counts: seq<Count>): seq<nat> {
    seq(|counts|, i requires 0 <= i < |counts| => counts[i].announced + counts[i].withdrawn)
  }

  /** For every number, how many of the values are that number, and what they add up to. */
  ghost predicate Distribution(m: map<nat, nat>, total: nat, values: seq<nat>) {
    (forall k :: Get(m, k) == Occurrences(values, k)) && UpdatesIn(m) == total
  }

  function Occurrences(values: seq<nat>, k: nat): nat {
    if values == [] then 0
    else Occurrences(values[..|values| - 1], k) + if values[|values| - 1] == k then 1 else 0
  }

  lemma OccurrencesMore(values: seq<nat>, v: nat, k: nat)
    ensures Occurrences(values + [v], k) == Occurrences(values, k) + if v == k then 1 else 0
  {
    assert (values + [v])[..|values|] == values;
  }

  lemma DistributionMore(m: map<nat, nat>, total: nat, values: seq<nat>, k: nat)
    requires Distribution(m, total, values)
    ensures Distribution(OneMore(m, k), total + k, values + [k])
  {
    OneMoreSecond(m, k);
    forall j ensures Get(OneMore(m, k), j) == Occurrences(values + [k], j) { OccurrencesMore(values, k, j); }
  }

  /** The three distributions are those of the prefixes that the UPDATEs announce, withdraw and
      move in all, which add up to the two totals. */
  ghost predicate Spread(p: Prefixes, counts: seq<Count>) {
    && Distribution(p.announced, p.totalAnnounced, Announced(counts))
    && Distribution(p.withdrawn, p.totalWithdrawn, Withdrawn(counts))
    && Distribution(p.total, p.totalAnnounced + p.totalWithdrawn, BothWays(counts))
  }

  lemma CountsMore(counts: seq<Count>, c: Count)
    ensures Announced(counts + [c]) == Announced(counts) + [c.announced]
    ensures Withdrawn(counts + [c]) == Withdrawn(counts) + [c.withdrawn]
    ensures BothWays(counts + [c]) == BothWays(counts) + [c.announced + c.withdrawn]
  {}

  lemma SpreadMore(p: Prefixes, counts: seq<Count>, c: Count)
    requires Spread(p, counts)
    ensures Spread(MorePrefixes(p, c.announced, c.withdrawn), counts + [c])
  {
    CountsMore(counts, c);
    DistributionMore(p.announced, p.totalAnnounced, Announced(counts), c.announced);
    DistributionMore(p.withdrawn, p.totalWithdrawn, Withdrawn(counts), c.withdrawn);
    DistributionMore(p.total, p.totalAnnounced + p.totalWithdrawn, BothWays(counts), c.announced + c.withdrawn);
  }

  lemma {:induction false} PrefixesSpread(counts: seq<Count>)
    ensures Spread(PrefixesOf(counts), counts)
  {
    if counts != [] {
      var front, last := counts[..|counts| - 1], counts[|counts| - 1];
      PrefixesSpread(front);
      FrontAndLast(counts);
      SpreadMore(PrefixesOf(front), front, last);
    }
  }

  class PrefixStats {
    var announced: map<nat, nat>
    var withdrawn: map<nat, nat>
    var total: map<nat, nat>
    var totalAnnounced: nat
    var totalWithdrawn: nat

    function View(): Prefixes
      reads this
    {
      Prefixes(announced, withdrawn, total, totalAnnounced, totalWithdrawn)
    }

    constructor ()
      ensures View() == NO_PREFIXES
    {
      announced, withdrawn, total, totalAnnounced, totalWithdrawn := map[], map[], map[], 0, 0;
    }

    method Count(a: nat, w: nat)
      modifies this
      ensures View() == MorePrefixes(old(View()), a, w)
      ensures forall counts, c: Count :: Spread(old(View()), counts) && c.announced == a && c.withdrawn == w
                ==> Spread(View(), counts + [c])
    {
      forall counts, c: Count | Spread(View(), counts) && c.announced == a && c.withdrawn == w
        ensures Spread(MorePrefixes(View(), a, w), counts + [c])
      {
        SpreadMore(View(), counts, c);
      }
      totalAnnounced, totalWithdrawn := totalAnnounced + a, totalWithdrawn + w;
      announced := announced[a := Get(announced, a) + 1];
      withdrawn := withdrawn[w := Get(withdrawn, w) + 1];
      total := total[a + w := Get(total, a + w) + 1];
    }
  }

  // ---------- a whole capture ----------

  /** The statistics hold the UPDATEs of the tally. */
  ghost predicate Counted(st: DensityStats, prefixes: PrefixStats, t: Tally)
    reads st, prefixes
  {
    Binned(st, t.seen) && prefixes.View() == PrefixesOf(t.counts)
  }

  ghost predicate Binned(st: DensityStats, seen: seq<Seen>)
    reads st
  {
    && st.Binned() && st.PeersBinned() && st.times == TimesIn(seen) && st.peerTimes == PeerLog(seen)
    && Sum<uint32, nat>(st.peerTotals, Total) == Attributed(seen)
  }

  lemma SeenMore(seen: seq<Seen>, s: Seen)
    ensures TimesIn(seen + [s]) == TimesIn(seen) + [s.ts]
    ensures Attributed(seen + [s]) == Attributed(seen) + if s.peer == 0 then 0 else 1
    ensures PeerLog(seen + [s]) == if s.peer == 0 then PeerLog(seen) else Logged(PeerLog(seen), s.peer, s.ts)
  {
    assert (seen + [s])[..|seen|] == seen;
  }

  /** The first half of densityProcessBGP4MP: is the record damaged, an UPDATE, or neither? */
  method Examine(opens: seq<byte> -> bool, r: Capture) returns (found: Reading)
    ensures found == Reading(SeenOf(opens, r), CountOf(opens, r))
  {
    var n := CountUpdateNLRIs(opens, r.wire, r.context);
    if !n.clean { return Reading(None, n); }
    var update := ExtractUpdate(r.subtype, r.data);
    found := Reading(if update.None? then None else Some(Seen(update.value.1, r.ts)), n);
  }

  method BinSeen(st: DensityStats, s: Seen, ghost seen: seq<Seen>)
    requires Binned(st, seen)
    modifies st
    ensures Binned(st, seen + [s])
  {
    SeenMore(seen, s);
    st.Process(s.peer, s.ts);
  }

  /** The rest of it. */
  method Tallied(found: Reading, st: DensityStats, prefixes: PrefixStats, ghost t: Tally)
    requires Counted(st, prefixes, t)
    modifies st, prefixes
    ensures Counted(st, prefixes, Add(t, found))
  {
    if found.seen.None? { return; }
    BinSeen(st, found.seen.value, t.seen);
    PrefixesNext(t.counts, found.count);
    prefixes.Count(found.count.announced, found.count.withdrawn);
  }

  method ProcessRecords(opens: seq<byte> -> bool, records: seq<Capture>, ghost readings: seq<Reading>)
    returns (st: DensityStats, prefixes: PrefixStats, damaged: nat)
    requires readings == Readings(opens, records)
    ensures fresh(st) && fresh(prefixes)
    ensures Counted(st, prefixes, TallyOf(readings)) && damaged == TallyOf(readings).damaged
  {
    damaged := 0;
    st, prefixes := NewStats();
    TallyEnds(readings, |readings|);
    for i := 0 to |records|
      invariant Counted(st, prefixes, TallyOf(readings[..i]))
      invariant damaged == TallyOf(readings[..i]).damaged
    {
      damaged := ProcessNext(opens, records, i, st, prefixes, damaged, readings);
    }
  }

  method ProcessNext(
    opens: seq<byte> -> bool, records: seq<Capture>, i: nat, st: DensityStats, prefixes: PrefixStats, was: nat,
    ghost readings: seq<Reading>)
    returns (damaged: nat)
    requires readings == Readings(opens, records) && i < |records|
    requires Counted(st, prefixes, TallyOf(readings[..i])) && was == TallyOf(readings[..i]).damaged
    modifies st, prefixes
    ensures Counted(st, prefixes, TallyOf(readings[..i + 1])) && damaged == TallyOf(readings[..i + 1]).damaged
  {
    TallyNext(readings, i);
    damaged := ProcessRecord(opens, records[i], st, prefixes, was, TallyOf(readings[..i]), readings[i]);
  }

  /** densityProcessBGP4MP, and the note of a damaged record. */
  method ProcessRecord(
    opens: seq<byte> -> bool, r: Capture, st: DensityStats, prefixes: PrefixStats, was: nat, ghost t: Tally, ghost reading: Reading)
    returns (damaged: nat)
    requires Counted(st, prefixes, t) && was == t.damaged && reading == Reading(SeenOf(opens, r), CountOf(opens, r))
    modifies st, prefixes
    ensures Counted(st, prefixes, Add(t, reading))
    ensures damaged == Add(t, reading).damaged
  {
    var found := Examine(opens, r);
    Tallied(found, st, prefixes, t);
    damaged := if found.count.clean then was else was + 1;
  }

  lemma NothingSeen()
    ensures TimesIn([]) == [] && PeerLog([]) == map[] && Attributed([]) == 0
  {}

  method NewStats() returns (st: DensityStats, prefixes: PrefixStats)
    ensures fresh(st) && fresh(prefixes) && Counted(st, prefixes, NO_TALLY)
  {
    prefixes := new PrefixStats();
    st := new DensityStats();
    NoTotals(st.peerTotals);
    NothingSeen();
  }

  /** The series of every known peer spells out its UPDATEs. */
  ghost predicate PeersSpelled(bins: map<uint32, Tracker>, log: map<uint32, seq<uint32>>) {
    bins.Keys == log.Keys && forall p :: p in bins ==> SpellsOut(bins[p].series, log[p])
  }

  /** The seconds of the capture hold its UPDATEs but for those lost to a zero timestamp, each
      under its own timestamp, and the histogram of rates is that of those seconds and of the idle ones between. */
  ghost predicate SecondsHold(perSecond: map<nat, nat>, series: seq<Second>, times: seq<uint32>) {
    && CountSum(series) + Lost(times) == |times| && SpellsOut(series, times)
    && Rated(perSecond, series, Elapsed(times) + if times == [] then 0 else 1)
  }

  lemma FinalSeconds(times: seq<uint32>)
    ensures SecondsHold(FinalRates(times), Closed(TrackerOf(times)), times)
  {
    TrackerHolds(times);
    TrackerSpells(times);
    FinalRated(times);
  }

  /** Set-up is the updates of the known peers' maximal blocks that hold at least 100, maintenance
      those of the others; they share out the UPDATEs of known peers exactly when no peer has one
      stamped zero before its last. */
  ghost predicate Shared(bins: map<uint32, Tracker>, seen: seq<Seen>, maintenance: nat, setup: nat) {
    && setup == Sum<uint32, Tracker>(bins, InLargeBlocks) && maintenance == Sum<uint32, Tracker>(bins, InSmallBlocks)
    && (maintenance + setup == Attributed(seen)
        <==> forall p :: p in PeerLog(seen) ==> ZeroOnlyLast(PeerLog(seen)[p]))
  }

  lemma SharedOut(bins: map<uint32, Tracker>, totals: map<uint32, nat>, seen: seq<Seen>, maintenance: nat, setup: nat)
    requires Density.Settled(bins, totals, PeerLog(seen)) && Sum<uint32, nat>(totals, Total) == Attributed(seen)
    requires setup == Sum<uint32, Tracker>(bins, InLargeBlocks) && maintenance == Sum<uint32, Tracker>(bins, InSmallBlocks)
    requires maintenance + setup == Sum<uint32, Tracker>(bins, Held)
    ensures Shared(bins, seen, maintenance, setup)
  {
    BurstAccountsForAllIff(bins, totals, PeerLog(seen));
  }

  lemma CleanExit(opens: seq<byte> -> bool, records: seq<Capture>)
    ensures TallyOf(Readings(opens, records)).damaged == 0
       <==> forall i :: 0 <= i < |records| ==> CountOf(opens, records[i]).clean
  {
    var readings := Readings(opens, records);
    forall i | 0 <= i < |records| ensures readings[i].count == CountOf(opens, records[i]) {}
    CleanIffNoneDamaged(readings);
  }

  /** runDensity, for any capture: `at` says which records contribute an UPDATE, what it is
      (`seen`) and how many prefixes it moves (`counts`); everything printed is about exactly
      those.  The exit is clean if no record is damaged. */
  method Measure(opens: seq<byte> -> bool, records: seq<Capture>)
    returns (st: DensityStats, prefixes: PrefixStats, maintenance: nat, setup: nat, ok: bool,
             ghost at: seq<nat>, ghost seen: seq<Seen>, ghost counts: seq<Count>)
    ensures fresh(st) && fresh(prefixes)
    ensures Contribute(Readings(opens, records), at, seen, counts)
    ensures ok <==> forall i :: 0 <= i < |records| ==> CountOf(opens, records[i]).clean
    ensures st.totalUpdates == |seen| && Spread(prefixes.View(), counts)
    ensures SecondsHold(st.perSecond, st.series, TimesIn(seen)) && PeersSpelled(st.peerBins, PeerLog(seen))
    ensures Shared(st.peerBins, seen, maintenance, setup)
  {
    ghost var readings := Readings(opens, records);
    var damaged;
    st, prefixes, damaged := ProcessRecords(opens, records, readings);
    at, seen, counts := Places(readings), TallyOf(readings).seen, TallyOf(readings).counts;
    TallyContributes(readings);
    CleanExit(opens, records);
    PrefixesSpread(counts);
    ok := damaged == 0;
    maintenance, setup := Finish(st, seen);
  }

  /** The end of runDensity: open bins closed, and the burst analysis. */
  method Finish(st: DensityStats, ghost seen: seq<Seen>) returns (maintenance: nat, setup: nat)
    requires Binned(st, seen)
    modifies st
    ensures st.totalUpdates == |seen|
    ensures SecondsHold(st.perSecond, st.series, TimesIn(seen)) && PeersSpelled(st.peerBins, PeerLog(seen))
    ensures Shared(st.peerBins, seen, maintenance, setup)
  {
    CloseBins(st, seen);
    FinalSeconds(TimesIn(seen));
    SettledSpells(st.peerBins, st.peerTotals, PeerLog(seen));
    maintenance, setup := BurstTotals(st.peerBins);
    SharedOut(st.peerBins, st.peerTotals, seen, maintenance, setup);
  }

  method CloseBins(st: DensityStats, ghost seen: seq<Seen>)
    requires Binned(st, seen)
    modifies st
    ensures st.totalUpdates == |seen|
    ensures st.series == Closed(TrackerOf(TimesIn(seen))) && st.perSecond == FinalRates(TimesIn(seen))
    ensures Density.Settled(st.peerBins, st.peerTotals, PeerLog(seen))
    ensures Sum<uint32, nat>(st.peerTotals, Total) == Attributed(seen)
  {
    st.Flush();
  }
}
