/** The writers of MRT records, in place in a caller's buffer.  Each puts its
    encoding at the offset it is given, answers how long that was, and leaves
    every other octet of the buffer alone. */
module MrtWriters {
  import opened Collections
  import opened Wire
  import opened Walker
  import opened Mrt
  import opened MrtRoundTrips

  /** `s` with `data` written at `off`. */
  function Spliced(s: seq<byte>, off: nat, data: seq<byte>): (r: seq<byte>)
    requires off + |data| <= |s|
    ensures |r| == |s|
  {
    s[..off] + data + s[off + |data|..]
  }

  lemma SpliceTwice(s: seq<byte>, off: nat, a: seq<byte>, b: seq<byte>)
    requires off + |a| + |b| <= |s|
    ensures Spliced(Spliced(s, off, a), off + |a|, b) == Spliced(s, off, a + b)
  {
    assert a + b == (a + b)[..|a|] + (a + b)[|a|..];
  }

  lemma SpliceNext(s: seq<byte>, off: nat, data: seq<byte>, i: nat)
    requires i < |data| && off + |data| <= |s|
    ensures Spliced(s, off, data[..i])[off + i := data[i]] == Spliced(s, off, data[..i + 1])
  {}

  /** copy(buf[off:], data), and the Put functions of encoding/binary. */
  method Copy(buf: array<byte>, off: nat, data: seq<byte>)
    requires off + |data| <= buf.Length
    modifies buf
    ensures buf[..] == Spliced(old(buf[..]), off, data)
  {
    var i := 0;
    while i < |data|
      invariant 0 <= i <= |data|
      invariant buf[..] == Spliced(old(buf[..]), off, data[..i])
    {
      SpliceNext(old(buf[..]), off, data, i);
      buf[off + i] := data[i];
      i := i + 1;
    }
    assert data[..i] == data;
  }

  lemma IPFieldParts(ip: seq<byte>, n: nat)
    ensures var copied := if |ip| < n then |ip| else n; ip[..copied] + Zeros(n - copied) == IPField(ip, n)
  {}

  method CopyBoth(buf: array<byte>, off: nat, a: seq<byte>, b: seq<byte>)
    requires off + |a| + |b| <= buf.Length
    modifies buf
    ensures buf[..] == Spliced(old(buf[..]), off, a + b)
  {
    Copy(buf, off, a);
    Copy(buf, off + |a|, b);
    SpliceTwice(old(buf[..]), off, a, b);
  }

  /** Four fields, one behind the other. */
  method CopyFour(buf: array<byte>, off: nat, a: seq<byte>, b: seq<byte>, c: seq<byte>, d: seq<byte>)
    requires off + |a| + |b| + |c| + |d| <= buf.Length
    modifies buf
    ensures buf[..] == Spliced(old(buf[..]), off, a + b + c + d)
  {
    ghost var s := buf[..];
    CopyBoth(buf, off, a, b);
    Copy(buf, off + |a| + |b|, c);
    SpliceTwice(s, off, a + b, c);
    Copy(buf, off + |a| + |b| + |c|, d);
    SpliceTwice(s, off, a + b + c, d);
  }

  /** copyIPField: the octets there are, then zeros. */
  method CopyIPField(buf: array<byte>, off: nat, ip: seq<byte>, n: nat)
    requires off + n <= buf.Length
    modifies buf
    ensures buf[..] == Spliced(old(buf[..]), off, IPField(ip, n))
  {
    var copied := if |ip| < n then |ip| else n;
    IPFieldParts(ip, n);
    CopyBoth(buf, off, ip[..copied], Zeros(n - copied));
  }

  method WritePeerEntry(buf: array<byte>, off: nat, p: PeerEntry) returns (n: nat)
    requires off + |PackPeer(p)| <= buf.Length
    modifies buf
    ensures n == |PackPeer(p)| && buf[..] == Spliced(old(buf[..]), off, PackPeer(p))
  {
    ghost var s := buf[..];
    var size := IPSize(p.typ);
    Copy(buf, off, [p.typ]);
    CopyIPField(buf, off + 1, p.bgpID, 4);
    SpliceTwice(s, off, [p.typ], IPField(p.bgpID, 4));
    CopyIPField(buf, off + 5, p.ip, size);
    SpliceTwice(s, off, [p.typ] + IPField(p.bgpID, 4), IPField(p.ip, size));
    Copy(buf, off + 5 + size, ASField(p.asn, IsAS4(p.typ)));
    SpliceTwice(s, off, [p.typ] + IPField(p.bgpID, 4) + IPField(p.ip, size), ASField(p.asn, IsAS4(p.typ)));
    n := 5 + size + ASSize(p.typ);
  }

  lemma {:induction false} FlatSplit<T>(pack: T -> seq<byte>, items: seq<T>, i: nat)
    requires i <= |items|
    ensures Flat(pack, items) == Flat(pack, items[..i]) + Flat(pack, items[i..])
  {
    if i > 0 {
      FlatSplit(pack, items[1..], i - 1);
      assert items[..i][1..] == items[1..][..i - 1];
      assert items[1..][i - 1..] == items[i..];
    }
  }

  /** Items already written, then the next one behind them. */
  lemma FlatNext<T>(pack: T -> seq<byte>, items: seq<T>, i: nat)
    requires i < |items|
    ensures Flat(pack, items[..i + 1]) == Flat(pack, items[..i]) + pack(items[i])
    ensures |Flat(pack, items[..i + 1])| <= |Flat(pack, items)|
  {
    var next := items[..i + 1];
    FlatSplit(pack, items, i + 1);
    FlatSplit(pack, next, i);
    assert next[..i] == items[..i] && next[i..] == [items[i]] && next[i..][1..] == [];
    assert pack(items[i]) + [] == pack(items[i]);
  }

  lemma SplicedItem<T>(pack: T -> seq<byte>, items: seq<T>, i: nat, s: seq<byte>, off: nat)
    requires i < |items| && off + |Flat(pack, items)| <= |s|
    ensures var done, next := Flat(pack, items[..i]), Flat(pack, items[..i + 1]);
            && |next| == |done| + |pack(items[i])| <= |Flat(pack, items)|
            && Spliced(Spliced(s, off, done), off + |done|, pack(items[i])) == Spliced(s, off, next)
  {
    FlatNext(pack, items, i);
    SpliceTwice(s, off, Flat(pack, items[..i]), pack(items[i]));
  }

  lemma NextStage<T>(pack: T -> seq<byte>, items: seq<T>, s: seq<byte>, off: nat, i: nat, stage: seq<byte>, end: nat)
    returns (next: seq<byte>)
    requires i < |items| && off + |Flat(pack, items)| <= |s|
    requires end == |Flat(pack, items[..i])| && off + end <= |s| && stage == Spliced(s, off, Flat(pack, items[..i]))
    ensures off + end + |pack(items[i])| <= |s| && next == Spliced(stage, off + end, pack(items[i]))
    ensures end + |pack(items[i])| == |Flat(pack, items[..i + 1])| && next == Spliced(s, off, Flat(pack, items[..i + 1]))
  {
    SplicedItem(pack, items, i, s, off);
    next := Spliced(stage, off + end, pack(items[i]));
  }

  /** The buffer after each item of a loop that writes them one behind the other. */
  lemma Stages<T>(pack: T -> seq<byte>, items: seq<T>, s: seq<byte>, off: nat) returns (stages: seq<seq<byte>>, ends: seq<nat>)
    requires off + |Flat(pack, items)| <= |s|
    ensures |stages| == |ends| == |items| + 1 && stages[0] == s && ends[0] == 0
    ensures stages[|items|] == Spliced(s, off, Flat(pack, items)) && ends[|items|] == |Flat(pack, items)|
    ensures forall i :: 0 <= i < |items| ==> Follows(pack, items[i], stages[i], stages[i + 1], ends[i], ends[i + 1], off)
  {
    stages, ends := [s], [0];
    assert items[..0] == [] && Spliced(s, off, []) == s;
    for i := 0 to |items|
      invariant |stages| == |ends| == i + 1 && stages[0] == s && ends[0] == 0
      invariant ends[i] == |Flat(pack, items[..i])| && off + ends[i] <= |s|
      invariant stages[i] == Spliced(s, off, Flat(pack, items[..i]))
      invariant forall j :: 0 <= j < i ==> Follows(pack, items[j], stages[j], stages[j + 1], ends[j], ends[j + 1], off)
    {
      var next := NextStage(pack, items, s, off, i, stages[i], ends[i]);
      stages, ends := stages + [next], ends + [ends[i] + |pack(items[i])|];
    }
    assert items[..|items|] == items;
  }

  ghost predicate Follows<T>(pack: T -> seq<byte>, item: T, stage: seq<byte>, next: seq<byte>, end: nat, more: nat, off: nat) {
    more == end + |pack(item)| && off + more <= |stage| && next == Spliced(stage, off + end, pack(item))
  }

  /** One peer more, behind those already written. */
  method PeerAt(buf: array<byte>, at: nat, p: PeerEntry, ghost before: seq<byte>, ghost after: seq<byte>) returns (n: nat)
    requires buf[..] == before && at + |PackPeer(p)| <= |before| && after == Spliced(before, at, PackPeer(p))
    modifies buf
    ensures n == |PackPeer(p)| && buf[..] == after
  {
    n := WritePeerEntry(buf, at, p);
  }

  method WritePeers(buf: array<byte>, off: nat, peers: seq<PeerEntry>) returns (n: nat)
    requires off + |Flat(PackPeer, peers)| <= buf.Length
    modifies buf
    ensures n == |Flat(PackPeer, peers)| && buf[..] == Spliced(old(buf[..]), off, Flat(PackPeer, peers))
  {
    n := 0;
    ghost var stages, ends := Stages(PackPeer, peers, buf[..], off);
    for i := 0 to |peers|
      invariant n == ends[i] && buf[..] == stages[i]
    {
      assert Follows(PackPeer, peers[i], stages[i], stages[i + 1], ends[i], ends[i + 1], off);
      var wrote := PeerAt(buf, off + n, peers[i], stages[i], stages[i + 1]);
      n := n + wrote;
    }
  }

  /** WritePeerIndexTable; a view name that is not UTF-8 or too long is refused before
      the buffer is touched. */
  method WritePeerIndexTable(utf8: seq<byte> -> bool, buf: array<byte>, off: nat, t: PeerTable) returns (n: Option<nat>)
    requires off + |PackPeers(t)| <= buf.Length
    modifies buf
    ensures n.Some? <==> utf8(t.view) && |t.view| <= 0xffff
    ensures n.None? ==> buf[..] == old(buf[..])
    ensures n.Some? ==> n.value == |PackPeers(t)| && buf[..] == Spliced(old(buf[..]), off, PackPeers(t))
  {
    if !utf8(t.view) { return None; }
    if |t.view| > 0xffff { return None; }
    WriteTableHead(buf, off, t);
    var at := 8 + |t.view|;
    var wrote := WritePeers(buf, off + at, t.peers);
    SpliceTwice(old(buf[..]), off, PackTableHead(t), Flat(PackPeer, t.peers));
    n := Some(at + wrote);
  }

  method WriteTableHead(buf: array<byte>, off: nat, t: PeerTable)
    requires off + 8 + |t.view| <= buf.Length
    modifies buf
    ensures buf[..] == Spliced(old(buf[..]), off, PackTableHead(t))
  {
    CopyFour(buf, off, IPField(t.collector, 4), Put16(Low16(|t.view|)), t.view, Put16(Low16(|t.peers|)));
  }

  /** WriteRIBEntry and WriteRIBEntryAddPath. */
  method WriteRIBEntry(buf: array<byte>, off: nat, e: RIBEntry, addPath: bool) returns (n: nat)
    requires off + |PackEntry(e, addPath)| <= buf.Length
    modifies buf
    ensures n == |PackEntry(e, addPath)| && buf[..] == Spliced(old(buf[..]), off, PackEntry(e, addPath))
  {
    var index, time, id := Put16(e.peerIndex), Put32(e.origTime), if addPath then Put32(e.pathID) else [];
    var len := Put16(Low16(|e.attributes|));
    n := if addPath then 12 else 8;
    CopyFour(buf, off, index, time, id, len);
    Copy(buf, off + n, e.attributes);
    SpliceTwice(old(buf[..]), off, index + time + id + len, e.attributes);
    n := n + |e.attributes|;
  }

  /** One entry more, behind those already written. */
  method EntryAt(buf: array<byte>, at: nat, e: RIBEntry, addPath: bool, ghost before: seq<byte>, ghost after: seq<byte>)
    returns (n: nat)
    requires buf[..] == before && at + |PackEntry(e, addPath)| <= |before|
    requires after == Spliced(before, at, PackEntry(e, addPath))
    modifies buf
    ensures n == |PackEntry(e, addPath)| && buf[..] == after
  {
    n := WriteRIBEntry(buf, at, e, addPath);
  }

  method WriteEntries(buf: array<byte>, off: nat, entries: seq<RIBEntry>, addPath: bool) returns (n: nat)
    requires off + |Flat(EntryPacker(addPath), entries)| <= buf.Length
    modifies buf
    ensures n == |Flat(EntryPacker(addPath), entries)|
    ensures buf[..] == Spliced(old(buf[..]), off, Flat(EntryPacker(addPath), entries))
  {
    n := 0;
    ghost var stages, ends := Stages(EntryPacker(addPath), entries, buf[..], off);
    for i := 0 to |entries|
      invariant n == ends[i] && buf[..] == stages[i]
    {
      assert Follows(EntryPacker(addPath), entries[i], stages[i], stages[i + 1], ends[i], ends[i + 1], off);
      var wrote := EntryAt(buf, off + n, entries[i], addPath, stages[i], stages[i + 1]);
      n := n + wrote;
    }
  }

  /** WriteRIBHeader followed by WriteRIBEntries. */
  method WriteRIB(buf: array<byte>, off: nat, r: RIBRecord, addPath: bool) returns (n: nat)
    requires OctetsWritten(r.prefixLen) <= |r.prefix| && off + |PackRIB(r, addPath)| <= buf.Length
    modifies buf
    ensures n == |PackRIB(r, addPath)| && buf[..] == Spliced(old(buf[..]), off, PackRIB(r, addPath))
  {
    ghost var s, head, entries := buf[..], PackRIBHead(r), Flat(EntryPacker(addPath), r.entries);
    WriteRIBHead(buf, off, r);
    n := 7 + OctetsWritten(r.prefixLen);
    var wrote := WriteEntries(buf, off + n, r.entries, addPath);
    SpliceTwice(s, off, head, entries);
    n := n + wrote;
  }

  method WriteRIBHead(buf: array<byte>, off: nat, r: RIBRecord)
    requires OctetsWritten(r.prefixLen) <= |r.prefix| && off + 7 + OctetsWritten(r.prefixLen) <= buf.Length
    modifies buf
    ensures buf[..] == Spliced(old(buf[..]), off, PackRIBHead(r))
  {
    var n := OctetsWritten(r.prefixLen);
    CopyFour(buf, off, Put32(r.seqNo), [r.prefixLen], r.prefix[..n], Put16(Low16(|r.entries|)));
  }

  method WriteNumbers(buf: array<byte>, off: nat, h: BGP4MPHeader, as4: bool)
    requires off + |PackNumbers(h, as4)| <= buf.Length
    modifies buf
    ensures buf[..] == Spliced(old(buf[..]), off, PackNumbers(h, as4))
  {
    CopyFour(buf, off, ASField(h.peerAS, as4), ASField(h.localAS, as4), Put16(h.ifIndex), Put16(h.afi));
  }

  /** writeBGP4MPCommon. */
  method WriteBGP4MPCommon(buf: array<byte>, off: nat, h: BGP4MPHeader, as4: bool) returns (n: nat)
    requires off + |PackBGP4MP(h, as4)| <= buf.Length
    modifies buf
    ensures n == |PackBGP4MP(h, as4)| && buf[..] == Spliced(old(buf[..]), off, PackBGP4MP(h, as4))
  {
    ghost var s := buf[..];
    var size := if h.afi == 2 then 16 else 4;
    n := if as4 then 12 else 8;
    WriteNumbers(buf, off, h, as4);
    CopyIPField(buf, off + n, h.peerIP, size);
    SpliceTwice(s, off, PackNumbers(h, as4), IPField(h.peerIP, size));
    CopyIPField(buf, off + n + size, h.localIP, size);
    SpliceTwice(s, off, PackNumbers(h, as4) + IPField(h.peerIP, size), IPField(h.localIP, size));
    n := n + 2 * size;
  }

  method WriteBGP4MPMessage(buf: array<byte>, off: nat, h: BGP4MPHeader, as4: bool, msg: seq<byte>) returns (n: nat)
    requires off + |PackBGP4MP(h, as4)| + |msg| <= buf.Length
    modifies buf
    ensures n == |PackBGP4MP(h, as4)| + |msg|
    ensures buf[..] == Spliced(old(buf[..]), off, PackBGP4MP(h, as4) + msg)
  {
    n := WriteBGP4MPCommon(buf, off, h, as4);
    Copy(buf, off + n, msg);
    SpliceTwice(old(buf[..]), off, PackBGP4MP(h, as4), msg);
    n := n + |msg|;
  }

  method WriteBGP4MPStateChange(buf: array<byte>, off: nat, c: StateChange, as4: bool) returns (n: nat)
    requires off + |PackStateChange(c, as4)| <= buf.Length
    modifies buf
    ensures n == |PackStateChange(c, as4)| && buf[..] == Spliced(old(buf[..]), off, PackStateChange(c, as4))
  {
    n := WriteBGP4MPCommon(buf, off, c.header, as4);
    CopyBoth(buf, off + n, Put16(c.oldState), Put16(c.newState));
    SpliceTwice(old(buf[..]), off, PackBGP4MP(c.header, as4), Put16(c.oldState) + Put16(c.newState));
    n := n + 4;
  }

  /** What a decoder finds at the offset a writer wrote to. */
  lemma ReadAtOffset(s: seq<byte>, off: nat, data: seq<byte>)
    requires off + |data| <= |s|
    ensures Spliced(s, off, data)[off..] == data + s[off + |data|..]
  {}

  /** A buffer holding whatever it held, after WritePeerIndexTable, decodes from that
      offset to the table that was written. */
  lemma WrittenTableReadsBack(utf8: seq<byte> -> bool, s: seq<byte>, off: nat, t: PeerTable)
    requires utf8(t.view) && TableFits(t) && off + |PackPeers(t)| <= |s|
    ensures DecodePeers(utf8, Spliced(s, off, PackPeers(t))[off..]) == Some(t)
  {
    ReadAtOffset(s, off, PackPeers(t));
    PackedTableDecodes(utf8, t, s[off + |PackPeers(t)|..]);
  }

  lemma WrittenRIBReadsBack(s: seq<byte>, off: nat, subtype: uint16, r: RIBRecord)
    requires RIBFits(r, AddPathSubtype(subtype)) && off + |PackRIB(r, AddPathSubtype(subtype))| <= |s|
    ensures DecodeRIB(subtype, Spliced(s, off, PackRIB(r, AddPathSubtype(subtype)))[off..]) == Some(r)
  {
    ReadAtOffset(s, off, PackRIB(r, AddPathSubtype(subtype)));
    PackedRIBDecodes(subtype, r, s[off + |PackRIB(r, AddPathSubtype(subtype))|..]);
  }
}
