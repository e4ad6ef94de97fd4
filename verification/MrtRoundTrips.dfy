/** Writing then decoding an MRT record is the identity exactly on the records
    whose fields the format can hold, whatever octets follow. */
module MrtRoundTrips {
  import opened Collections
  import opened Wire
  import opened Walker
  import opened Mrt

  // ---------- peer index tables ----------

  predicate PeerFits(p: PeerEntry) {
    |p.bgpID| == 4 && |p.ip| == IPSize(p.typ) && (IsAS4(p.typ) || p.asn < 0x1_0000)
  }

  ghost predicate TableFits(t: PeerTable) {
    && |t.collector| == 4 && |t.view| < 0x1_0000 && |t.peers| < 0x1_0000
    && forall i :: 0 <= i < |t.peers| ==> PeerFits(t.peers[i])
  }

  lemma ASReads(data: seq<byte>, off: nat, asn: uint32, as4: bool)
    requires as4 || asn < 0x1_0000
    requires off + |ASField(asn, as4)| <= |data| && data[off..off + |ASField(asn, as4)|] == ASField(asn, as4)
    ensures ReadAS(data, off, as4) == asn
  {
    if as4 { U32Reads(data, off, asn); } else { U16Reads(data, off, asn); }
  }

  lemma PeerDecodes(p: PeerEntry)
    requires PeerFits(p)
    ensures Decodes(FirstPeer, PackPeer, p)
  {
    forall rest: seq<byte> ensures FirstPeer(PackPeer(p) + rest) == Some((p, |PackPeer(p)|)) {
      var data, at := PackPeer(p) + rest, 5 + IPSize(p.typ);
      Fields([p.typ], p.bgpID, p.ip, ASField(p.asn, IsAS4(p.typ)), rest);
      ASReads(data, at, p.asn, IsAS4(p.typ));
    }
  }

  lemma FirstPeerFits(data: seq<byte>)
    requires FirstPeer(data).Some?
    ensures PeerFits(FirstPeer(data).value.0)
  {}

  lemma DecodedTableFits(utf8: seq<byte> -> bool, data: seq<byte>)
    requires DecodePeers(utf8, data).Some?
    ensures TableFits(DecodePeers(utf8, data).value) && utf8(DecodePeers(utf8, data).value.view)
  {
    var t := DecodePeers(utf8, data).value;
    var end := 6 + U16(data, 4);
    TakenCount(FirstPeer, data[end + 2..], U16(data, end));
    forall i | 0 <= i < |t.peers| ensures PeerFits(t.peers[i]) {
      TakenItems(FirstPeer, data[end + 2..], U16(data, end), i);
      var d: seq<byte> :| FirstPeer(d).Some? && FirstPeer(d).value.0 == t.peers[i];
      FirstPeerFits(d);
    }
  }

  lemma PackedTableDecodes(utf8: seq<byte> -> bool, t: PeerTable, trailing: seq<byte>)
    requires utf8(t.view) && TableFits(t)
    ensures DecodePeers(utf8, PackPeers(t) + trailing) == Some(t)
  {
    var flat := Flat(PackPeer, t.peers);
    var data := PackTableHead(t) + (flat + trailing);
    Assoc(PackTableHead(t), flat, trailing);
    Fields(t.collector, Put16(|t.view|), t.view, Put16(|t.peers|), flat + trailing);
    U16Reads(data, 4, |t.view|);
    U16Reads(data, 6 + |t.view|, |t.peers|);
    forall i | 0 <= i < |t.peers| ensures Decodes(FirstPeer, PackPeer, t.peers[i]) { PeerDecodes(t.peers[i]); }
    PackedTake(FirstPeer, PackPeer, t.peers, trailing);
    DecodePeersFrom(utf8, data, t);
  }

  /** DecodePeerIndexTable, field by field. */
  lemma DecodePeersFrom(utf8: seq<byte> -> bool, data: seq<byte>, t: PeerTable)
    requires utf8(t.view) && 8 + |t.view| <= |data| && data[..4] == t.collector && U16(data, 4) == |t.view|
    requires data[6..6 + |t.view|] == t.view
    requires var taken := Take(FirstPeer, data[8 + |t.view|..], U16(data, 6 + |t.view|));
             taken.Some? && taken.value == t.peers
    ensures DecodePeers(utf8, data) == Some(t)
  {}

  /** WritePeerIndexTable then DecodePeerIndexTable gives the table back, with
      anything behind it, exactly when the table fits: at most 65535 peers, each
      with an address of its own family and an AS number of its own width. */
  lemma PeerTableRoundTrip(utf8: seq<byte> -> bool, t: PeerTable, trailing: seq<byte>)
    requires utf8(t.view) && |t.view| < 0x1_0000
    ensures DecodePeers(utf8, PackPeers(t) + trailing) == Some(t) <==> TableFits(t)
  {
    if TableFits(t) {
      PackedTableDecodes(utf8, t, trailing);
    } else if DecodePeers(utf8, PackPeers(t) + trailing) == Some(t) {
      DecodedTableFits(utf8, PackPeers(t) + trailing);
    }
  }

  // ---------- RIB records ----------

  predicate EntryFits(e: RIBEntry, addPath: bool) {
    |e.attributes| < 0x1_0000 && (!addPath ==> e.pathID == 0)
  }

  ghost predicate RIBFits(r: RIBRecord, addPath: bool) {
    && r.prefixLen <= 248 && |r.prefix| == OctetsWritten(r.prefixLen) && |r.entries| < 0x1_0000
    && forall i :: 0 <= i < |r.entries| ==> EntryFits(r.entries[i], addPath)
  }

  lemma EntryDecodes(e: RIBEntry, addPath: bool)
    requires EntryFits(e, addPath)
    ensures Decodes(EntryHead(addPath), EntryPacker(addPath), e)
  {
    forall rest: seq<byte> ensures FirstEntry(PackEntry(e, addPath) + rest, addPath) == Some((e, |PackEntry(e, addPath)|)) {
      PackedEntryFirst(e, addPath, rest);
    }
  }

  lemma PackedEntryFirst(e: RIBEntry, addPath: bool, rest: seq<byte>)
    requires EntryFits(e, addPath)
    ensures FirstEntry(PackEntry(e, addPath) + rest, addPath) == Some((e, |PackEntry(e, addPath)|))
  {
    var n, id := |e.attributes|, if addPath then Put32(e.pathID) else [];
    var head := Put16(e.peerIndex) + Put32(e.origTime) + id + Put16(n);
    var data := head + (e.attributes + rest);
    Assoc(head, e.attributes, rest);
    Fields(Put16(e.peerIndex), Put32(e.origTime), id, Put16(n), e.attributes + rest);
    assert data[|head|..|head| + n] == data[|head|..][..n];
    U16Reads(data, 0, e.peerIndex);
    U32Reads(data, 2, e.origTime);
    if addPath { U32Reads(data, 6, e.pathID); }
    U16Reads(data, if addPath then 10 else 6, n);
  }

  lemma DecodedRIBFits(subtype: uint16, data: seq<byte>)
    requires DecodeRIB(subtype, data).Some?
    ensures var r := DecodeRIB(subtype, data).value;
            && |r.prefix| == OctetsRead(r.prefixLen) && |r.entries| < 0x1_0000
            && forall i :: 0 <= i < |r.entries| ==> EntryFits(r.entries[i], AddPathSubtype(subtype))
  {
    var r, head, end := DecodeRIB(subtype, data).value, EntryHead(AddPathSubtype(subtype)), 5 + OctetsRead(data[4]);
    var count := U16(data, end);
    TakenCount(head, data[end + 2..], count);
    forall i | 0 <= i < count ensures EntryFits(r.entries[i], AddPathSubtype(subtype)) {
      TakenItems(head, data[end + 2..], count, i);
      var d: seq<byte> :| head(d).Some? && head(d).value.0 == r.entries[i];
    }
  }

  /** The two ways of counting prefix octets agree up to 248 bits and never beyond. */
  lemma OctetsAgree(prefixLen: byte)
    ensures OctetsRead(prefixLen) == OctetsWritten(prefixLen) <==> prefixLen <= 248
  {}

  lemma PackedRIBDecodes(subtype: uint16, r: RIBRecord, trailing: seq<byte>)
    requires RIBFits(r, AddPathSubtype(subtype))
    ensures DecodeRIB(subtype, PackRIB(r, AddPathSubtype(subtype)) + trailing) == Some(r)
  {
    var addPath := AddPathSubtype(subtype);
    var flat := Flat(EntryPacker(addPath), r.entries);
    var data, end := PackRIBHead(r) + (flat + trailing), 5 + |r.prefix|;
    Assoc(PackRIBHead(r), flat, trailing);
    OctetsAgree(r.prefixLen);
    assert r.prefix[..OctetsWritten(r.prefixLen)] == r.prefix;
    Fields(Put32(r.seqNo), [r.prefixLen], r.prefix, Put16(|r.entries|), flat + trailing);
    assert data[4] == data[4..5][0];
    U32Reads(data, 0, r.seqNo);
    U16Reads(data, end, |r.entries|);
    forall i | 0 <= i < |r.entries| ensures Decodes(EntryHead(addPath), EntryPacker(addPath), r.entries[i]) {
      EntryDecodes(r.entries[i], addPath);
    }
    PackedTake(EntryHead(addPath), EntryPacker(addPath), r.entries, trailing);
    DecodeRIBFrom(subtype, data, r);
  }

  /** DecodeRIBRecord, field by field. */
  lemma DecodeRIBFrom(subtype: uint16, data: seq<byte>, r: RIBRecord)
    requires var end := 5 + |r.prefix|;
             && end + 2 <= |data| && U32(data, 0) == r.seqNo && data[4] == r.prefixLen
             && OctetsRead(r.prefixLen) == |r.prefix| && data[5..end] == r.prefix
             && var taken := Take(EntryHead(AddPathSubtype(subtype)), data[end + 2..], U16(data, end));
                taken.Some? && taken.value == r.entries
    ensures DecodeRIB(subtype, data) == Some(r)
  {}

  /** WriteRIBHeader and WriteRIBEntries, then DecodeRIBRecord, give the record back
      exactly when it fits: a prefix of at most 248 bits in its own octets, at most
      65535 entries, attributes that fit their length, and Path Identifiers only
      where the subtype carries them. */
  lemma RIBRoundTrip(subtype: uint16, r: RIBRecord, trailing: seq<byte>)
    requires OctetsWritten(r.prefixLen) <= |r.prefix|
    ensures DecodeRIB(subtype, PackRIB(r, AddPathSubtype(subtype)) + trailing) == Some(r)
            <==> RIBFits(r, AddPathSubtype(subtype))
  {
    var data := PackRIB(r, AddPathSubtype(subtype)) + trailing;
    if RIBFits(r, AddPathSubtype(subtype)) {
      PackedRIBDecodes(subtype, r, trailing);
    } else if DecodeRIB(subtype, data) == Some(r) {
      OctetsAgree(r.prefixLen);
      DecodedRIBFits(subtype, data);
    }
  }

  // ---------- BGP4MP ----------

  predicate HeaderFits(h: BGP4MPHeader, as4: bool) {
    && AddressSize(h.afi) != 0 && |h.peerIP| == |h.localIP| == AddressSize(h.afi)
    && (as4 || (h.peerAS < 0x1_0000 && h.localAS < 0x1_0000))
  }

  /** decodeBGP4MPHeader, field by field. */
  lemma DecodeBGP4MPFrom(subtype: uint16, data: seq<byte>, h: BGP4MPHeader)
    requires var as4 := AS4Subtype(subtype); var n, size := if as4 then 4 else 2, AddressSize(h.afi); var at := 2 * n + 4;
             && size != 0 && at + 2 * size <= |data|
             && ReadAS(data, 0, as4) == h.peerAS && ReadAS(data, n, as4) == h.localAS
             && U16(data, 2 * n) == h.ifIndex && U16(data, 2 * n + 2) == h.afi
             && data[at..at + size] == h.peerIP && data[at + size..at + 2 * size] == h.localIP
    ensures DecodeBGP4MP(subtype, data) == Some((h, (if AS4Subtype(subtype) then 12 else 8) + 2 * AddressSize(h.afi)))
  {}

  lemma NumbersRead(h: BGP4MPHeader, as4: bool, rest: seq<byte>)
    requires as4 || (h.peerAS < 0x1_0000 && h.localAS < 0x1_0000)
    ensures var data, n := PackNumbers(h, as4) + rest, if as4 then 4 else 2;
            && ReadAS(data, 0, as4) == h.peerAS && ReadAS(data, n, as4) == h.localAS
            && U16(data, 2 * n) == h.ifIndex && U16(data, 2 * n + 2) == h.afi
            && data[2 * n + 4..] == rest
  {
    var data, n := PackNumbers(h, as4) + rest, if as4 then 4 else 2;
    Fields(ASField(h.peerAS, as4), ASField(h.localAS, as4), Put16(h.ifIndex), Put16(h.afi), rest);
    ASReads(data, 0, h.peerAS, as4);
    ASReads(data, n, h.localAS, as4);
    U16Reads(data, 2 * n, h.ifIndex);
    U16Reads(data, 2 * n + 2, h.afi);
  }

  lemma ThreeParts<T>(head: seq<T>, a: seq<T>, b: seq<T>, rest: seq<T>)
    ensures var s := head + (a + b + rest);
            && head + a + b + rest == s
            && s[|head|..|head| + |a|] == a && s[|head| + |a|..|head| + |a| + |b|] == b
            && s[|head| + |a| + |b|..] == rest
  {}

  lemma PackedHeaderDecodes(subtype: uint16, h: BGP4MPHeader, payload: seq<byte>)
    requires HeaderFits(h, AS4Subtype(subtype))
    ensures var packed := PackBGP4MP(h, AS4Subtype(subtype));
            DecodeBGP4MP(subtype, packed + payload) == Some((h, |packed|)) && (packed + payload)[|packed|..] == payload
  {
    var as4 := AS4Subtype(subtype);
    NumbersRead(h, as4, h.peerIP + h.localIP + payload);
    ThreeParts(PackNumbers(h, as4), h.peerIP, h.localIP, payload);
    DecodeBGP4MPFrom(subtype, PackBGP4MP(h, as4) + payload, h);
  }

  /** writeBGP4MPCommon then decodeBGP4MPHeader: the header back, and the payload
      just behind it, exactly when addresses and AS numbers fit. */
  lemma BGP4MPRoundTrip(subtype: uint16, h: BGP4MPHeader, payload: seq<byte>)
    ensures var packed := PackBGP4MP(h, AS4Subtype(subtype));
            var r := DecodeBGP4MP(subtype, packed + payload);
            && (r.Some? && r.value.0 == h <==> HeaderFits(h, AS4Subtype(subtype)))
            && (r.Some? && r.value.0 == h ==> (packed + payload)[r.value.1..] == payload)
  {
    if HeaderFits(h, AS4Subtype(subtype)) { PackedHeaderDecodes(subtype, h, payload); }
  }

  lemma StatesRead(data: seq<byte>, at: nat, a: uint16, b: uint16, trailing: seq<byte>)
    requires at <= |data| && data[at..] == Put16(a) + Put16(b) + trailing
    ensures at + 4 <= |data| && U16(data, at) == a && U16(data, at + 2) == b
  {
    Fields(Put16(a), Put16(b), [], [], trailing);
    assert data[at..] == Put16(a) + Put16(b) + [] + [] + trailing;
    SliceOfTail(data, at, 0, 2);
    SliceOfTail(data, at, 2, 4);
    U16Reads(data, at, a);
    U16Reads(data, at + 2, b);
  }

  /** WriteBGP4MPStateChange then DecodeBGP4MPStateChange, with anything behind it:
      the record back exactly when its header fits. */
  lemma StateChangeRoundTrip(subtype: uint16, c: StateChange, trailing: seq<byte>)
    ensures DecodeStateChange(subtype, PackStateChange(c, AS4Subtype(subtype)) + trailing) == Some(c)
            <==> HeaderFits(c.header, AS4Subtype(subtype))
  {
    var packed, states := PackBGP4MP(c.header, AS4Subtype(subtype)), Put16(c.oldState) + Put16(c.newState);
    Assoc(packed, states, trailing);
    BGP4MPRoundTrip(subtype, c.header, states + trailing);
    if HeaderFits(c.header, AS4Subtype(subtype)) {
      PackedHeaderDecodes(subtype, c.header, states + trailing);
      StatesRead(packed + (states + trailing), |packed|, c.oldState, c.newState, trailing);
    }
  }
}
