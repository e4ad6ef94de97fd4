/** MRT records: what their decoders accept and what their writers write
    (sections 4.3.1, 4.3.2, 4.3.4 and 4.4 of RFC 6396, section 4.1 of RFC 8050). */
module Mrt {
  import opened Collections
  import opened Wire
  import opened Walker

  // ---------- peer index tables ----------

  datatype PeerEntry = PeerEntry(typ: byte, bgpID: seq<byte>, ip: seq<byte>, asn: uint32)

  /** Bit 0x01 of the peer type. */
  predicate IsIPv6(typ: byte) {
    typ % 2 == 1
  }

  /** Bit 0x02 of the peer type. */
  predicate IsAS4(typ: byte) {
    typ / 2 % 2 == 1
  }

  function IPSize(typ: byte): nat {
    if IsIPv6(typ) then 16 else 4
  }

  function ASSize(typ: byte): nat {
    if IsAS4(typ) then 4 else 2
  }

  function ReadAS(data: seq<byte>, off: nat, as4: bool): uint32
    requires off + (if as4 then 4 else 2) <= |data|
  {
    if as4 then U32(data, off) else U16(data, off)
  }

  /** One turn of the loop of DecodePeerIndexTable. */
  function FirstPeer(data: seq<byte>): Option<(PeerEntry, nat)> {
    if data == [] then None
    else
      var ip := 5 + IPSize(data[0]);
      var end := ip + ASSize(data[0]);
      if end > |data| then None
      else Some((PeerEntry(data[0], data[1..5], data[5..ip], ReadAS(data, ip, IsAS4(data[0]))), end))
  }

  datatype PeerTable = PeerTable(collector: seq<byte>, view: seq<byte>, peers: seq<PeerEntry>)

  /** DecodePeerIndexTable.  utf8.Valid is the parameter `utf8`. */
  function DecodePeers(utf8: seq<byte> -> bool, data: seq<byte>): Option<PeerTable> {
    if |data| < 8 then None
    else
      var end := 6 + U16(data, 4);
      if end > |data| || !utf8(data[6..end]) || end + 2 > |data| then None
      else
        match Take(FirstPeer, data[end + 2..], U16(data, end))
        case None => None
        case Some(peers) => Some(PeerTable(data[..4], data[6..end], peers))
  }

  method DecodePeerIndexTable(utf8: seq<byte> -> bool, data: seq<byte>) returns (r: Option<PeerTable>)
    ensures r == DecodePeers(utf8, data)
  {
    if |data| < 8 { return None; }
    var off := 6;
    var viewNameLen := U16(data, 4);
    if off + viewNameLen > |data| { return None; }
    var view := data[off..off + viewNameLen];
    if !utf8(view) { return None; }
    off := off + viewNameLen;
    if off + 2 > |data| { return None; }
    var peers := TakeAll(FirstPeer, data[off + 2..], U16(data, off));
    if peers.None? { return None; }
    r := Some(PeerTable(data[..4], view, peers.value));
  }

  /** copyIPField: exactly n octets, cut or padded with zeros. */
  function IPField(ip: seq<byte>, n: nat): (r: seq<byte>)
    ensures |r| == n && (|ip| == n ==> r == ip)
  {
    if |ip| >= n then ip[..n] else ip + Zeros(n - |ip|)
  }

  function ASField(asn: uint32, as4: bool): seq<byte> {
    if as4 then Put32(asn) else Put16(Low16(asn))
  }

  /** WritePeerEntry. */
  function PackPeer(p: PeerEntry): (r: seq<byte>)
    ensures |r| == 5 + IPSize(p.typ) + ASSize(p.typ)
  {
    [p.typ] + IPField(p.bgpID, 4) + IPField(p.ip, IPSize(p.typ)) + ASField(p.asn, IsAS4(p.typ))
  }

  function PackTableHead(t: PeerTable): (r: seq<byte>)
    ensures |r| == 8 + |t.view|
  {
    IPField(t.collector, 4) + Put16(Low16(|t.view|)) + t.view + Put16(Low16(|t.peers|))
  }

  /** WritePeerIndexTable, past its checks. */
  function PackPeers(t: PeerTable): seq<byte> {
    PackTableHead(t) + Flat(PackPeer, t.peers)
  }

  // ---------- RIB records ----------

  datatype RIBEntry = RIBEntry(peerIndex: uint16, origTime: uint32, pathID: uint32, attributes: seq<byte>)

  /** One turn of the loop of decodeRIBEntries. */
  function FirstEntry(data: seq<byte>, addPath: bool): Option<(RIBEntry, nat)> {
    var at := if addPath then 10 else 6;
    if at + 2 > |data| then None
    else
      var end := at + 2 + U16(data, at);
      if end > |data| then None
      else Some((RIBEntry(U16(data, 0), U32(data, 2), if addPath then U32(data, 6) else 0, data[at + 2..end]), end))
  }

  function EntryHead(addPath: bool): Head<RIBEntry> {
    (data: seq<byte>) => FirstEntry(data, addPath)
  }

  datatype RIBRecord = RIBRecord(seqNo: uint32, prefixLen: byte, prefix: seq<byte>, entries: seq<RIBEntry>)

  predicate AddPathSubtype(subtype: uint16) {
    8 <= subtype <= 11
  }

  /** The decoder adds 7 to the length in eight bits, so 249 and more wrap around. */
  function OctetsRead(prefixLen: byte): nat {
    ((prefixLen as int + 7) % 256) / 8
  }

  /** The writer adds 7 in an int. */
  function OctetsWritten(prefixLen: byte): nat {
    (prefixLen as int + 7) / 8
  }

  /** DecodeRIBRecord. */
  function DecodeRIB(subtype: uint16, data: seq<byte>): Option<RIBRecord> {
    if |data| < 5 then None
    else
      var end := 5 + OctetsRead(data[4]);
      if end + 2 > |data| then None
      else
        match Take(EntryHead(AddPathSubtype(subtype)), data[end + 2..], U16(data, end))
        case None => None
        case Some(entries) => Some(RIBRecord(U32(data, 0), data[4], data[5..end], entries))
  }

  method DecodeRIBRecord(subtype: uint16, data: seq<byte>) returns (r: Option<RIBRecord>)
    ensures r == DecodeRIB(subtype, data)
  {
    if |data| < 5 { return None; }
    var prefixBytes := OctetsRead(data[4]);
    var off := 5;
    if off + prefixBytes > |data| { return None; }
    var prefix := data[off..off + prefixBytes];
    off := off + prefixBytes;
    if off + 2 > |data| { return None; }
    var entries := TakeAll(EntryHead(AddPathSubtype(subtype)), data[off + 2..], U16(data, off));
    if entries.None? { return None; }
    r := Some(RIBRecord(U32(data, 0), data[4], prefix, entries.value));
  }

  /** WriteRIBEntry and WriteRIBEntryAddPath. */
  function PackEntry(e: RIBEntry, addPath: bool): (r: seq<byte>)
    ensures |r| == (if addPath then 12 else 8) + |e.attributes|
  {
    Put16(e.peerIndex) + Put32(e.origTime) + (if addPath then Put32(e.pathID) else []) +
    Put16(Low16(|e.attributes|)) + e.attributes
  }

  function EntryPacker(addPath: bool): RIBEntry -> seq<byte> {
    (e: RIBEntry) => PackEntry(e, addPath)
  }

  /** WriteRIBHeader, and the entry count of WriteRIBEntries. */
  function PackRIBHead(r: RIBRecord): (h: seq<byte>)
    requires OctetsWritten(r.prefixLen) <= |r.prefix|
    ensures |h| == 7 + OctetsWritten(r.prefixLen)
  {
    Put32(r.seqNo) + [r.prefixLen] + r.prefix[..OctetsWritten(r.prefixLen)] + Put16(Low16(|r.entries|))
  }

  /** WriteRIBHeader followed by WriteRIBEntries. */
  function PackRIB(r: RIBRecord, addPath: bool): seq<byte>
    requires OctetsWritten(r.prefixLen) <= |r.prefix|
  {
    PackRIBHead(r) + Flat(EntryPacker(addPath), r.entries)
  }

  // ---------- BGP4MP ----------

  datatype BGP4MPHeader = BGP4MPHeader(peerAS: uint32, localAS: uint32, ifIndex: uint16, afi: uint16, peerIP: seq<byte>, localIP: seq<byte>)

  /** decodeBGP4MPHeader: the header and where the payload begins. */
  function DecodeBGP4MP(subtype: uint16, data: seq<byte>): (r: Option<(BGP4MPHeader, nat)>)
    ensures r.Some? ==> r.value.1 <= |data|
  {
    var as4 := AS4Subtype(subtype);
    var n := if as4 then 4 else 2;
    if 2 * n + 4 > |data| then None
    else
      var afi := U16(data, 2 * n + 2);
      var size, at := AddressSize(afi), 2 * n + 4;
      if size == 0 || at + 2 * size > |data| then None
      else
        Some((BGP4MPHeader(ReadAS(data, 0, as4), ReadAS(data, n, as4), U16(data, 2 * n), afi,
                           data[at..at + size], data[at + size..at + 2 * size]),
              at + 2 * size))
  }

  datatype StateChange = StateChange(header: BGP4MPHeader, oldState: uint16, newState: uint16)

  /** DecodeBGP4MPStateChange. */
  function DecodeStateChange(subtype: uint16, data: seq<byte>): Option<StateChange> {
    match DecodeBGP4MP(subtype, data)
    case None => None
    case Some((h, at)) =>
      if at + 4 > |data| then None else Some(StateChange(h, U16(data, at), U16(data, at + 2)))
  }

  /** WriteBGP4MPStateChange. */
  function PackStateChange(c: StateChange, as4: bool): seq<byte> {
    PackBGP4MP(c.header, as4) + (Put16(c.oldState) + Put16(c.newState))
  }

  /** writeBGP4MPCommon. */
  function PackBGP4MP(h: BGP4MPHeader, as4: bool): seq<byte> {
    var size := if h.afi == 2 then 16 else 4;
    PackNumbers(h, as4) + IPField(h.peerIP, size) + IPField(h.localIP, size)
  }

  function PackNumbers(h: BGP4MPHeader, as4: bool): (r: seq<byte>)
    ensures |r| == if as4 then 12 else 8
  {
    ASField(h.peerAS, as4) + ASField(h.localAS, as4) + Put16(h.ifIndex) + Put16(h.afi)
  }
}
