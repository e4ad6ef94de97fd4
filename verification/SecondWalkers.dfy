/** The offline tools read some records with walkers of their own.  Wherever the
    strict decoders accept a record, these find the same things in it; and an
    UPDATE the tools build from a RIB entry decodes to that entry again. */
module SecondWalkers {
  import opened Collections
  import opened Wire
  import opened Walker
  import opened Bgp
  import opened Update
  import opened UpdateRoundTrips
  import opened Mrt
  import opened MrtWriters

  // ---------- extractBGP4MPUpdate ----------

  predicate MessageSubtype(subtype: uint16) {
    subtype in {1, 4, 6, 7, 8, 9, 10, 11}
  }

  /** extractBGP4MPUpdate: the UPDATE body and the peer's AS number. */
  function ExtractUpdate(subtype: uint16, data: seq<byte>): Option<(seq<byte>, uint32)> {
    if !MessageSubtype(subtype) then None
    else
      var as4 := subtype in {4, 7, 9, 11};
      var n := if as4 then 4 else 2;
      if |data| < 2 * n + 4 then None
      else
        var size := if U16(data, 2 * n + 2) == 2 then 16 else 4;
        var at := 2 * n + 4 + 2 * size;
        if at + 19 > |data| || data[at + 18] != 2 then None
        else
          var length := U16(data, at + 16);
          if length < 23 || at + length > |data| then None
          else Some((data[at + 19..at + length], ReadAS(data, 0, as4)))
  }

  /** extractUpdateAttrs. */
  function ExtractAttrs(body: seq<byte>): Option<seq<byte>> {
    if UpdateSections(body).Some? then Some(UpdateSections(body).value.attrs) else None
  }

  /** Both count the header alike. */
  lemma SameHeader(subtype: uint16, data: seq<byte>)
    requires MessageSubtype(subtype) && DecodeBGP4MP(subtype, data).Some?
    ensures var (h, at) := DecodeBGP4MP(subtype, data).value;
            var n := if subtype in {4, 7, 9, 11} then 4 else 2;
            && |data| >= 2 * n + 4
            && at == 2 * n + 4 + 2 * (if U16(data, 2 * n + 2) == 2 then 16 else 4)
            && h.peerAS == ReadAS(data, 0, subtype in {4, 7, 9, 11})
  {}

  lemma SameMessage(opens: seq<byte> -> bool, wire: seq<byte>, c: Context)
    requires ParseMessage(opens, wire, c).Has?
    ensures |wire| >= 23 && U16(wire, 16) == |wire| && wire[18] == 2
    ensures ExtractAttrs(wire[19..]).Some?
    ensures Attributes(ExtractAttrs(wire[19..]).value).items == ParseMessage(opens, wire, c).update.attrs
  {}

  lemma ExtractAt(subtype: uint16, data: seq<byte>, at: nat)
    requires MessageSubtype(subtype)
    requires var n := if subtype in {4, 7, 9, 11} then 4 else 2;
             |data| >= 2 * n + 4 && at == 2 * n + 4 + 2 * (if U16(data, 2 * n + 2) == 2 then 16 else 4)
    requires at + 23 <= |data| && U16(data, at + 16) == |data| - at && data[at + 18] == 2
    ensures ExtractUpdate(subtype, data) == Some((data[at + 19..], ReadAS(data, 0, subtype in {4, 7, 9, 11})))
  {
    assert data[at + 19..|data|] == data[at + 19..];
  }

  /** Whenever the strict decoders yield an UPDATE, the walker finds the same body,
      peer AS and attribute section. */
  lemma ExtractRefines(opens: seq<byte> -> bool, subtype: uint16, data: seq<byte>, c: Context)
    requires MessageSubtype(subtype) && DecodeBGP4MP(subtype, data).Some?
    requires ParseMessage(opens, data[DecodeBGP4MP(subtype, data).value.1..], c).Has?
    ensures var (h, at) := DecodeBGP4MP(subtype, data).value; var wire := data[at..];
            && ExtractUpdate(subtype, data) == Some((wire[19..], h.peerAS))
            && ExtractAttrs(wire[19..]).Some?
            && Attributes(ExtractAttrs(wire[19..]).value).items == ParseMessage(opens, wire, c).update.attrs
  {
    var at := DecodeBGP4MP(subtype, data).value.1;
    SameHeader(subtype, data);
    SameMessage(opens, data[at..], c);
    ExtractAt(subtype, data, at);
    TailOfTail(data, at, 19);
  }

  // ---------- parsePeerIndexTable ----------

  /** mrtPeerInfo, apart from its index. */
  datatype PeerInfo = PeerInfo(ip: seq<byte>, bgpID: seq<byte>, asn: uint32, isIPv6: bool, isAS4: bool)

  /** One turn of the loop of parsePeerIndexTable, which tests for room field by field. */
  function NextPeer(data: seq<byte>): Option<(PeerInfo, nat)> {
    if 1 > |data| then None
    else
      var isIPv6, isAS4 := data[0] % 2 != 0, data[0] / 2 % 2 != 0;
      if 1 + 4 > |data| then None
      else
        var ipLen := if isIPv6 then 16 else 4;
        if 5 + ipLen > |data| then None
        else
          var at := 5 + ipLen;
          if isAS4 then
            if at + 4 > |data| then None
            else Some((PeerInfo(data[5..at], data[1..5], U32(data, at), isIPv6, isAS4), at + 4))
          else
            if at + 2 > |data| then None
            else Some((PeerInfo(data[5..at], data[1..5], U16(data, at), isIPv6, isAS4), at + 2))
  }

  /** The entries parsePeerIndexTable gets to. */
  function PeersReached(data: seq<byte>): seq<PeerInfo> {
    if |data| < 6 || 6 + U16(data, 4) + 2 > |data| then []
    else
      var end := 6 + U16(data, 4);
      TakeSome(NextPeer, data[end + 2..], U16(data, end))
  }

  function ByIndex(peers: seq<PeerInfo>): map<nat, PeerInfo> {
    map i: nat | i < |peers| :: peers[i]
  }

  lemma IndexOneMore(peers: seq<PeerInfo>, p: PeerInfo)
    ensures ByIndex(peers)[|peers| := p] == ByIndex(peers + [p])
  {}

  /** parsePeerIndexTable: breaks off at the first entry that is cut short. */
  method ParsePeerIndexTable(data: seq<byte>) returns (peers: map<nat, PeerInfo>)
    ensures peers == ByIndex(PeersReached(data))
  {
    peers := map[];
    if |data| < 6 { return; }
    var offset := 6 + U16(data, 4);
    if offset + 2 > |data| { return; }
    var reached := TakeUntil(NextPeer, data[offset + 2..], U16(data, offset));
    for i := 0 to |reached|
      invariant peers == ByIndex(reached[..i])
    {
      IndexOneMore(reached[..i], reached[i]);
      assert reached[..i] + [reached[i]] == reached[..i + 1];
      peers := peers[i := reached[i]];
    }
    assert reached[..|reached|] == reached;
  }

  function InfoOf(p: PeerEntry): PeerInfo {
    PeerInfo(p.ip, p.bgpID, p.asn, IsIPv6(p.typ), IsAS4(p.typ))
  }

  /** Field by field or all at once, the same octets are enough and say the same. */
  lemma SamePeer(data: seq<byte>)
    ensures FirstPeer(data).Some? <==> NextPeer(data).Some?
    ensures FirstPeer(data).Some? ==> NextPeer(data).value == (InfoOf(FirstPeer(data).value.0), FirstPeer(data).value.1)
  {}

  lemma {:induction false} SamePeers(data: seq<byte>, count: nat)
    requires Take(FirstPeer, data, count).Some?
    ensures var strict, lenient := Take(FirstPeer, data, count).value, TakeSome(NextPeer, data, count);
            |lenient| == |strict| && forall i :: 0 <= i < |strict| ==> lenient[i] == InfoOf(strict[i])
    decreases count
  {
    SamePeer(data);
    if count > 0 { SamePeers(data[FirstPeer(data).value.1..], count - 1); }
  }

  /** Whenever DecodePeerIndexTable succeeds, the walker holds exactly its peers, by index. */
  lemma PeersRefine(utf8: seq<byte> -> bool, data: seq<byte>)
    requires DecodePeers(utf8, data).Some?
    ensures var peers, held := DecodePeers(utf8, data).value.peers, ByIndex(PeersReached(data));
            && (forall i: nat :: i in held <==> i < |peers|)
            && (forall i: nat :: i < |peers| ==> held[i] == InfoOf(peers[i]))
  {
    var end := 6 + U16(data, 4);
    SamePeers(data[end + 2..], U16(data, end));
  }

  // ---------- buildUpdateFromRIB ----------

  /** buildUpdateBody. */
  function BuildBody(prefixLen: byte, prefix: seq<byte>, e: RIBEntry, trailingNLRI: bool): seq<byte> {
    Put16(0) + Put16(Low16(|e.attributes|)) + e.attributes + if trailingNLRI then [prefixLen] + prefix else []
  }

  /** buildUpdateFromRIB. */
  function BuildMessage(prefixLen: byte, prefix: seq<byte>, e: RIBEntry, trailingNLRI: bool): seq<byte> {
    var body := BuildBody(prefixLen, prefix, e, trailingNLRI);
    Marker() + Put16(Low16(19 + |body|)) + [2] + body
  }

  lemma SplicedWhole(s: seq<byte>, data: seq<byte>)
    requires |s| == |data|
    ensures Spliced(s, 0, data) == data
  {}

  /** Four copies, one behind the other, that fill a buffer. */
  method Fill(buf: array<byte>, a: seq<byte>, b: seq<byte>, c: seq<byte>, d: seq<byte>)
    requires buf.Length == |a| + |b| + |c| + |d|
    modifies buf
    ensures buf[..] == a + b + c + d
  {
    CopyFour(buf, 0, a, b, c, d);
    SplicedWhole(old(buf[..]), a + b + c + d);
  }

  method BuildUpdateBody(prefixLen: byte, prefix: seq<byte>, e: RIBEntry, trailingNLRI: bool) returns (body: array<byte>)
    ensures fresh(body) && body[..] == BuildBody(prefixLen, prefix, e, trailingNLRI)
  {
    var attrLen := |e.attributes|;
    var nlri := if trailingNLRI then [prefixLen] + prefix else [];
    body := new byte[2 + 2 + attrLen + |nlri|](_ => 0);
    Fill(body, Put16(0), Put16(Low16(attrLen)), e.attributes, nlri);
  }

  /** buildUpdateFromRIB, into a new buffer: the marker, the header, the body. */
  method BuildUpdateFromRIB(prefixLen: byte, prefix: seq<byte>, e: RIBEntry, trailingNLRI: bool) returns (msg: array<byte>)
    ensures fresh(msg) && msg[..] == BuildMessage(prefixLen, prefix, e, trailingNLRI)
  {
    var body := BuildUpdateBody(prefixLen, prefix, e, trailingNLRI);
    var totalLen := 19 + body.Length;
    msg := new byte[totalLen](_ => 0);
    Fill(msg, Marker(), Put16(Low16(totalLen)), [2], body[..]);
  }

  lemma BodySections(prefixLen: byte, prefix: seq<byte>, e: RIBEntry)
    requires |e.attributes| < 0x1_0000
    ensures UpdateSections(BuildBody(prefixLen, prefix, e, true)) == Some(Sections([], e.attributes, [prefixLen] + prefix))
  {
    PackedSectionsSplit(Sections([], e.attributes, [prefixLen] + prefix));
    NoGap(Put16(0), Put16(|e.attributes|));
  }

  lemma OnePrefix(prefixLen: byte, prefix: seq<byte>)
    requires prefixLen <= 32 && |prefix| == OctetsWritten(prefixLen)
    ensures PrefixSection([prefixLen] + prefix, 1, false, true) == Section([Prefix(Padded(prefix, 4), prefixLen)], [], true)
  {
    var data, head := [prefixLen] + prefix, PrefixHead(4, false);
    assert data[1..1 + Octets(prefixLen)] == prefix && data[|data|..] == [];
    var n := Nlri(0, Prefix(Padded(prefix, 4), prefixLen));
    assert head(data) == Some((n, |data|));
    assert Walk(head, data[|data|..]) == Walked([], true);
    assert Walk(head, data).items == [n] && Walk(head, data).clean;
    assert PrefixesOf([n]) == [n.prefix];
  }

  lemma BuiltBodyParses(prefixLen: byte, prefix: seq<byte>, e: RIBEntry)
    requires prefixLen <= 32 && |prefix| == OctetsWritten(prefixLen)
    requires |e.attributes| < 0x1_0000 && Attributes(e.attributes).clean
    ensures ParseUpdate(BuildBody(prefixLen, prefix, e, true), FromSubtype(false)) ==
            Some(Update(EMPTY, Attributes(e.attributes).items, Section([Prefix(Padded(prefix, 4), prefixLen)], [], true)))
  {
    BodySections(prefixLen, prefix, e);
    OnePrefix(prefixLen, prefix);
  }

  /** The UPDATE built from an IPv4 unicast RIB entry with clean attributes parses, to
      no withdrawals, that entry's attributes and that one prefix, exactly when it
      fits the length field of a message. */
  lemma BuiltUpdateParses(opens: seq<byte> -> bool, prefixLen: byte, prefix: seq<byte>, e: RIBEntry)
    requires prefixLen <= 32 && |prefix| == OctetsWritten(prefixLen)
    requires |e.attributes| < 0x1_0000 && Attributes(e.attributes).clean
    ensures var msg := BuildMessage(prefixLen, prefix, e, true);
            ParseMessage(opens, msg, FromSubtype(false)) ==
            if |msg| <= 0xffff then
              Has(Update(EMPTY, Attributes(e.attributes).items, Section([Prefix(Padded(prefix, 4), prefixLen)], [], true)))
            else Refused
  {
    BuiltBodyParses(prefixLen, prefix, e);
    PackedMessageParses(opens, BuildBody(prefixLen, prefix, e, true), FromSubtype(false));
  }
}
