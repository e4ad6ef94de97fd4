/** The records octet by octet, as sections 4.3 and 4.4 of RFC 6396, section 4 of RFC 8050,
    section 4.3 of RFC 4271, sections 3 and 4 of RFC 4760 and section 3 of RFC 7911 lay them
    out: every sequence of fields decodes to their values. */
module Formats {
  import opened Collections
  import opened Wire
  import opened Walker
  import opened Mrt
  import opened Bgp
  import opened Update

  /** A field of two or four octets reads as its value. */
  lemma Reads16(data: seq<byte>, off: nat, field: seq<byte>)
    requires off + 2 <= |data| && data[off..off + 2] == field
    ensures U16(data, off) == Value(field)
  {
    U16IsValue(data, off);
  }

  lemma Reads32(data: seq<byte>, off: nat, field: seq<byte>)
    requires off + 4 <= |data| && data[off..off + 4] == field
    ensures U32(data, off) == Value(field)
  {
    U32IsValue(data, off);
  }

  // ---------- BGP4MP ----------

  /** Octets in an AS number: four in the subtypes MESSAGE_AS4, STATE_CHANGE_AS4, MESSAGE_AS4_LOCAL and the ADD-PATH
      forms of the first and the last, two in all others. */
  function ASOctets(subtype: uint16): nat {
    if subtype in {4, 5, 7, 9, 11} then 4 else 2
  }

  lemma BGP4MPFormat(
    subtype: uint16, peerAS: seq<byte>, localAS: seq<byte>, ifIndex: seq<byte>, afi: seq<byte>,
    peerIP: seq<byte>, localIP: seq<byte>, rest: seq<byte>)
    requires |peerAS| == |localAS| == ASOctets(subtype) && |ifIndex| == |afi| == 2
    requires (Value(afi) == 1 && |peerIP| == |localIP| == 4) || (Value(afi) == 2 && |peerIP| == |localIP| == 16)
    ensures var data := peerAS + localAS + ifIndex + afi + (peerIP + localIP + rest);
            var r := DecodeBGP4MP(subtype, data);
            && r.Some? && r.value.1 == |data| - |rest|
            && var h := r.value.0;
            && h.peerAS == Value(peerAS) && h.localAS == Value(localAS) && h.ifIndex == Value(ifIndex) && h.afi == Value(afi)
            && h.peerIP == peerIP && h.localIP == localIP
  {
    var n := ASOctets(subtype);
    var tail := peerIP + localIP + rest;
    var data := peerAS + localAS + ifIndex + afi + tail;
    Fields(peerAS, localAS, ifIndex, afi, tail);
    ReadsAS(data, 0, peerAS, n == 4);
    ReadsAS(data, n, localAS, n == 4);
    Reads16(data, 2 * n, ifIndex);
    Reads16(data, 2 * n + 2, afi);
    TwoParts(data, 2 * n + 4, peerIP, localIP, rest);
  }

  lemma ReadsAS(data: seq<byte>, off: nat, field: seq<byte>, as4: bool)
    requires |field| == (if as4 then 4 else 2) && off + |field| <= |data| && data[off..off + |field|] == field
    ensures ReadAS(data, off, as4) == Value(field)
  {
    if as4 { Reads32(data, off, field); } else { Reads16(data, off, field); }
  }

  lemma TwoParts<T>(data: seq<T>, at: nat, a: seq<T>, b: seq<T>, rest: seq<T>)
    requires at <= |data| && data[at..] == a + b + rest
    ensures |data| == at + |a| + |b| + |rest|
    ensures data[at..at + |a|] == a && data[at + |a|..at + |a| + |b|] == b && data[at + |a| + |b|..] == rest
  {
    var tail := data[at..];
    assert tail[..|a|] == a && tail[|a|..|a| + |b|] == b && tail[|a| + |b|..] == rest;
    SliceOfTail(data, at, 0, |a|);
    SliceOfTail(data, at, |a|, |a| + |b|);
    TailOfTail(data, at, |a| + |b|);
  }

  /** A state change is such a header and two states. */
  lemma StateChangeFormat(subtype: uint16, head: seq<byte>, oldState: seq<byte>, newState: seq<byte>, rest: seq<byte>)
    requires |oldState| == |newState| == 2
    requires var r := DecodeBGP4MP(subtype, head + (oldState + newState + rest)); r.Some? && r.value.1 == |head|
    ensures var data := head + (oldState + newState + rest);
            var c := DecodeStateChange(subtype, data);
            c.Some? && c.value.header == DecodeBGP4MP(subtype, data).value.0
            && c.value.oldState == Value(oldState) && c.value.newState == Value(newState)
  {
    var data := head + (oldState + newState + rest);
    TwoParts(data, |head|, oldState, newState, rest);
    Reads16(data, |head|, oldState);
    Reads16(data, |head| + 2, newState);
  }

  // ---------- TABLE_DUMP_V2 ----------

  /** A peer entry: its type, BGP identifier, address and AS number.  Bit 0 of the type says
      that the address is IPv6, bit 1 that the AS number has four octets. */
  lemma PeerFormat(typ: byte, id: seq<byte>, ip: seq<byte>, asn: seq<byte>, rest: seq<byte>)
    requires |id| == 4 && |ip| == (if typ % 2 == 1 then 16 else 4) && |asn| == (if typ % 4 >= 2 then 4 else 2)
    ensures var data := [typ] + id + ip + asn + rest;
            var r := FirstPeer(data);
            && r.Some? && r.value.1 == |data| - |rest|
            && r.value.0.typ == typ && r.value.0.bgpID == id && r.value.0.ip == ip && r.value.0.asn == Value(asn)
  {
    var data := [typ] + id + ip + asn + rest;
    Fields([typ], id, ip, asn, rest);
    assert data[0] == typ;
    assert typ % 4 >= 2 <==> typ / 2 % 2 == 1;
    ReadsAS(data, 5 + |ip|, asn, |asn| == 4);
  }

  /** A peer index table: the collector, the length of the view name and the name, how many
      peers there are, and the peers. */
  lemma TableFormat(
    utf8: seq<byte> -> bool, collector: seq<byte>, length: seq<byte>, view: seq<byte>, count: seq<byte>, body: seq<byte>)
    requires |collector| == 4 && |length| == |count| == 2 && Value(length) == |view| && utf8(view)
    ensures DecodePeers(utf8, collector + length + view + count + body) ==
            match Take(FirstPeer, body, Value(count))
            case None => None
            case Some(peers) => Some(PeerTable(collector, view, peers))
  {
    var data := collector + length + view + count + body;
    Fields(collector, length, view, count, body);
    Reads16(data, 4, length);
    Reads16(data, 6 + |view|, count);
  }

  /** A RIB entry: peer index, time, the Path Identifier where there is one, and the attributes after their length. */
  lemma EntryFormat(peer: seq<byte>, time: seq<byte>, id: seq<byte>, length: seq<byte>, attributes: seq<byte>, rest: seq<byte>)
    requires |peer| == |length| == 2 && |time| == 4 && (|id| == 0 || |id| == 4) && Value(length) == |attributes|
    ensures var data := peer + time + id + length + (attributes + rest);
            var r := FirstEntry(data, |id| == 4);
            && r.Some? && r.value.1 == |data| - |rest|
            && r.value.0.peerIndex == Value(peer) && r.value.0.origTime == Value(time)
            && r.value.0.pathID == Value(id) && r.value.0.attributes == attributes
  {
    var data := peer + time + id + length + (attributes + rest);
    Fields(peer, time, id, length, attributes + rest);
    var at := 6 + |id|;
    Reads16(data, 0, peer);
    Reads32(data, 2, time);
    if |id| == 4 { Reads32(data, 6, id); }
    Reads16(data, at, length);
    assert data[at + 2..] == attributes + [] + rest;
    TwoParts(data, at + 2, attributes, [], rest);
  }

  /** A RIB record: sequence number, prefix length, as many octets as its bits need, how many entries
      there are, and the entries, which carry Path Identifiers in the subtypes 8 to 11. */
  lemma RIBFormat(subtype: uint16, number: seq<byte>, bits: byte, prefix: seq<byte>, count: seq<byte>, body: seq<byte>)
    requires |number| == 4 && |count| == 2 && bits <= 248 && 8 * |prefix| - 7 <= bits <= 8 * |prefix|
    ensures var entries := Take(EntryHead(subtype in {8, 9, 10, 11}), body, Value(count));
            var r := DecodeRIB(subtype, number + [bits] + prefix + count + body);
            && (r.Some? <==> entries.Some?)
            && (r.Some? ==> r.value.seqNo == Value(number) && r.value.prefixLen == bits
                            && r.value.prefix == prefix && r.value.entries == entries.value)
  {
    var data := number + [bits] + prefix + count + body;
    Fields(number, [bits], prefix, count, body);
    OneOctet(data, 4, bits);
    Reads32(data, 0, number);
    Reads16(data, 5 + |prefix|, count);
    assert OctetsRead(bits) == |prefix|;
  }

  lemma OneOctet(data: seq<byte>, at: nat, b: byte)
    requires at < |data| && data[at..at + 1] == [b]
    ensures data[at] == b
  {
    assert data[at..at + 1][0] == data[at];
  }

  // ---------- UPDATE ----------

  /** A path attribute: flags, code, a length of two octets if bit 0x10 of the flags is set and
      of one if not, and the value. */
  lemma AttributeFormat(flags: byte, code: byte, length: seq<byte>, value: seq<byte>, rest: seq<byte>)
    requires |length| == (if flags % 32 >= 16 then 2 else 1) && Value(length) == |value|
    ensures var data := [flags] + [code] + length + value + rest;
            FirstAttribute(data) == Some((Attribute(flags, code, value), |data| - |rest|))
  {
    var data := [flags] + [code] + length + value + rest;
    Fields([flags], [code], length, value, rest);
    assert data[0] == flags && data[1] == code;
    assert flags % 32 >= 16 <==> flags / 16 % 2 == 1;
    if |length| == 2 {
      Reads16(data, 2, length);
    } else {
      assert length[..0] == [] && data[2] == length[0] == Value(length);
    }
  }

  /** A prefix: the Path Identifier where there is one, the length in bits, and as many octets as the
      bits need.  What is read is an address of 4 octets for AFI 1 and of 16 for AFI 2. */
  lemma PrefixFormat(afi: uint16, id: seq<byte>, bits: byte, octets: seq<byte>, rest: seq<byte>)
    requires afi == 1 || afi == 2
    requires (|id| == 0 || |id| == 4) && 8 * |octets| - 7 <= bits <= 8 * |octets| && bits <= (if afi == 1 then 32 else 128)
    ensures var data := id + [bits] + octets + [] + rest;
            var r := FirstPrefix(data, AddressSize(afi), |id| == 4);
            && r.Some? && r.value.1 == |data| - |rest|
            && r.value.0.pathID == Value(id) && r.value.0.prefix.bits == bits
            && |r.value.0.prefix.addr| == (if afi == 1 then 4 else 16) && octets <= r.value.0.prefix.addr
            && forall i :: |octets| <= i < |r.value.0.prefix.addr| ==> r.value.0.prefix.addr[i] == 0
  {
    var data := id + [bits] + octets + [] + rest;
    Fields(id, [bits], octets, [], rest);
    OneOctet(data, |id|, bits);
    if |id| == 4 { Reads32(data, 0, id); }
  }

  /** A longer prefix than the address, or one cut short, does not decode. */
  lemma PrefixRefused(afi: uint16, id: seq<byte>, bits: byte, octets: seq<byte>)
    requires (afi == 1 || afi == 2) && (|id| == 0 || |id| == 4)
    requires bits > (if afi == 1 then 32 else 128) || 8 * |octets| < bits
    ensures FirstPrefix(id + [bits] + octets, AddressSize(afi), |id| == 4) == None
  {
    var data := id + [bits] + octets;
    assert data[|id|] == bits;
  }

  /** An UPDATE: the withdrawn routes and the path attributes, each after its length, and the NLRI. */
  lemma UpdateFormat(wl: seq<byte>, withdrawn: seq<byte>, al: seq<byte>, attrs: seq<byte>, nlri: seq<byte>)
    requires |wl| == |al| == 2 && Value(wl) == |withdrawn| && Value(al) == |attrs|
    ensures UpdateSections(wl + withdrawn + al + attrs + nlri) == Some(Sections(withdrawn, attrs, nlri))
  {
    var body := wl + withdrawn + al + attrs + nlri;
    Fields(wl, withdrawn, al, attrs, nlri);
    Reads16(body, 0, wl);
    Reads16(body, 2 + |withdrawn|, al);
  }

  /** MP_REACH_NLRI: AFI, SAFI, the next hop after its length, a reserved octet, and the NLRI. */
  lemma MPReachFormat(
    afi: seq<byte>, family: Family, nextHop: seq<byte>, reserved: byte, nlri: seq<byte>, addPath: bool)
    requires |afi| == 2 && Value(afi) == family.0 && |nextHop| in {4, 16, 32}
    ensures ParseMPReach(afi + [family.1, |nextHop|] + nextHop + [reserved] + nlri, addPath)
            == Some(MP(family, nextHop, if nlri == [] then Section([], [], true) else PrefixSection(nlri, family.0, addPath, true)))
  {
    var value := afi + [family.1, |nextHop|] + nextHop + [reserved] + nlri;
    Fields(afi, [family.1, |nextHop|], nextHop, [reserved], nlri);
    assert value[2] == family.1 && value[3] == |nextHop|;
    Reads16(value, 0, afi);
  }

  /** MP_UNREACH_NLRI: AFI, SAFI and the NLRI. */
  lemma MPUnreachFormat(afi: seq<byte>, family: Family, nlri: seq<byte>, addPath: bool)
    requires |afi| == 2 && Value(afi) == family.0
    ensures ParseMPUnreach(afi + [family.1] + nlri, addPath)
            == Some(MP(family, [], if nlri == [] then Section([], [], true) else PrefixSection(nlri, family.0, addPath, true)))
  {
    var value := afi + [family.1] + nlri;
    assert value[..2] == afi && value[2] == family.1 && value[3..] == nlri;
    Reads16(value, 0, afi);
  }
}
