/** File-local OPEN evidence: what an MRT stream says about the ADD-PATH mode of
    the UPDATEs in it (section 5 of RFC 7911, section 4.4 of RFC 6396).

    The capability parser is a parameter, and the outcome of capability.Negotiate
    is the pair of lists it was given; module Negotiation says what it makes of them. */
module Sessions {
  import opened Collections
  import opened Wire

  // ---------- records ----------

  /** One <AFI, SAFI, Send/Receive> tuple of an ADD-PATH capability. */
  datatype AddPathTuple = AddPathTuple(family: Family, mode: byte)

  datatype Capability =
    | ASN4(asn: uint32)
    | Multiprotocol(family: Family)
    | AddPath(tuples: seq<AddPathTuple>)
    | Other(code: byte, value: seq<byte>)

  /** capability.Negotiate(local, remote). */
  datatype Negotiated = Negotiated(local: seq<Capability>, remote: seq<Capability>)

  datatype Header = Header(peerAS: uint32, localAS: uint32, ifIndex: uint16, peerIP: seq<byte>, localIP: seq<byte>)

  datatype Record =
    | Message(subtype: uint16, hdr: Header, wire: seq<byte>)
    | StateChange(hdr: Header, oldState: uint16, newState: uint16)

  datatype Key = Key(peer: seq<byte>, local: seq<byte>, iface: uint16)

  /** netip.Addr.Unmap on an address of 4 or 16 octets. */
  function Unmap(ip: seq<byte>): seq<byte> {
    if |ip| == 16 && ip[10] == 255 && ip[11] == 255 && (forall i :: 0 <= i < 10 ==> ip[i] == 0)
    then ip[12..] else ip
  }

  predicate IsAddr(ip: seq<byte>) {
    |ip| == 4 || |ip| == 16
  }

  function ContextKey(h: Header): Option<Key> {
    if IsAddr(h.peerIP) && IsAddr(h.localIP) then Some(Key(Unmap(h.peerIP), Unmap(h.localIP), h.ifIndex)) else None
  }

  predicate SentSubtype(subtype: uint16) {
    subtype in {6, 7, 10, 11}
  }

  // ---------- OPEN evidence ----------

  datatype Open = Open(caps: seq<Capability>, asn: uint32)

  /** capability.ParseFromOptionalParams: the parameter octets and whether they
      carry the extended framing of RFC 9072. */
  type Parser = (seq<byte>, bool) -> Option<seq<Capability>>

  /** The last four-octet AS capability decides, else the OPEN's own field. */
  function OpenASN(caps: seq<Capability>, field: uint32): uint32 {
    if caps == [] then field
    else
      var last := caps[|caps| - 1];
      if last.ASN4? then last.asn else OpenASN(caps[..|caps| - 1], field)
  }

  function OpenEvidence(parse: Parser, wire: seq<byte>): Option<Open> {
    if |wire| < 29 || U16(wire, 16) != |wire| then None
    else if exists i :: 0 <= i < 16 && wire[i] != 255 then None
    else
      var body := wire[19..];
      if body[0] != 4 then None
      else
        var extended := body[9] != 0 && |body| > 10 && body[10] == 255;
        if extended && |body| < 13 then None
        else
          var offset := if extended then 13 else 10;
          var length := if extended then U16(body, 11) else body[9];
          if offset + length != |body| then None
          else
            match parse(body[offset..], extended)
            case None => None
            case Some(caps) => Some(Open(caps, OpenASN(caps, U16(body, 1))))
  }

  /** An OPEN speaks for the AS of its last four-octet AS capability, or of its own field. */
  lemma {:induction false} LastASN4Decides(caps: seq<Capability>, field: uint32)
    ensures (forall i :: 0 <= i < |caps| ==> !caps[i].ASN4?) ==> OpenASN(caps, field) == field
    ensures forall i :: 0 <= i < |caps| && caps[i].ASN4? && (forall j :: i < j < |caps| ==> !caps[j].ASN4?)
              ==> OpenASN(caps, field) == caps[i].asn
  {
    if caps != [] && !caps[|caps| - 1].ASN4? { LastASN4Decides(caps[..|caps| - 1], field); }
  }

  method MarkerIsSet(wire: seq<byte>) returns (ok: bool)
    requires |wire| >= 16
    ensures ok <==> forall i :: 0 <= i < 16 ==> wire[i] == 255
  {
    for i := 0 to 16
      invariant forall j :: 0 <= j < i ==> wire[j] == 255
    {
      if wire[i] != 255 { return false; }
    }
    ok := true;
  }

  /** The loop over the capabilities: each four-octet AS capability overrides. */
  method FindASN(caps: seq<Capability>, field: uint32) returns (asn: uint32)
    ensures asn == OpenASN(caps, field)
  {
    asn := field;
    for i := 0 to |caps|
      invariant asn == OpenASN(caps[..i], field)
    {
      assert caps[..i + 1][..i] == caps[..i];
      if caps[i].ASN4? { asn := caps[i].asn; }
    }
    assert caps[..|caps|] == caps;
  }

  /** openEvidence. */
  method ReadOpen(parse: Parser, wire: seq<byte>) returns (open: Option<Open>)
    ensures open == OpenEvidence(parse, wire)
  {
    if |wire| < 29 { return None; }
    if U16(wire, 16) != |wire| { return None; }
    var marked := MarkerIsSet(wire);
    if !marked { return None; }
    var body := wire[19..];
    if body[0] != 4 { return None; }
    var offset: nat, length: nat := 10, body[9];
    var extended := body[9] != 0 && |body| > 10 && body[10] == 255;
    if extended {
      if |body| < 13 { return None; }
      offset, length := 13, U16(body, 11);
    }
    if offset + length != |body| { return None; }
    var caps := parse(body[offset..], extended);
    if caps.None? { return None; }
    var asn := FindASN(caps.value, U16(body, 1));
    open := Some(Open(caps.value, asn));
  }

  // ---------- what a record means to its session ----------

  datatype Event =
    | Opened(sent: bool, open: Open)
    | BadOpen
    | Ended                       // NOTIFICATION, or a state change that ends the epoch
    | Updated(peerAS: uint32, localAS: uint32, as4: bool)
    | Traffic                     // KEEPALIVE, ROUTE-REFRESH and unknown types
    | Silent                      // a state change that ends nothing

  predicate EndsEpoch(oldState: uint16, newState: uint16) {
    newState <= 3 || (oldState == 6 && newState != 6)
  }

  /** The event of a record whose message is long enough to have a type. */
  function EventOf(parse: Parser, r: Record): Event
    requires r.Message? ==> |r.wire| >= 19
  {
    match r
    case StateChange(_, o, n) => if EndsEpoch(o, n) then Ended else Silent
    case Message(subtype, h, wire) =>
      if wire[18] == 1 then
        match OpenEvidence(parse, wire)
        case None => BadOpen
        case Some(open) => Opened(SentSubtype(subtype), open)
      else if wire[18] == 3 then Ended
      else if wire[18] == 2 then Updated(h.peerAS, h.localAS, AS4Subtype(subtype))
      else Traffic
  }

  // ---------- one session ----------

  /** `opens`, `seen` and `asn` of the source, one slot for each direction. */
  datatype Evidence = Evidence(received: Option<Open>, sent: Option<Open>, negotiated: Option<Negotiated>, used: bool) {
    function Slot(isSent: bool): Option<Open> {
      if isSent then sent else received
    }
  }

  predicate ASNMatches(actual: uint32, header: uint32, as4: bool) {
    actual == header || (!as4 && actual > 65535 && header == 23456)
  }

  predicate UpdateMatches(received: Open, sent: Open, e: Event)
    requires e.Updated?
  {
    ASNMatches(received.asn, e.peerAS, e.as4) && ASNMatches(sent.asn, e.localAS, e.as4)
  }

  predicate Restarts(ev: Evidence, isSent: bool) {
    ev.used || ev.Slot(isSent).Some?
  }

  function AddOpen(ev: Evidence, isSent: bool, open: Open): Evidence {
    var e := if isSent then ev.(sent := Some(open)) else ev.(received := Some(open));
    if e.sent.Some? && e.received.Some?
    then e.(negotiated := Some(Negotiated(e.sent.value.caps, e.received.value.caps))) else e
  }

  const NO_EVIDENCE := Evidence(None, None, None, false)

  function Step(ev: Option<Evidence>, e: Event): Option<Evidence> {
    match e
    case Opened(isSent, open) =>
      var base := if ev.None? || Restarts(ev.value, isSent) then NO_EVIDENCE else ev.value;
      Some(AddOpen(base, isSent, open))
    case BadOpen => None
    case Ended => None
    case Silent => ev
    case Traffic => if ev.None? then None else Some(ev.value.(used := true))
    case Updated(_, _, _) =>
      if ev.None? then None
      else if ev.value.negotiated.Some? && !KeepsContext(ev.value, e) then None
      else Some(ev.value.(used := true))
  }

  predicate KeepsContext(ev: Evidence, e: Event)
    requires e.Updated?
  {
    ev.received.Some? && ev.sent.Some? && UpdateMatches(ev.received.value, ev.sent.value, e)
  }

  /** What ObserveMessage writes on the message: the context of an UPDATE, if any. */
  function Attach(ev: Option<Evidence>, e: Event): Option<Negotiated> {
    if e.Updated? && ev.Some? && ev.value.negotiated.Some? && KeepsContext(ev.value, e)
    then ev.value.negotiated else None
  }

  function Session(h: seq<Event>): Option<Evidence> {
    if h == [] then None else Step(Session(h[..|h| - 1]), h[|h| - 1])
  }

  // ---------- all sessions ----------

  const MAX_SESSIONS := 65536

  datatype Outcome = Ok(context: Option<Negotiated>) | BadAddress | ShortMessage | BadOpenMessage | TooManySessions

  type Peers = map<Key, Evidence>

  function Look(peers: Peers, k: Key): Option<Evidence> {
    if k in peers then Some(peers[k]) else None
  }

  function Store(peers: Peers, k: Key, ev: Option<Evidence>): Peers {
    if ev.Some? then peers[k := ev.value] else peers - {k}
  }

  predicate NeedsSlot(peers: Peers, k: Key, e: Event) {
    e.Opened? && (k !in peers || Restarts(peers[k], e.sent))
  }

  lemma StoreBack(peers: Peers, k: Key)
    ensures Store(peers, k, Look(peers, k)) == peers
  {}

  lemma StoreAgain(peers: Peers, k: Key, v: Evidence, w: Evidence)
    ensures peers[k := v][k := w] == peers[k := w] && (peers - {k})[k := w] == peers[k := w]
  {}

  /** ObserveMessage and ObserveState. */
  function Observe(parse: Parser, peers: Peers, r: Record): (Peers, Outcome) {
    match ContextKey(r.hdr)
    case None => (peers, BadAddress)
    case Some(k) =>
      if r.Message? && |r.wire| < 19 then (peers, ShortMessage)
      else Decide(peers, k, EventOf(parse, r))
  }

  /** What an event does to its session, and what is answered. */
  function Decide(peers: Peers, k: Key, e: Event): (Peers, Outcome) {
    if e.BadOpen? then (peers - {k}, BadOpenMessage)
    else if NeedsSlot(peers, k, e) && |peers - {k}| >= MAX_SESSIONS then (peers - {k}, TooManySessions)
    else (Store(peers, k, Step(Look(peers, k), e)), Ok(Attach(Look(peers, k), e)))
  }

  /** A stream read from the start; None once a record is refused. */
  function Run(parse: Parser, recs: seq<Record>): Option<Peers> {
    if recs == [] then Some(map[])
    else
      match Run(parse, recs[..|recs| - 1])
      case None => None
      case Some(peers) =>
        var (next, outcome) := Observe(parse, peers, recs[|recs| - 1]);
        if outcome.Ok? then Some(next) else None
  }

  /** The fields of one MRT stream, updated record by record. */
  class SessionContexts {
    var peers: Peers

    constructor ()
      ensures peers == map[]
    {
      peers := map[];
    }

    method ObserveState(r: Record) returns (out: Outcome)
      requires r.StateChange?
      modifies this
      ensures forall parse: Parser :: (peers, out) == Observe(parse, old(peers), r)
    {
      var key := ContextKey(r.hdr);
      if key.None? { return BadAddress; }
      StoreBack(peers, key.value);
      if r.newState <= 3 {
        peers := peers - {key.value};
      } else if r.oldState == 6 && r.newState != 6 {
        peers := peers - {key.value};
      }
      out := Ok(None);
    }

    method ObserveMessage(parse: Parser, r: Record) returns (out: Outcome)
      requires r.Message?
      modifies this
      ensures (peers, out) == Observe(parse, old(peers), r)
    {
      var key := ContextKey(r.hdr);
      if key.None? { return BadAddress; }
      if |r.wire| < 19 { return ShortMessage; }
      StoreBack(peers, key.value);
      if r.wire[18] == 1 {
        var open := ReadOpen(parse, r.wire);
        out := ObserveOpen(key.value, SentSubtype(r.subtype), open);
      } else if r.wire[18] == 3 {
        peers := peers - {key.value};
        out := Ok(None);
      } else {
        out := ObserveTraffic(key.value, EventOf(parse, r));
      }
    }

    method ObserveTraffic(k: Key, e: Event) returns (out: Outcome)
      requires e.Traffic? || e.Updated?
      modifies this
      ensures (peers, out) == Decide(old(peers), k, e)
    {
      StoreBack(peers, k);
      out := Ok(None);
      if k !in peers { return; }
      if peers[k].negotiated.None? {
        peers := peers[k := peers[k].(used := true)];
        return;
      }
      if !e.Updated? {
        peers := peers[k := peers[k].(used := true)];
        return;
      }
      if !KeepsContext(peers[k], e) {
        peers := peers - {k};
        return;
      }
      out := Ok(peers[k].negotiated);
      peers := peers[k := peers[k].(used := true)];
    }

    method ObserveOpen(k: Key, sent: bool, open: Option<Open>) returns (out: Outcome)
      modifies this
      ensures open.None? ==> peers == old(peers) - {k} && out == BadOpenMessage
      ensures open.Some? ==>
        (peers, out) == Decide(old(peers), k, Opened(sent, open.value))
    {
      if k in peers && Restarts(peers[k], sent) { peers := peers - {k}; }
      if open.None? {
        peers := peers - {k};
        return BadOpenMessage;
      }
      ghost var freed := peers;
      if k !in peers {
        assert peers == old(peers) - {k};
        if |peers| >= MAX_SESSIONS { return TooManySessions; }
        peers := peers[k := NO_EVIDENCE];
      }
      StoreAgain(freed, k, peers[k], AddOpen(peers[k], sent, open.value));
      StoreAgain(old(peers), k, peers[k], AddOpen(peers[k], sent, open.value));
      peers := peers[k := AddOpen(peers[k], sent, open.value)];
      out := Ok(None);
    }
  }
}
