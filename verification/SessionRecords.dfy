/** Which UPDATEs get a negotiated context, in the terms of the records themselves: the type
    octets of the messages, the states of the FSM, the subtypes and the addresses. */
module SessionRecords {
  import opened Collections
  import opened Wire
  import opened Sessions
  import opened SessionRuns

  // ---------- one session's records ----------

  /** The first twelve octets of an IPv4-mapped IPv6 address. */
  const MAPPED: seq<byte> := [0, 0, 0, 0, 0, 0, 0, 0, 0, 0, 255, 255]

  /** The same address, written as IPv4 or as IPv4-mapped. */
  predicate SameEnd(a: seq<byte>, b: seq<byte>) {
    a == b || (|b| == 4 && a == MAPPED + b) || (|a| == 4 && b == MAPPED + a)
  }

  predicate SameSession(a: Header, b: Header) {
    SameEnd(a.peerIP, b.peerIP) && SameEnd(a.localIP, b.localIP) && a.ifIndex == b.ifIndex
  }

  predicate HasAddresses(h: Header) {
    (|h.peerIP| == 4 || |h.peerIP| == 16) && (|h.localIP| == 4 || |h.localIP| == 16)
  }

  lemma SameEndIff(a: seq<byte>, b: seq<byte>)
    requires IsAddr(a) && IsAddr(b)
    ensures Unmap(a) == Unmap(b) <==> SameEnd(a, b)
  {
    MappedSplits(a);
    MappedSplits(b);
  }

  lemma MappedSplits(ip: seq<byte>)
    requires IsAddr(ip)
    ensures if |Unmap(ip)| < |ip| then |ip| == 16 && |Unmap(ip)| == 4 && ip == MAPPED + Unmap(ip) else Unmap(ip) == ip
    ensures |ip| == 16 && ip[..12] == MAPPED ==> |Unmap(ip)| == 4
    ensures forall v4 :: |v4| == 4 && ip == MAPPED + v4 ==> Unmap(ip) == v4
  {
    if |ip| == 16 {
      assert ip == ip[..12] + ip[12..];
      if Unmap(ip) == ip[12..] && |Unmap(ip)| == 4 { assert ip[..12] == MAPPED; }
      if ip[..12] == MAPPED { assert forall i :: 0 <= i < 12 ==> ip[i] == MAPPED[i]; }
      forall v4 | |v4| == 4 && ip == MAPPED + v4 ensures Unmap(ip) == v4 {
        assert ip[..12] == MAPPED && ip[12..] == v4;
      }
    }
  }

  /** Two records are of one session exactly when both ends and the interface are the same. */
  lemma SameSessionIff(a: Header, b: Header)
    ensures ContextKey(a).Some? <==> HasAddresses(a)
    ensures HasAddresses(a) && HasAddresses(b) ==> (ContextKey(a) == ContextKey(b) <==> SameSession(a, b))
  {
    if HasAddresses(a) && HasAddresses(b) {
      SameEndIff(a.peerIP, b.peerIP);
      SameEndIff(a.localIP, b.localIP);
    }
  }

  /** The records of the session of `h`, in order. */
  function Own(recs: seq<Record>, h: Header): seq<Record> {
    if recs == [] then []
    else
      var r, rest := recs[|recs| - 1], Own(recs[..|recs| - 1], h);
      if SameSession(r.hdr, h) then rest + [r] else rest
  }

  // ---------- what a record is ----------

  /** The type octet of a BGP message: 1 OPEN, 2 UPDATE, 3 NOTIFICATION. */
  predicate IsType(r: Record, t: byte) {
    r.Message? && |r.wire| >= 19 && r.wire[18] == t
  }

  /** BGP4MP_MESSAGE_LOCAL, _AS4_LOCAL, and their ADD-PATH forms. */
  predicate WasSent(r: Record) {
    r.Message? && (r.subtype == 6 || r.subtype == 7 || r.subtype == 10 || r.subtype == 11)
  }

  /** A state change that stays above Active (3) and does not leave Established (6). */
  predicate LeavesSession(r: Record) {
    r.StateChange? && r.newState > 3 && (r.oldState == 6 ==> r.newState == 6)
  }

  /** The AS number of the OPEN, or AS_TRANS for one that does not fit in two octets. */
  predicate Speaks(open: Open, header: uint32, subtype: uint16) {
    open.asn == header || (subtype !in {4, 5, 7, 9, 11} && open.asn > 65535 && header == 23456)
  }

  /** Two OPENs of opposite direction that parse. */
  predicate Facing(parse: Parser, a: Record, b: Record) {
    && IsType(a, 1) && IsType(b, 1) && WasSent(a) != WasSent(b)
    && OpenEvidence(parse, a.wire).Some? && OpenEvidence(parse, b.wire).Some?
  }

  function SentOpen(parse: Parser, a: Record, b: Record): Open
    requires Facing(parse, a, b)
  {
    OpenEvidence(parse, if WasSent(a) then a.wire else b.wire).value
  }

  function ReceivedOpen(parse: Parser, a: Record, b: Record): Open
    requires Facing(parse, a, b)
  {
    OpenEvidence(parse, if WasSent(a) then b.wire else a.wire).value
  }

  /** What may follow the pair: silent state changes, messages that are neither OPEN, UPDATE nor
      NOTIFICATION, and UPDATEs whose two AS numbers are those of the OPENs. */
  predicate Follows(parse: Parser, a: Record, b: Record, r: Record)
    requires Facing(parse, a, b)
  {
    match r
    case StateChange(_, _, _) => LeavesSession(r)
    case Message(subtype, h, wire) =>
      && |wire| >= 19 && wire[18] != 1 && wire[18] != 3
      && (wire[18] == 2 ==> Speaks(ReceivedOpen(parse, a, b), h.peerAS, subtype)
                            && Speaks(SentOpen(parse, a, b), h.localAS, subtype))
  }

  /** The OPEN that the records end with, looking past silent state changes. */
  function EndingOpen(own: seq<Record>): Option<Record> {
    if own == [] then None
    else
      var r := own[|own| - 1];
      if LeavesSession(r) then EndingOpen(own[..|own| - 1]) else if IsType(r, 1) then Some(r) else None
  }

  /** How many OPENs of alternating direction the records end with. */
  function Handshake(own: seq<Record>): nat {
    if own == [] then 0
    else
      var r, before := own[|own| - 1], own[..|own| - 1];
      if LeavesSession(r) then Handshake(before)
      else if !IsType(r, 1) then 0
      else if EndingOpen(before).Some? && WasSent(EndingOpen(before).value) != WasSent(r) then Handshake(before) + 1
      else 1
  }

  /** Records i and j are the two OPENs of the current epoch. */
  ghost predicate PairOf(parse: Parser, own: seq<Record>, i: nat, j: nat) {
    && i < j < |own| && Facing(parse, own[i], own[j])
    && (forall x :: i < x < j ==> LeavesSession(own[x]))
    && Handshake(own[..j + 1]) % 2 == 0
    && (forall x :: j < x < |own| ==> Follows(parse, own[i], own[j], own[x]))
  }

  // ---------- what an OPEN says ----------

  /** A marker of ones, the length, and version 4. */
  predicate OpenFrame(wire: seq<byte>) {
    && |wire| >= 29 && (forall i :: 0 <= i < 16 ==> wire[i] == 255)
    && wire[16] as int * 256 + wire[17] as int == |wire| && wire[19] == 4
  }

  /** The optional parameters fill the rest, after their length in octet 28. */
  predicate PlainOpen(wire: seq<byte>) {
    OpenFrame(wire) && |wire| == 29 + wire[28] as int && (wire[28] != 0 ==> wire[29] != 255)
  }

  /** The extended framing of RFC 9072: a length that is not zero, type 255, and a length of two octets. */
  predicate ExtendedOpen(wire: seq<byte>) {
    OpenFrame(wire) && |wire| >= 32 && wire[28] != 0 && wire[29] == 255
    && |wire| == 32 + wire[30] as int * 256 + wire[31] as int
  }

  /** An OPEN is evidence exactly when it is framed in one of the two ways and its parameters
      parse; its AS number is that of octets 20 and 21 unless a capability says otherwise. */
  lemma OpenReads(parse: Parser, wire: seq<byte>)
    ensures var open := OpenEvidence(parse, wire);
            var caps := if PlainOpen(wire) then parse(wire[29..], false)
                        else if ExtendedOpen(wire) then parse(wire[32..], true) else None;
            && (open.Some? <==> caps.Some?)
            && (open.Some? ==> open.value.caps == caps.value
                               && open.value.asn == OpenASN(caps.value, wire[20] as int * 256 + wire[21] as int))
  {
    if |wire| >= 29 {
      TailOfTail(wire, 19, 10);
      if |wire| >= 32 { TailOfTail(wire, 19, 13); }
    }
  }

  // ---------- the records, as events ----------

  /** A record that a stream accepted. */
  predicate Accepted(parse: Parser, r: Record) {
    Readable(r) && !EventOf(parse, r).BadOpen?
  }

  ghost predicate AllAccepted(parse: Parser, own: seq<Record>) {
    forall i :: 0 <= i < |own| ==> Accepted(parse, own[i])
  }

  /** The event of a record, where it has one. */
  function Means(parse: Parser, r: Record): Event {
    if r.Message? && |r.wire| < 19 then Silent else EventOf(parse, r)
  }

  function Events(parse: Parser, own: seq<Record>): seq<Event> {
    seq(|own|, i requires 0 <= i < |own| => Means(parse, own[i]))
  }

  lemma EventsPrefix(parse: Parser, own: seq<Record>, n: nat)
    requires AllAccepted(parse, own) && n <= |own|
    ensures AllAccepted(parse, own[..n]) && Events(parse, own[..n]) == Events(parse, own)[..n]
  {}

  lemma EventMeans(parse: Parser, r: Record)
    requires Accepted(parse, r)
    ensures EventOf(parse, r).Silent? <==> LeavesSession(r)
    ensures EventOf(parse, r).Opened? <==> IsType(r, 1)
    ensures EventOf(parse, r).Opened? ==>
              OpenEvidence(parse, r.wire) == Some(EventOf(parse, r).open) && EventOf(parse, r).sent == WasSent(r)
  {}

  lemma {:induction false} SameHandshake(parse: Parser, own: seq<Record>)
    requires AllAccepted(parse, own)
    ensures Handshake(own) == Alternating(Events(parse, own))
    ensures EndingOpen(own).Some? <==> LastOpen(Events(parse, own)).Some?
    ensures EndingOpen(own).Some? ==> WasSent(EndingOpen(own).value) == LastOpen(Events(parse, own)).value.sent
  {
    if own != [] {
      var n := |own| - 1;
      EventsPrefix(parse, own, n);
      SameHandshake(parse, own[..n]);
      EventMeans(parse, own[n]);
    }
  }

  lemma SameFollows(parse: Parser, a: Record, b: Record, r: Record)
    requires Accepted(parse, a) && Accepted(parse, b) && Accepted(parse, r) && Facing(parse, a, b)
    ensures Opposite(EventOf(parse, a), EventOf(parse, b))
    ensures Follows(parse, a, b, r) <==> Harmless(EventOf(parse, a), EventOf(parse, b), EventOf(parse, r))
  {
    EventMeans(parse, a);
    EventMeans(parse, b);
  }

  lemma SameFacing(parse: Parser, a: Record, b: Record)
    requires Accepted(parse, a) && Accepted(parse, b)
    ensures Facing(parse, a, b) <==> Opposite(EventOf(parse, a), EventOf(parse, b))
  {
    EventMeans(parse, a);
    EventMeans(parse, b);
  }

  lemma HandshakeUpTo(parse: Parser, own: seq<Record>, n: nat)
    requires AllAccepted(parse, own) && n <= |own|
    ensures Handshake(own[..n]) == Alternating(Events(parse, own)[..n])
  {
    EventsPrefix(parse, own, n);
    SameHandshake(parse, own[..n]);
  }

  lemma SameBetween(parse: Parser, own: seq<Record>, i: nat, j: nat)
    requires AllAccepted(parse, own) && i < j < |own|
    ensures (forall x :: i < x < j ==> LeavesSession(own[x])) <==> (forall x :: i < x < j ==> Events(parse, own)[x].Silent?)
  {
    forall x | i < x < j ensures Events(parse, own)[x].Silent? <==> LeavesSession(own[x]) { EventMeans(parse, own[x]); }
  }

  lemma SameAfter(parse: Parser, own: seq<Record>, i: nat, j: nat)
    requires AllAccepted(parse, own) && i < j < |own| && Facing(parse, own[i], own[j])
    ensures Opposite(Events(parse, own)[i], Events(parse, own)[j])
    ensures (forall x :: j < x < |own| ==> Follows(parse, own[i], own[j], own[x]))
            <==> forall x :: j < x < |own| ==> Harmless(Events(parse, own)[i], Events(parse, own)[j], Events(parse, own)[x])
  {
    SameFacing(parse, own[i], own[j]);
    var h := Events(parse, own);
    forall x | j < x < |own| ensures Follows(parse, own[i], own[j], own[x]) <==> Harmless(h[i], h[j], h[x]) {
      SameFollows(parse, own[i], own[j], own[x]);
    }
  }

  lemma SamePair(parse: Parser, own: seq<Record>, i: nat, j: nat)
    requires AllAccepted(parse, own)
    ensures PairOf(parse, own, i, j) <==> PairAt(Events(parse, own), i, j)
  {
    if i < j < |own| {
      SameFacing(parse, own[i], own[j]);
      SameBetween(parse, own, i, j);
      HandshakeUpTo(parse, own, j + 1);
      if Facing(parse, own[i], own[j]) { SameAfter(parse, own, i, j); }
    }
  }

  lemma ObserveAccepts(parse: Parser, peers: Peers, r: Record)
    requires Observe(parse, peers, r).1.Ok?
    ensures Accepted(parse, r)
  {}

  lemma RunLast(parse: Parser, recs: seq<Record>)
    requires recs != [] && Run(parse, recs).Some?
    ensures Run(parse, recs[..|recs| - 1]).Some? && Accepted(parse, recs[|recs| - 1])
  {
    ObserveAccepts(parse, Run(parse, recs[..|recs| - 1]).value, recs[|recs| - 1]);
  }

  lemma AcceptedNext(parse: Parser, recs: seq<Record>, r: Record)
    requires AllAccepted(parse, recs) && Accepted(parse, r)
    ensures AllAccepted(parse, recs + [r])
  {}

  lemma {:induction false} RunAccepts(parse: Parser, recs: seq<Record>)
    requires Run(parse, recs).Some?
    ensures AllAccepted(parse, recs)
  {
    if recs != [] {
      var before, r := recs[..|recs| - 1], recs[|recs| - 1];
      RunLast(parse, recs);
      RunAccepts(parse, before);
      AcceptedNext(parse, before, r);
      FrontAndLast(recs);
    }
  }

  /** The history of a session is its own records. */
  lemma {:induction false} OwnEvents(parse: Parser, recs: seq<Record>, h: Header, k: Key)
    requires AllAccepted(parse, recs) && ContextKey(h) == Some(k)
    ensures AllAccepted(parse, Own(recs, h)) && Project(parse, recs, k) == Events(parse, Own(recs, h))
  {
    if recs != [] {
      var r := recs[|recs| - 1];
      OwnEvents(parse, recs[..|recs| - 1], h, k);
      SameSessionIff(r.hdr, h);
      SameSessionIff(h, h);
    }
  }

  lemma StreamEvents(parse: Parser, recs: seq<Record>, r: Record, k: Key)
    requires Run(parse, recs).Some? && ContextKey(r.hdr) == Some(k) && Accepted(parse, r)
    ensures var own := Own(recs, r.hdr) + [r];
            AllAccepted(parse, own) && Events(parse, own) == Project(parse, recs, k) + [EventOf(parse, r)]
  {
    RunAccepts(parse, recs);
    OwnEvents(parse, recs, r.hdr, k);
    AcceptedNext(parse, Own(recs, r.hdr), r);
  }

  lemma SameNegotiated(parse: Parser, own: seq<Record>, i: nat, j: nat)
    requires AllAccepted(parse, own) && PairOf(parse, own, i, j) && PairAt(Events(parse, own), i, j)
    ensures NegotiatedFrom(Events(parse, own)[i], Events(parse, own)[j])
            == Negotiated(SentOpen(parse, own[i], own[j]).caps, ReceivedOpen(parse, own[i], own[j]).caps)
  {
    EventMeans(parse, own[i]);
    EventMeans(parse, own[j]);
  }

  /** In any stream that was accepted so far, an UPDATE (type octet 2) gets a context exactly when
      its session's own records hold such a pair of OPENs, and then the context is what
      Negotiate makes of the capabilities sent and those received. */
  lemma RecordContextIffPair(parse: Parser, recs: seq<Record>, r: Record)
    requires Run(parse, recs).Some? && HasAddresses(r.hdr) && IsType(r, 2)
    ensures var own := Own(recs, r.hdr) + [r];
            var out := Observe(parse, Run(parse, recs).value, r).1;
            && out.Ok?
            && (out.context.Some? <==> exists i: nat, j: nat :: PairOf(parse, own, i, j))
            && forall i: nat, j: nat :: PairOf(parse, own, i, j) ==>
                 out.context == Some(Negotiated(SentOpen(parse, own[i], own[j]).caps, ReceivedOpen(parse, own[i], own[j]).caps))
  {
    SameSessionIff(r.hdr, r.hdr);
    var k := ContextKey(r.hdr).value;
    StreamContextIffPair(parse, recs, r, k);
    var own := Own(recs, r.hdr) + [r];
    StreamEvents(parse, recs, r, k);
    var all := Events(parse, own);
    forall i: nat, j: nat ensures PairOf(parse, own, i, j) <==> PairAt(all, i, j) { SamePair(parse, own, i, j); }
    forall i: nat, j: nat | PairOf(parse, own, i, j)
      ensures NegotiatedFrom(all[i], all[j])
              == Negotiated(SentOpen(parse, own[i], own[j]).caps, ReceivedOpen(parse, own[i], own[j]).caps)
    {
      SameNegotiated(parse, own, i, j);
    }
  }

  /** Every other record that is accepted gets no context; and which records are refused, and how. */
  lemma RefusedIff(parse: Parser, peers: Peers, r: Record)
    ensures var out := Observe(parse, peers, r).1;
            && (out.BadAddress? <==> !HasAddresses(r.hdr))
            && (out.ShortMessage? <==> HasAddresses(r.hdr) && r.Message? && |r.wire| < 19)
            && (out.BadOpenMessage? <==> HasAddresses(r.hdr) && IsType(r, 1) && OpenEvidence(parse, r.wire).None?)
            && (out.TooManySessions? <==>
                  && HasAddresses(r.hdr) && IsType(r, 1) && OpenEvidence(parse, r.wire).Some?
                  && var k := ContextKey(r.hdr).value;
                     |peers - {k}| >= 65536 &&
                     (k in peers ==> peers[k].used || (if WasSent(r) then peers[k].sent else peers[k].received).Some?))
            && (out.Ok? && !IsType(r, 2) ==> out.context == None)
  {
    SameSessionIff(r.hdr, r.hdr);
    if Readable(r) && IsType(r, 1) && OpenEvidence(parse, r.wire).Some? {
      assert EventOf(parse, r) == Opened(WasSent(r), OpenEvidence(parse, r.wire).value);
    }
  }
}
