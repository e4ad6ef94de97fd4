/** ADD-PATH negotiation: which families of a session carry Path Identifiers, in
    which direction (section 4 of RFC 7911), and what that makes of the UPDATEs
    of an MRT stream. */
module Negotiation {
  import opened Collections
  import opened Wire
  import opened Sessions
  import opened SessionRuns
  import opened Update

  const ADD_PATH_NONE: byte := 0
  const ADD_PATH_RECEIVE: byte := 1
  const ADD_PATH_SEND: byte := 2
  const ADD_PATH_BOTH: byte := 3

  // ---------- what an OPEN advertises ----------

  predicate NoMultiprotocol(caps: seq<Capability>) {
    forall i :: 0 <= i < |caps| ==> !caps[i].Multiprotocol?
  }

  /** The family has a Multiprotocol capability, or needs none. */
  predicate Offers(caps: seq<Capability>, f: Family) {
    Multiprotocol(f) in caps || (f == (1, 1) && NoMultiprotocol(caps))
  }

  /** The last ADD-PATH capability counts. */
  function AddPathOf(caps: seq<Capability>): Option<seq<AddPathTuple>> {
    if caps == [] then None
    else
      var last := caps[|caps| - 1];
      if last.AddPath? then Some(last.tuples) else AddPathOf(caps[..|caps| - 1])
  }

  /** Within it, the last tuple of the family. */
  function ModeIn(tuples: seq<AddPathTuple>, f: Family): byte {
    if tuples == [] then ADD_PATH_NONE
    else
      var last := tuples[|tuples| - 1];
      if last.family == f then last.mode else ModeIn(tuples[..|tuples| - 1], f)
  }

  function Advertised(caps: seq<Capability>, f: Family): byte {
    match AddPathOf(caps)
    case None => ADD_PATH_NONE
    case Some(tuples) => ModeIn(tuples, f)
  }

  predicate MaySend(mode: byte) {
    mode == 2 || mode == 3
  }

  predicate MayReceive(mode: byte) {
    mode == 1 || mode == 3
  }

  lemma {:induction false} LastTupleDecides(tuples: seq<AddPathTuple>, f: Family)
    ensures (forall i :: 0 <= i < |tuples| ==> tuples[i].family != f) ==> ModeIn(tuples, f) == ADD_PATH_NONE
    ensures forall i :: 0 <= i < |tuples| && tuples[i].family == f && (forall j :: i < j < |tuples| ==> tuples[j].family != f)
              ==> ModeIn(tuples, f) == tuples[i].mode
  {
    if tuples != [] && tuples[|tuples| - 1].family != f { LastTupleDecides(tuples[..|tuples| - 1], f); }
  }

  lemma {:induction false} LastAddPathDecides(caps: seq<Capability>, i: nat)
    requires i < |caps| && caps[i].AddPath? && forall j :: i < j < |caps| ==> !caps[j].AddPath?
    ensures AddPathOf(caps) == Some(caps[i].tuples)
  {
    if i < |caps| - 1 { LastAddPathDecides(caps[..|caps| - 1], i); }
  }

  lemma {:induction false} NoAddPath(caps: seq<Capability>)
    requires forall i :: 0 <= i < |caps| ==> !caps[i].AddPath?
    ensures AddPathOf(caps) == None
  {
    if caps != [] { NoAddPath(caps[..|caps| - 1]); }
  }

  /** The last tuple of a family in the last ADD-PATH capability of an OPEN. */
  predicate Deciding(caps: seq<Capability>, f: Family, i: nat, j: nat) {
    && i < |caps| && caps[i].AddPath? && (forall k :: i < k < |caps| ==> !caps[k].AddPath?)
    && j < |caps[i].tuples| && caps[i].tuples[j].family == f
    && forall k :: j < k < |caps[i].tuples| ==> caps[i].tuples[k].family != f
  }

  /** An OPEN advertises for a family what that tuple says, and without one nothing. */
  lemma AdvertisedIs(caps: seq<Capability>, f: Family)
    ensures forall i: nat, j: nat :: Deciding(caps, f, i, j) ==> Advertised(caps, f) == caps[i].tuples[j].mode
    ensures !(exists i: nat, j: nat :: Deciding(caps, f, i, j)) ==> Advertised(caps, f) == 0
  {
    forall i: nat, j: nat | Deciding(caps, f, i, j) ensures Advertised(caps, f) == caps[i].tuples[j].mode {
      LastAddPathDecides(caps, i);
      LastTupleDecides(caps[i].tuples, f);
    }
    if !(exists i: nat, j: nat :: Deciding(caps, f, i, j)) { NothingDecides(caps, f); }
  }

  lemma NothingDecides(caps: seq<Capability>, f: Family)
    requires !(exists i: nat, j: nat :: Deciding(caps, f, i, j))
    ensures Advertised(caps, f) == ADD_PATH_NONE
  {
    if i: nat :| i < |caps| && caps[i].AddPath? && forall k :: i < k < |caps| ==> !caps[k].AddPath? {
      LastAddPathDecides(caps, i);
      var tuples := caps[i].tuples;
      if j: nat :| j < |tuples| && tuples[j].family == f && forall k :: j < k < |tuples| ==> tuples[k].family != f {
        assert Deciding(caps, f, i, j);
        assert false;
      }
      NoLast(tuples, f, |tuples|);
      LastTupleDecides(tuples, f);
    } else {
      NoLastAddPath(caps, |caps|);
      NoAddPath(caps);
    }
  }

  /** Without a last one there is none. */
  lemma {:induction false} NoLast(tuples: seq<AddPathTuple>, f: Family, n: nat)
    requires n <= |tuples| && forall k :: n <= k < |tuples| ==> tuples[k].family != f
    requires forall j :: 0 <= j < |tuples| && tuples[j].family == f ==>
               exists k :: j < k < |tuples| && tuples[k].family == f
    ensures forall k :: 0 <= k < |tuples| ==> tuples[k].family != f
  {
    if n > 0 { NoLast(tuples, f, n - 1); }
  }

  lemma {:induction false} NoLastAddPath(caps: seq<Capability>, n: nat)
    requires n <= |caps| && forall k :: n <= k < |caps| ==> !caps[k].AddPath?
    requires forall i :: 0 <= i < |caps| && caps[i].AddPath? ==> exists k :: i < k < |caps| && caps[k].AddPath?
    ensures forall k :: 0 <= k < |caps| ==> !caps[k].AddPath?
  {
    if n > 0 { NoLastAddPath(caps, n - 1); }
  }

  // ---------- the negotiation ----------

  /** UPDATEs from `sender` to `receiver` carry Path Identifiers for the family: both offer
      it, the one advertised 2 or 3, and the other 1 or 3. */
  predicate Carries(sender: seq<Capability>, receiver: seq<Capability>, f: Family) {
    && Offers(sender, f) && Offers(receiver, f)
    && MaySend(Advertised(sender, f)) && MayReceive(Advertised(receiver, f))
  }

  /** The same, written out. */
  lemma CarriesIff(sender: seq<Capability>, receiver: seq<Capability>, f: Family)
    ensures Carries(sender, receiver, f) <==>
            && (Multiprotocol(f) in sender || (f == (1, 1) && !(exists g: Family :: Multiprotocol(g) in sender)))
            && (Multiprotocol(f) in receiver || (f == (1, 1) && !(exists g: Family :: Multiprotocol(g) in receiver)))
            && Advertised(sender, f) in {2, 3} && Advertised(receiver, f) in {1, 3}
  {
    NoMultiprotocolIff(sender);
    NoMultiprotocolIff(receiver);
  }

  lemma NoMultiprotocolIff(caps: seq<Capability>)
    ensures NoMultiprotocol(caps) <==> !(exists g: Family :: Multiprotocol(g) in caps)
  {
    if i :| 0 <= i < |caps| && caps[i].Multiprotocol? { assert Multiprotocol(caps[i].family) in caps; }
  }

  /** Reading a Go map of modes: a missing family has mode zero. */
  function ModeAt(modes: map<Family, byte>, f: Family): byte {
    if f in modes then modes[f] else ADD_PATH_NONE
  }

  /** The switch of Negotiate. */
  function Combine(local: byte, remote: byte): byte {
    var canSend := MaySend(local) && MayReceive(remote);
    var canReceive := MayReceive(local) && MaySend(remote);
    if canSend && canReceive then ADD_PATH_BOTH
    else if canSend then ADD_PATH_SEND
    else if canReceive then ADD_PATH_RECEIVE
    else ADD_PATH_NONE
  }

  /** The loop over one side's capabilities. */
  method Collect(caps: seq<Capability>) returns (families: set<Family>, addPath: Option<seq<AddPathTuple>>)
    ensures forall f: Family :: f in families <==> Offers(caps, f)
    ensures addPath == AddPathOf(caps)
  {
    families, addPath := {}, None;
    for i := 0 to |caps|
      invariant forall f: Family :: f in families <==> Multiprotocol(f) in caps[..i]
      invariant families == {} <==> NoMultiprotocol(caps[..i])
      invariant addPath == AddPathOf(caps[..i])
    {
      assert caps[..i + 1] == caps[..i] + [caps[i]];
      if caps[i].Multiprotocol? { families := families + {caps[i].family}; }
      if caps[i].AddPath? { addPath := Some(caps[i].tuples); }
    }
    assert caps[..|caps|] == caps;
    if families == {} { families := {IPV4_UNICAST}; }
  }

  method ModesOf(tuples: seq<AddPathTuple>) returns (modes: map<Family, byte>)
    ensures forall f: Family :: ModeAt(modes, f) == ModeIn(tuples, f)
  {
    modes := map[];
    for i := 0 to |tuples|
      invariant forall f: Family :: ModeAt(modes, f) == ModeIn(tuples[..i], f)
    {
      assert tuples[..i + 1][..i] == tuples[..i];
      modes := modes[tuples[i].family := tuples[i].mode];
    }
    assert tuples[..|tuples|] == tuples;
  }

  method Intersect(local: set<Family>, remote: set<Family>) returns (families: set<Family>)
    ensures families == local * remote
  {
    families := {};
    var rest := local;
    while rest != {}
      invariant rest <= local && families == (local - rest) * remote
    {
      var f :| f in rest;
      if f in remote { families := families + {f}; }
      rest := rest - {f};
    }
  }

  function EffectiveIn(families: set<Family>, localModes: map<Family, byte>, remoteModes: map<Family, byte>, f: Family): byte {
    if f in families then Combine(ModeAt(localModes, f), ModeAt(remoteModes, f)) else ADD_PATH_NONE
  }

  /** The loop over the negotiated families. */
  method Effective(families: set<Family>, localModes: map<Family, byte>, remoteModes: map<Family, byte>)
    returns (addPath: map<Family, byte>)
    ensures forall f: Family :: ModeAt(addPath, f) == EffectiveIn(families, localModes, remoteModes, f)
  {
    addPath := map[];
    var rest := families;
    while rest != {}
      invariant rest <= families
      invariant forall f: Family :: ModeAt(addPath, f) == EffectiveIn(families - rest, localModes, remoteModes, f)
    {
      ghost var was := addPath;
      var f :| f in rest;
      var mode := Combine(ModeAt(localModes, f), ModeAt(remoteModes, f));
      if mode != ADD_PATH_NONE { addPath := addPath[f := mode]; }
      ghost var before := families - rest;
      rest := rest - {f};
      assert families - rest == before + {f};
      forall g: Family ensures ModeAt(addPath, g) == EffectiveIn(families - rest, localModes, remoteModes, g) {
        assert ModeAt(was, g) == EffectiveIn(before, localModes, remoteModes, g);
      }
    }
  }

  /** Negotiate, as far as it decides the ADD-PATH mode of each family: the session sends
      Path Identifiers exactly where Carries says so one way, and receives them exactly
      where it says so the other way. */
  method Negotiate(local: seq<Capability>, remote: seq<Capability>) returns (addPath: map<Family, byte>)
    ensures forall f: Family :: MaySend(ModeAt(addPath, f)) <==> Carries(local, remote, f)
    ensures forall f: Family :: MayReceive(ModeAt(addPath, f)) <==> Carries(remote, local, f)
    ensures forall f: Family :: ModeAt(addPath, f) == NegotiatedMode(Negotiated(local, remote), f)
  {
    var localFamilies, localAddPath := Collect(local);
    var remoteFamilies, remoteAddPath := Collect(remote);
    var families := Intersect(localFamilies, remoteFamilies);
    addPath := map[];
    if localAddPath.Some? && remoteAddPath.Some? {
      var localModes := ModesOf(localAddPath.value);
      var remoteModes := ModesOf(remoteAddPath.value);
      addPath := Effective(families, localModes, remoteModes);
    }
  }

  /** Negotiated.AddPathMode. */
  function NegotiatedMode(n: Negotiated, f: Family): byte {
    if Offers(n.local, f) && Offers(n.remote, f)
    then Combine(Advertised(n.local, f), Advertised(n.remote, f)) else ADD_PATH_NONE
  }

  // ---------- what it makes of an UPDATE ----------

  /** mode & bit != 0, for a bit that is a power of two. */
  predicate HasBit(mode: byte, bit: byte)
    requires bit > 0
  {
    mode / bit % 2 == 1
  }

  /** What BGPMessage.AddPathFor answers from. */
  function DecodingContext(subtype: uint16, ctx: Option<Negotiated>): Context {
    match ctx
    case None => FromSubtype(8 <= subtype <= 11)
    case Some(n) =>
      FromOpens((afi: uint16, safi: byte) =>
        HasBit(NegotiatedMode(n, (afi, safi)), if SentSubtype(subtype) then ADD_PATH_SEND else ADD_PATH_RECEIVE))
  }

  function SenderOf(subtype: uint16, n: Negotiated): seq<Capability> {
    if SentSubtype(subtype) then n.local else n.remote
  }

  function ReceiverOf(subtype: uint16, n: Negotiated): seq<Capability> {
    if SentSubtype(subtype) then n.remote else n.local
  }

  /** From both OPENs, the answer for a family is what its sender and its receiver advertised. */
  lemma ContextCarriesIff(subtype: uint16, n: Negotiated, f: Family)
    ensures AddPathFor(DecodingContext(subtype, Some(n)), f.0, f.1)
            <==> Carries(SenderOf(subtype, n), ReceiverOf(subtype, n), f)
  {
    assert f == (f.0, f.1);
    CombinedBits(Advertised(n.local, f), Advertised(n.remote, f));
    assert !HasBit(ADD_PATH_NONE, ADD_PATH_SEND) && !HasBit(ADD_PATH_NONE, ADD_PATH_RECEIVE);
  }

  lemma CombinedBits(local: byte, remote: byte)
    ensures HasBit(Combine(local, remote), ADD_PATH_SEND) <==> MaySend(local) && MayReceive(remote)
    ensures HasBit(Combine(local, remote), ADD_PATH_RECEIVE) <==> MaySend(remote) && MayReceive(local)
  {}

  /** The two ends of a session, each with its own OPEN as the local one, agree on every UPDATE
      between them. */
  lemma BothEndsAgree(a: seq<Capability>, b: seq<Capability>, f: Family)
    ensures HasBit(NegotiatedMode(Negotiated(a, b), f), ADD_PATH_SEND)
            <==> HasBit(NegotiatedMode(Negotiated(b, a), f), ADD_PATH_RECEIVE)
  {}

  /** End to end: an UPDATE of a stream decodes with Path Identifiers for a family if and only
      if, in the pair of OPENs its session's history holds, its sender advertised 2 or 3 and
      its receiver 1 or 3 for a family both offer; without such a pair, if and only if its
      subtype is one of RFC 8050. */
  lemma UpdateCarriesIff(parse: Parser, recs: seq<Record>, r: Record, k: Key, f: Family)
    requires Run(parse, recs).Some? && Readable(r) && ContextKey(r.hdr) == Some(k)
    requires r.Message? && EventOf(parse, r).Updated?
    ensures var all := Project(parse, recs, k) + [EventOf(parse, r)];
            var out := Observe(parse, Run(parse, recs).value, r).1;
            && out.Ok?
            && var carries := AddPathFor(DecodingContext(r.subtype, out.context), f.0, f.1);
            && (forall i: nat, j: nat :: PairAt(all, i, j) ==>
                  var n := NegotiatedFrom(all[i], all[j]);
                  carries <==> Carries(SenderOf(r.subtype, n), ReceiverOf(r.subtype, n), f))
            && (!(exists i: nat, j: nat :: PairAt(all, i, j)) ==> (carries <==> 8 <= r.subtype <= 11))
  {
    StreamContextIffPair(parse, recs, r, k);
    var out := Observe(parse, Run(parse, recs).value, r).1;
    if out.context.Some? { ContextCarriesIff(r.subtype, out.context.value, f); }
  }

  const IPV6_UNICAST: Family := (2, 1)

  /** The code asks more than the two modes: the family must have been negotiated too.  Both
      advertise 3 for IPv6 unicast, neither its Multiprotocol capability. */
  lemma ModesAloneDoNotDecide()
    ensures var caps := [AddPath([AddPathTuple(IPV6_UNICAST, ADD_PATH_BOTH)])];
            && MaySend(Advertised(caps, IPV6_UNICAST)) && MayReceive(Advertised(caps, IPV6_UNICAST))
            && !Carries(caps, caps, IPV6_UNICAST)
  {}
}
