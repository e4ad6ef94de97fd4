/** The gate before captured UPDATEs are sent again in a session that did not
    negotiate ADD-PATH: it lets through exactly the UPDATEs that mean the same
    there as they meant where they were captured. */
module Replay {
  import opened Collections
  import opened Wire
  import opened Bgp
  import opened Update

  const PLAIN := FromSubtype(false)

  /** An MP attribute brings Path Identifiers: its family does, and it has NLRI. */
  predicate BringsIDs(a: Attribute, c: Context)
    requires IsMP(a) && Framed(a)
  {
    var offset := if a.code == MP_REACH then 5 + a.value[3] as int else 3;
    AddPathFor(c, FamilyOf(a).0, FamilyOf(a).1) && offset < |a.value|
  }

  predicate AttributesPass(attrs: seq<Attribute>, c: Context) {
    forall i :: 0 <= i < |attrs| && IsMP(attrs[i]) ==> Framed(attrs[i]) && !BringsIDs(attrs[i], c)
  }

  /** The loop of checkReplayUpdate over the attributes. */
  method CheckAttributes(attrs: seq<Attribute>, c: Context) returns (ok: bool)
    ensures ok == AttributesPass(attrs, c)
  {
    for i := 0 to |attrs|
      invariant forall j :: 0 <= j < i && IsMP(attrs[j]) ==> Framed(attrs[j]) && !BringsIDs(attrs[j], c)
    {
      var a := attrs[i];
      if !IsMP(a) { continue; }
      if |a.value| < 3 { return false; }
      var addPath := AddPathFor(c, U16(a.value, 0), a.value[2]);
      var offset := 3;
      if a.code == MP_REACH {
        if |a.value| < 5 { return false; }
        offset := 5 + a.value[3] as int;
      }
      if offset > |a.value| { return false; }
      if addPath && offset < |a.value| { return false; }
    }
    ok := true;
  }

  ghost predicate Accepts(opens: seq<byte> -> bool, data: seq<byte>, c: Context) {
    match ParseMessage(opens, data, c)
    case Refused => false
    case Control => true
    case Has(u) => |u.announced.ids| + |u.withdrawn.ids| == 0 && AttributesPass(u.attrs, c) && CountUpdate(u, c).clean
  }

  // ---------- what an UPDATE means ----------

  /** Everything a receiver reads from an UPDATE: prefixes and Path Identifiers of
      both IPv4 fields, the attributes, and each multiprotocol attribute decoded. */
  datatype Meaning = Meaning(withdrawn: Section, attrs: seq<Attribute>, announced: Section, mp: seq<Option<MP>>)

  function MPs(attrs: seq<Attribute>, c: Context): seq<Option<MP>> {
    seq(|attrs|, i requires 0 <= i < |attrs| => MPOf(attrs[i], c))
  }

  function MeaningOf(opens: seq<byte> -> bool, data: seq<byte>, c: Context): Option<Meaning> {
    match ParseMessage(opens, data, c)
    case Has(u) => Some(Meaning(u.withdrawn, u.attrs, u.announced, MPs(u.attrs, c)))
    case _ => None
  }

  /** Octets that decode cleanly yield at least one prefix. */
  lemma SomethingDecoded(data: seq<byte>, afi: uint16, addPath: bool)
    requires PrefixSection(data, afi, addPath, true).clean && data != []
    ensures PrefixSection(data, afi, addPath, true).prefixes != []
  {}

  lemma EmptySection(afi: uint16, addPath: bool)
    requires AddressSize(afi) != 0
    ensures PrefixSection([], afi, addPath, true) == EMPTY
  {}

  /** A clean section without Path Identifiers reads the same without them. */
  lemma SectionReadsPlain(data: seq<byte>, addPath: bool)
    requires PrefixSection(data, 1, addPath, true).clean && PrefixSection(data, 1, addPath, true).ids == []
    ensures PrefixSection(data, 1, addPath, true) == PrefixSection(data, 1, false, true)
  {
    if addPath {
      if data != [] { SomethingDecoded(data, 1, true); }
      EmptySection(1, true);
      EmptySection(1, false);
    }
  }

  lemma MPReadsPlain(a: Attribute, c: Context)
    requires IsMP(a) ==> Framed(a) && !BringsIDs(a, c)
    ensures MPOf(a, c) == MPOf(a, PLAIN)
  {}

  lemma {:induction false} CountsPlain(attrs: seq<Attribute>, code: byte, c: Context)
    requires forall i :: 0 <= i < |attrs| ==> MPOf(attrs[i], c) == MPOf(attrs[i], PLAIN)
    ensures PrefixesIn(attrs, code, c) == PrefixesIn(attrs, code, PLAIN)
  {
    if attrs != [] {
      var n := |attrs| - 1;
      assert MPOf(attrs[n], c) == MPOf(attrs[n], PLAIN);
      CountsPlain(attrs[..n], code, c);
    }
  }

  lemma UpdateCountsPlain(u: Update, c: Context)
    requires forall i :: 0 <= i < |u.attrs| ==> MPOf(u.attrs[i], c) == MPOf(u.attrs[i], PLAIN)
    ensures CountUpdate(u, c) == CountUpdate(u, PLAIN)
  {
    CountsPlain(u.attrs, MP_REACH, c);
    CountsPlain(u.attrs, MP_UNREACH, c);
  }

  /** An UPDATE that passes the gate means, and counts, the same in a session
      without ADD-PATH as in the context it was captured in. */
  lemma AcceptedMeansTheSame(opens: seq<byte> -> bool, data: seq<byte>, c: Context)
    requires ParseMessage(opens, data, c).Has? && Accepts(opens, data, c)
    ensures MeaningOf(opens, data, c) == MeaningOf(opens, data, PLAIN)
    ensures ParseMessage(opens, data, PLAIN).Has?
    ensures CountUpdate(ParseMessage(opens, data, c).update, c)
            == CountUpdate(ParseMessage(opens, data, PLAIN).update, PLAIN)
  {
    var u := ParseMessage(opens, data, c).update;
    var s := UpdateSections(data[19..]).value;
    var addPath := AddPathFor(c, 1, 1);
    SectionReadsPlain(s.withdrawn, addPath);
    SectionReadsPlain(s.nlri, addPath);
    forall i | 0 <= i < |u.attrs| ensures MPOf(u.attrs[i], c) == MPOf(u.attrs[i], PLAIN) {
      MPReadsPlain(u.attrs[i], c);
    }
    assert MPs(u.attrs, c) == MPs(u.attrs, PLAIN);
    UpdateCountsPlain(u, c);
  }

  lemma PlainHasNoIDs(data: seq<byte>, afi: uint16)
    ensures PrefixSection(data, afi, false, true).ids == []
  {}

  lemma SameMPNoIDs(a: Attribute, c: Context)
    requires IsMP(a) && Framed(a) && MPOf(a, c) == MPOf(a, PLAIN)
    requires MPOf(a, c).Some? && MPOf(a, c).value.section.clean
    ensures !BringsIDs(a, c)
  {
    if BringsIDs(a, c) {
      var offset := if a.code == MP_REACH then 5 + a.value[3] as int else 3;
      SomethingDecoded(a.value[offset..], U16(a.value, 0), true);
      PlainHasNoIDs(a.value[offset..], U16(a.value, 0));
    }
  }

  lemma AllSameNoIDs(u: Update, c: Context)
    requires MPs(u.attrs, c) == MPs(u.attrs, PLAIN) && CountUpdate(u, c).clean
    ensures forall i :: 0 <= i < |u.attrs| && IsMP(u.attrs[i]) && Framed(u.attrs[i]) ==> !BringsIDs(u.attrs[i], c)
  {
    forall i | 0 <= i < |u.attrs| && IsMP(u.attrs[i]) && Framed(u.attrs[i]) ensures !BringsIDs(u.attrs[i], c) {
      assert MPs(u.attrs, c)[i] == MPs(u.attrs, PLAIN)[i];
      assert MPClean(u.attrs[i], c);
      SameMPNoIDs(u.attrs[i], c);
    }
  }

  /** The gate is exact: an UPDATE passes if and only if it decodes and counts
      without error, its multiprotocol attributes hold their fixed fields, and it
      means the same in a session without ADD-PATH. */
  lemma AcceptsIffSameMeaning(opens: seq<byte> -> bool, data: seq<byte>, c: Context)
    requires ParseMessage(opens, data, c).Has?
    ensures var u := ParseMessage(opens, data, c).update;
            Accepts(opens, data, c) <==>
            && CountUpdate(u, c).clean
            && (forall i :: 0 <= i < |u.attrs| && IsMP(u.attrs[i]) ==> Framed(u.attrs[i]))
            && MeaningOf(opens, data, c) == MeaningOf(opens, data, PLAIN)
  {
    var u := ParseMessage(opens, data, c).update;
    if Accepts(opens, data, c) {
      AcceptedMeansTheSame(opens, data, c);
    } else if CountUpdate(u, c).clean && MeaningOf(opens, data, c) == MeaningOf(opens, data, PLAIN) {
      var s := UpdateSections(data[19..]).value;
      PlainHasNoIDs(s.withdrawn, 1);
      PlainHasNoIDs(s.nlri, 1);
      AllSameNoIDs(u, c);
    }
  }

  // ---------- every message ----------

  /** Sixteen octets of ones, and a length field that is the length. */
  predicate Whole(data: seq<byte>) {
    |data| >= 19 && (forall i :: 0 <= i < 16 ==> data[i] == 255) && data[16] as int * 256 + data[17] as int == |data|
  }

  /** Every prefix that it names was read, in the IPv4 fields and in MP_REACH_NLRI (14) and MP_UNREACH_NLRI (15). */
  predicate Clean(m: Meaning) {
    && m.withdrawn.clean && m.announced.clean && |m.mp| == |m.attrs|
    && forall i :: 0 <= i < |m.attrs| && m.attrs[i].code in {14, 15} ==> m.mp[i].Some? && m.mp[i].value.section.clean
  }

  /** Its multiprotocol attributes hold their fixed fields. */
  predicate HoldsFields(m: Meaning) {
    forall i :: 0 <= i < |m.attrs| ==>
      var value := m.attrs[i].value;
      && (m.attrs[i].code == 15 ==> |value| >= 3)
      && (m.attrs[i].code == 14 ==> |value| >= 5 && 5 + value[3] as int <= |value|)
  }

  /** An UPDATE (type octet 2) may be sent again if it has a meaning where it was captured, every prefix in it was
      read, its multiprotocol attributes hold their fields, and it means the same in a session without
      ADD-PATH.  Any other message may if it is whole and a NOTIFICATION, a KEEPALIVE, a
      ROUTE-REFRESH, or an OPEN whose body parses. */
  ghost predicate MayReplay(opens: seq<byte> -> bool, data: seq<byte>, c: Context) {
    if |data| >= 19 && data[18] == 2 then
      var meant := MeaningOf(opens, data, c);
      meant.Some? && Clean(meant.value) && HoldsFields(meant.value) && meant == MeaningOf(opens, data, PLAIN)
    else
      Whole(data) && (data[18] in {3, 4, 5} || (data[18] == 1 && opens(data[19..])))
  }

  /** What ParseMessage makes of the type octet of a whole message. */
  lemma ParsedByType(opens: seq<byte> -> bool, data: seq<byte>, c: Context)
    ensures !Whole(data) ==> ParseMessage(opens, data, c).Refused?
    ensures Whole(data) && data[18] == 2 ==>
              ParseMessage(opens, data, c) == match ParseUpdate(data[19..], c)
                                              case None => Refused
                                              case Some(u) => Has(u)
    ensures Whole(data) && data[18] != 2 ==>
              ParseMessage(opens, data, c)
              == if data[18] in {3, 4, 5} || (data[18] == 1 && opens(data[19..])) then Control else Refused
  {
    if |data| >= 19 { assert U16(data, 16) == data[16] as int * 256 + data[17] as int; }
  }

  /** A message means something exactly when it is a whole UPDATE whose body decodes. */
  lemma HasMeaningIff(opens: seq<byte> -> bool, data: seq<byte>, c: Context)
    ensures MeaningOf(opens, data, c).Some? <==> Whole(data) && data[18] == 2 && ParseUpdate(data[19..], c).Some?
  {
    ParsedByType(opens, data, c);
  }

  lemma CleanIsCounted(u: Update, c: Context)
    ensures Clean(Meaning(u.withdrawn, u.attrs, u.announced, MPs(u.attrs, c))) <==> CountUpdate(u, c).clean
  {
    var m := Meaning(u.withdrawn, u.attrs, u.announced, MPs(u.attrs, c));
    forall i | 0 <= i < |u.attrs|
      ensures (m.attrs[i].code in {14, 15} ==> m.mp[i].Some? && m.mp[i].value.section.clean) <==> MPClean(u.attrs[i], c)
    {}
  }

  lemma FieldsAreFramed(u: Update, c: Context)
    ensures HoldsFields(Meaning(u.withdrawn, u.attrs, u.announced, MPs(u.attrs, c))) <==> AllFramed(u.attrs)
  {
    forall i | 0 <= i < |u.attrs|
      ensures (IsMP(u.attrs[i]) ==> Framed(u.attrs[i])) <==>
              var value := u.attrs[i].value;
              && (u.attrs[i].code == 15 ==> |value| >= 3)
              && (u.attrs[i].code == 14 ==> |value| >= 5 && 5 + value[3] as int <= |value|)
    {}
  }

  /** The gate lets through exactly what may be sent again. */
  lemma AcceptsIff(opens: seq<byte> -> bool, data: seq<byte>, c: Context)
    ensures Accepts(opens, data, c) <==> MayReplay(opens, data, c)
  {
    ParsedByType(opens, data, c);
    if ParseMessage(opens, data, c).Has? {
      AcceptsIffSameMeaning(opens, data, c);
      CleanIsCounted(ParseMessage(opens, data, c).update, c);
      FieldsAreFramed(ParseMessage(opens, data, c).update, c);
    }
  }

  /** checkReplayUpdate; true stands for a nil error. */
  method CheckReplayUpdate(opens: seq<byte> -> bool, data: seq<byte>, c: Context) returns (ok: bool)
    ensures ok <==> MayReplay(opens, data, c)
  {
    AcceptsIff(opens, data, c);
    var parsed := ParseMessage(opens, data, c);
    if parsed.Refused? { return false; }
    if parsed.Control? { return true; }
    var u := parsed.update;
    if !u.withdrawn.clean || !u.announced.clean { return false; }
    if |u.announced.ids| + |u.withdrawn.ids| != 0 { return false; }
    ok := CheckAttributes(u.attrs, c);
    if !ok { return; }
    var n := CountUpdateNLRIs(opens, data, c);
    ok := n.clean;
  }
}
