/** UPDATE messages in their MRT context: which families carry Path Identifiers,
    what an UPDATE decodes to, and how many prefixes it moves. */
module Update {
  import opened Collections
  import opened Wire
  import opened Bgp

  // ---------- context ----------

  /** Where the answer "does this family carry Path Identifiers?" comes from: the
      record's subtype, or both OPENs and the direction of the message. */
  datatype Context = FromSubtype(addPath: bool) | FromOpens(carries: (uint16, byte) -> bool)

  /** BGPMessage.AddPathFor. */
  predicate AddPathFor(c: Context, afi: uint16, safi: byte) {
    if c.FromSubtype? then c.addPath else c.carries(afi, safi)
  }

  const NO_FAMILY: Family := (0, 0)

  predicate IsMP(a: Attribute) {
    a.code == MP_REACH || a.code == MP_UNREACH
  }

  /** Long enough for the fields before the NLRI, the reserved octet included. */
  predicate Framed(a: Attribute) {
    && |a.value| >= 3
    && (a.code == MP_REACH ==> |a.value| >= 5 && 5 + a.value[3] as int <= |a.value|)
  }

  function FamilyOf(a: Attribute): Family
    requires |a.value| >= 3
  {
    (U16(a.value, 0), a.value[2])
  }

  /** Some prefix field is not empty, which speaks for IPv4 unicast. */
  predicate HasIPv4(withdrawn: seq<byte>, nlri: seq<byte>) {
    |withdrawn| + |nlri| != 0
  }

  predicate AllFramed(attrs: seq<Attribute>) {
    forall i :: 0 <= i < |attrs| && IsMP(attrs[i]) ==> Framed(attrs[i])
  }

  /** Every multiprotocol attribute is of IPv4 unicast. */
  predicate AllIPv4(attrs: seq<Attribute>)
    requires AllFramed(attrs)
  {
    forall i :: 0 <= i < |attrs| && IsMP(attrs[i]) ==> FamilyOf(attrs[i]) == IPV4_UNICAST
  }

  /** After a multiprotocol attribute of any family but (0, 0), all are of that family. */
  predicate Settled(attrs: seq<Attribute>)
    requires AllFramed(attrs)
  {
    forall i, j :: 0 <= i < j < |attrs| && IsMP(attrs[i]) && IsMP(attrs[j]) && FamilyOf(attrs[i]) != NO_FAMILY ==>
      FamilyOf(attrs[j]) == FamilyOf(attrs[i])
  }

  /** What updateContext asks when only the subtype speaks. */
  predicate Unambiguous(withdrawn: seq<byte>, attrs: seq<Attribute>, nlri: seq<byte>) {
    AllFramed(attrs) && Settled(attrs) && (HasIPv4(withdrawn, nlri) ==> AllIPv4(attrs))
  }

  predicate ContextAnswers(c: Context, withdrawn: seq<byte>, attrs: seq<Attribute>, nlri: seq<byte>) {
    c.FromSubtype? && c.addPath ==> Unambiguous(withdrawn, attrs, nlri)
  }

  /** `first` after the loop has passed the attributes: what later families must equal. */
  ghost predicate FirstIs(first: Family, ipv4: bool, attrs: seq<Attribute>)
    requires AllFramed(attrs)
  {
    if ipv4 then first == IPV4_UNICAST && AllIPv4(attrs)
    else
      && (forall i :: 0 <= i < |attrs| && IsMP(attrs[i]) ==> FamilyOf(attrs[i]) in {NO_FAMILY, first})
      && (first != NO_FAMILY ==> exists i :: 0 <= i < |attrs| && IsMP(attrs[i]) && FamilyOf(attrs[i]) == first)
  }

  lemma FirstNext(first: Family, ipv4: bool, attrs: seq<Attribute>, a: Attribute)
    requires AllFramed(attrs) && Settled(attrs) && FirstIs(first, ipv4, attrs)
    ensures AllFramed(attrs + [a]) <==> IsMP(a) ==> Framed(a)
    ensures !IsMP(a) ==> Settled(attrs + [a]) && FirstIs(first, ipv4, attrs + [a])
    ensures IsMP(a) && Framed(a) && first in {NO_FAMILY, FamilyOf(a)} ==>
              Settled(attrs + [a]) && FirstIs(FamilyOf(a), ipv4, attrs + [a])
    ensures IsMP(a) && Framed(a) && first !in {NO_FAMILY, FamilyOf(a)} ==>
              !(Settled(attrs + [a]) && (ipv4 ==> AllIPv4(attrs + [a])))
  {
    var more, n := attrs + [a], |attrs|;
    assert forall i :: 0 <= i < n ==> more[i] == attrs[i];
    assert more[n] == a;
    if !ipv4 && first != NO_FAMILY {
      var i :| 0 <= i < n && IsMP(attrs[i]) && FamilyOf(attrs[i]) == first;
      assert IsMP(more[i]) && FamilyOf(more[i]) == first;
    }
  }

  lemma PrefixUnambiguous(withdrawn: seq<byte>, attrs: seq<Attribute>, nlri: seq<byte>, n: nat)
    requires n <= |attrs| && Unambiguous(withdrawn, attrs, nlri)
    ensures Unambiguous(withdrawn, attrs[..n], nlri)
  {}

  /** updateContext, with its loop over the attributes. */
  method UpdateContext(c: Context, withdrawn: seq<byte>, attrs: seq<Attribute>, nlri: seq<byte>) returns (ok: bool)
    ensures ok == ContextAnswers(c, withdrawn, attrs, nlri)
  {
    if c.FromOpens? || !c.addPath { return true; }
    var first := NO_FAMILY;
    if |withdrawn| + |nlri| != 0 { first := IPV4_UNICAST; }
    for i := 0 to |attrs|
      invariant Unambiguous(withdrawn, attrs[..i], nlri)
      invariant FirstIs(first, HasIPv4(withdrawn, nlri), attrs[..i])
    {
      var a := attrs[i];
      FirstNext(first, HasIPv4(withdrawn, nlri), attrs[..i], a);
      assert attrs[..i + 1] == attrs[..i] + [a];
      if Unambiguous(withdrawn, attrs, nlri) { PrefixUnambiguous(withdrawn, attrs, nlri, i + 1); }
      if !IsMP(a) { continue; }
      if !Framed(a) { return false; }
      if first == NO_FAMILY {
        first := FamilyOf(a);
      } else if first != FamilyOf(a) {
        return false;
      }
    }
    assert attrs[..|attrs|] == attrs;
    ok := true;
  }

  // ---------- the promise not to mix families ----------

  /** All that speaks, prefix fields and multiprotocol attributes, speaks for one family. */
  predicate OneFamily(withdrawn: seq<byte>, attrs: seq<Attribute>, nlri: seq<byte>)
    requires AllFramed(attrs)
  {
    && (HasIPv4(withdrawn, nlri) ==> AllIPv4(attrs))
    && forall i, j :: 0 <= i < j < |attrs| && IsMP(attrs[i]) && IsMP(attrs[j]) ==> FamilyOf(attrs[i]) == FamilyOf(attrs[j])
  }

  /** The zero value of `first` stands for "no family yet", so AFI 0 with SAFI 0 is not noticed. */
  predicate Unnoticed(attrs: seq<Attribute>)
    requires AllFramed(attrs)
  {
    exists i, j :: 0 <= i < |attrs| && 0 <= j < |attrs| && IsMP(attrs[i]) && IsMP(attrs[j])
      && FamilyOf(attrs[i]) == NO_FAMILY && FamilyOf(attrs[j]) != NO_FAMILY
  }

  /** An UPDATE of one family is always let through; one that is let through is of one family
      if and only if it does not mix (0, 0) with another. */
  lemma OneFamilyIff(withdrawn: seq<byte>, attrs: seq<Attribute>, nlri: seq<byte>)
    requires AllFramed(attrs)
    ensures OneFamily(withdrawn, attrs, nlri) <==> Unambiguous(withdrawn, attrs, nlri) && !Unnoticed(attrs)
  {
    if Unambiguous(withdrawn, attrs, nlri) && !Unnoticed(attrs) {
      forall i, j | 0 <= i < j < |attrs| && IsMP(attrs[i]) && IsMP(attrs[j])
        ensures FamilyOf(attrs[i]) == FamilyOf(attrs[j])
      {
        assert FamilyOf(attrs[i]) == NO_FAMILY ==> FamilyOf(attrs[j]) == NO_FAMILY;
      }
    }
  }

  /** Two withdrawals, of (0, 0) and of IPv6 unicast: let through on the strength of the subtype. */
  lemma TwoFamiliesPass()
    ensures var attrs := [Attribute(0x80, MP_UNREACH, [0, 0, 0]), Attribute(0x80, MP_UNREACH, [0, 2, 1])];
            && AllFramed(attrs) && ContextAnswers(FromSubtype(true), [], attrs, []) && !OneFamily([], attrs, [])
  {
    var attrs := [Attribute(0x80, MP_UNREACH, [0, 0, 0]), Attribute(0x80, MP_UNREACH, [0, 2, 1])];
    assert FamilyOf(attrs[0]) == NO_FAMILY && FamilyOf(attrs[1]) == (2, 1);
  }

  // ---------- UPDATE bodies ----------

  datatype Sections = Sections(withdrawn: seq<byte>, attrs: seq<byte>, nlri: seq<byte>)

  /** updateSections. */
  function UpdateSections(body: seq<byte>): Option<Sections> {
    if |body| < 4 then None
    else
      var wd := U16(body, 0);
      if 2 + wd + 2 > |body| then None
      else
        var at := 2 + wd;
        var al := U16(body, at);
        if at + 2 + al > |body| then None
        else Some(Sections(body[2..at], body[at + 2..at + 2 + al], body[at + 2 + al..]))
  }

  datatype Update = Update(withdrawn: Section, attrs: seq<Attribute>, announced: Section)

  /** parseUpdate; damage inside a prefix section shows in that section. */
  function ParseUpdate(body: seq<byte>, c: Context): Option<Update> {
    match UpdateSections(body)
    case None => None
    case Some(s) =>
      var attrs := Attributes(s.attrs);
      if !attrs.clean || !ContextAnswers(c, s.withdrawn, attrs.items, s.nlri) then None
      else
        var addPath := AddPathFor(c, 1, 1);
        Some(Update(PrefixSection(s.withdrawn, 1, addPath, true), attrs.items,
                    PrefixSection(s.nlri, 1, addPath, true)))
  }

  datatype Message = Refused | Control | Has(update: Update)

  /** ParseBGPMessage.  Whether an OPEN body parses is the parameter `opens`. */
  function ParseMessage(opens: seq<byte> -> bool, data: seq<byte>, c: Context): Message {
    if |data| < 19 || (exists i :: 0 <= i < 16 && data[i] != 255) || U16(data, 16) != |data| then Refused
    else if data[18] == 1 then (if opens(data[19..]) then Control else Refused)
    else if data[18] == 2 then
      match ParseUpdate(data[19..], c)
      case None => Refused
      case Some(u) => Has(u)
    else if 3 <= data[18] <= 5 then Control
    else Refused
  }

  // ---------- multiprotocol attributes ----------

  datatype MP = MP(family: Family, nextHop: seq<byte>, section: Section)

  const EMPTY := Section([], [], true)

  /** ParseMPReach; an unusable next hop yields nothing. */
  function ParseMPReach(value: seq<byte>, addPath: bool): Option<MP> {
    if |value| < 4 || 4 + value[3] as int > |value| || value[3] !in {4, 16, 32} then None
    else
      var off := 4 + value[3];
      Some(MP((U16(value, 0), value[2]), value[4..off],
              if off + 1 < |value| then PrefixSection(value[off + 1..], U16(value, 0), addPath, true) else EMPTY))
  }

  function ParseMPUnreach(value: seq<byte>, addPath: bool): Option<MP> {
    if |value| < 3 then None
    else
      Some(MP((U16(value, 0), value[2]), [],
              if |value| > 3 then PrefixSection(value[3..], U16(value, 0), addPath, true) else EMPTY))
  }

  /** An MP attribute decoded with the mode its context gives its family. */
  function DecodeMP(a: Attribute, c: Context): Option<MP>
    requires |a.value| >= 3
  {
    var addPath := AddPathFor(c, FamilyOf(a).0, FamilyOf(a).1);
    if a.code == MP_REACH then ParseMPReach(a.value, addPath) else ParseMPUnreach(a.value, addPath)
  }

  // ---------- counting ----------

  datatype Count = Count(announced: nat, withdrawn: nat, clean: bool)

  /** A multiprotocol attribute as far as it decodes. */
  function MPOf(a: Attribute, c: Context): Option<MP> {
    if IsMP(a) && |a.value| >= 3 then DecodeMP(a, c) else None
  }

  /** The prefixes it announces or withdraws. */
  function Moved(a: Attribute, c: Context): nat {
    if MPOf(a, c).Some? then |MPOf(a, c).value.section.prefixes| else 0
  }

  /** The prefixes in all attributes with the code. */
  function PrefixesIn(attrs: seq<Attribute>, code: byte, c: Context): nat {
    if attrs == [] then 0
    else
      var a := attrs[|attrs| - 1];
      PrefixesIn(attrs[..|attrs| - 1], code, c) + if a.code == code then Moved(a, c) else 0
  }

  predicate MPClean(a: Attribute, c: Context) {
    IsMP(a) ==> MPOf(a, c).Some? && MPOf(a, c).value.section.clean
  }

  /** Announced are the prefixes of the NLRI field and of every MP_REACH_NLRI attribute,
      withdrawn those of the Withdrawn Routes field and of every MP_UNREACH_NLRI attribute. */
  function CountUpdate(u: Update, c: Context): Count {
    Count(
      |u.announced.prefixes| + PrefixesIn(u.attrs, MP_REACH, c),
      |u.withdrawn.prefixes| + PrefixesIn(u.attrs, MP_UNREACH, c),
      u.withdrawn.clean && u.announced.clean && forall i :: 0 <= i < |u.attrs| ==> MPClean(u.attrs[i], c))
  }

  lemma PrefixesNext(attrs: seq<Attribute>, i: nat, code: byte, c: Context)
    requires i < |attrs|
    ensures PrefixesIn(attrs[..i + 1], code, c)
         == PrefixesIn(attrs[..i], code, c) + if attrs[i].code == code then Moved(attrs[i], c) else 0
  {
    assert attrs[..i + 1][..i] == attrs[..i];
  }

  /** countUpdateNLRIs. */
  method CountUpdateNLRIs(opens: seq<byte> -> bool, data: seq<byte>, c: Context) returns (n: Count)
    ensures n == match ParseMessage(opens, data, c)
                 case Refused => Count(0, 0, false)
                 case Control => Count(0, 0, true)
                 case Has(u) => CountUpdate(u, c)
  {
    var parsed := ParseMessage(opens, data, c);
    if parsed.Refused? { return Count(0, 0, false); }
    if parsed.Control? { return Count(0, 0, true); }
    n := CountAttributes(parsed.update, c);
  }

  /** What one attribute adds to the counts, and whether it is undamaged. */
  method CountOne(a: Attribute, c: Context) returns (moved: nat, undamaged: bool)
    requires IsMP(a)
    ensures moved == Moved(a, c) && undamaged == MPClean(a, c)
  {
    if |a.value| < 3 { return 0, false; }
    var mp := DecodeMP(a, c);
    if mp.None? { return 0, false; }
    return |mp.value.section.prefixes|, mp.value.section.clean;
  }

  /** The count of an UPDATE with one attribute more. */
  function CountMore(n: Count, code: byte, moved: nat, undamaged: bool): Count {
    Count(
      n.announced + if code == MP_REACH then moved else 0,
      n.withdrawn + if code == MP_UNREACH then moved else 0,
      n.clean && undamaged)
  }

  lemma CountNext(u: Update, i: nat, c: Context)
    requires i < |u.attrs|
    ensures CountUpdate(u.(attrs := u.attrs[..i + 1]), c)
         == CountMore(CountUpdate(u.(attrs := u.attrs[..i]), c), u.attrs[i].code, Moved(u.attrs[i], c), MPClean(u.attrs[i], c))
  {
    PrefixesNext(u.attrs, i, MP_REACH, c);
    PrefixesNext(u.attrs, i, MP_UNREACH, c);
    assert forall j :: 0 <= j < i + 1 ==> u.attrs[..i + 1][j] == u.attrs[j];
  }

  /** Its loop over the attributes. */
  method CountAttributes(u: Update, c: Context) returns (n: Count)
    ensures n == CountUpdate(u, c)
  {
    n := Count(|u.announced.prefixes|, |u.withdrawn.prefixes|, u.withdrawn.clean && u.announced.clean);
    for i := 0 to |u.attrs|
      invariant n == CountUpdate(u.(attrs := u.attrs[..i]), c)
    {
      CountNext(u, i, c);
      if IsMP(u.attrs[i]) {
        var moved, undamaged := CountOne(u.attrs[i], c);
        n := CountMore(n, u.attrs[i].code, moved, undamaged);
      }
    }
    assert u.(attrs := u.attrs[..|u.attrs|]) == u;
  }
}
