/** Whole UPDATEs: decoding one loses nothing exactly when no field was damaged, and
    an UPDATE whose fields fit survives packing and parsing, header and all
    (section 4.3 of RFC 4271, sections 3 and 4 of RFC 4760). */
module UpdateRoundTrips {
  import opened Collections
  import opened Wire
  import opened Walker
  import opened Bgp
  import opened BgpSections
  import opened Update

  // ---------- the three fields of a body ----------

  function PackSections(s: Sections): (r: seq<byte>)
    ensures |r| == 4 + |s.withdrawn| + |s.attrs| + |s.nlri|
  {
    Put16(Low16(|s.withdrawn|)) + s.withdrawn + Put16(Low16(|s.attrs|)) + s.attrs + s.nlri
  }

  predicate SectionsFit(s: Sections) {
    |s.withdrawn| < 0x1_0000 && |s.attrs| < 0x1_0000
  }

  lemma PackedSectionsSplit(s: Sections)
    requires SectionsFit(s)
    ensures UpdateSections(PackSections(s)) == Some(s)
  {
    var body, wd, al := PackSections(s), |s.withdrawn|, |s.attrs|;
    Fields(Put16(wd), s.withdrawn, Put16(al), s.attrs, s.nlri);
    U16Reads(body, 0, wd);
    U16Reads(body, 2 + wd, al);
  }

  /** Three fields survive packing and splitting exactly when the first two fit their lengths. */
  lemma SectionsRoundTrip(s: Sections)
    ensures UpdateSections(PackSections(s)) == Some(s) <==> SectionsFit(s)
  {
    if SectionsFit(s) { PackedSectionsSplit(s); }
  }

  lemma FiveParts<T>(body: seq<T>, a: nat, b: nat, c: nat, d: nat)
    requires a <= b <= c <= d <= |body|
    ensures body[..a] + body[a..b] + body[b..c] + body[c..d] + body[d..] == body
  {}

  /** Splitting a body loses no octet of it. */
  lemma SectionsPackBack(body: seq<byte>)
    requires UpdateSections(body).Some?
    ensures SectionsFit(UpdateSections(body).value) && PackSections(UpdateSections(body).value) == body
  {
    var at: nat := 2 + U16(body, 0);
    var al: nat := U16(body, at);
    Put16OfU16(body, 0);
    Put16OfU16(body, at);
    FiveParts(body, 2, at, at + 2, at + 2 + al);
  }

  // ---------- prefix fields ----------

  /** Prefixes and identifiers paired up again. */
  predicate Paired(s: Section, addPath: bool) {
    |s.ids| == if addPath then |s.prefixes| else 0
  }

  function Nlris(s: Section, addPath: bool): (ns: seq<Nlri>)
    requires Paired(s, addPath)
    ensures |ns| == |s.prefixes|
    ensures forall i :: 0 <= i < |ns| ==> ns[i] == Nlri(if addPath then s.ids[i] else 0, s.prefixes[i])
  {
    seq(|s.prefixes|, i requires 0 <= i < |s.prefixes| => Nlri(if addPath then s.ids[i] else 0, s.prefixes[i]))
  }

  function PackPrefixes(s: Section, addPath: bool): seq<byte>
    requires Paired(s, addPath)
  {
    Flat(PrefixPacker(addPath), Nlris(s, addPath))
  }

  lemma NlrisOfWalk(data: seq<byte>, afi: uint16, addPath: bool)
    requires AddressSize(afi) != 0
    ensures var s := PrefixSection(data, afi, addPath, true);
            Paired(s, addPath) && Nlris(s, addPath) == Walk(PrefixHead(AddressSize(afi), addPath), data).items
  {
    var items := Walk(PrefixHead(AddressSize(afi), addPath), data).items;
    forall i | 0 <= i < |items| ensures !addPath ==> items[i].pathID == 0 {
      PrefixFitsAt(data, AddressSize(afi), addPath, i);
    }
  }

  /** Packed again, a prefix field is the input up to the damage. */
  lemma PrefixFieldExact(data: seq<byte>, afi: uint16, addPath: bool)
    requires AddressSize(afi) != 0
    ensures var s := PrefixSection(data, afi, addPath, true);
            && Paired(s, addPath) && PackPrefixes(s, addPath) <= data
            && (s.clean <==> PackPrefixes(s, addPath) == data)
  {
    NlrisOfWalk(data, afi, addPath);
    PrefixHeads(AddressSize(afi), addPath);
    WalkExact(PrefixHead(AddressSize(afi), addPath), PrefixPacker(addPath), data);
  }

  ghost predicate PrefixFieldFits(s: Section, afi: uint16, addPath: bool) {
    && s.clean && Paired(s, addPath)
    && forall i :: 0 <= i < |s.prefixes| ==> NlriFits(Nlris(s, addPath)[i], AddressSize(afi), addPath)
  }

  lemma PackedPrefixFieldParses(s: Section, afi: uint16, addPath: bool)
    requires AddressSize(afi) != 0 && PrefixFieldFits(s, afi, addPath)
    ensures PrefixSection(PackPrefixes(s, addPath), afi, addPath, true) == s
  {
    PackedPrefixesParse(Nlris(s, addPath), AddressSize(afi), addPath);
    assert PrefixesOf(Nlris(s, addPath)) == s.prefixes;
    if addPath { assert IDsOf(Nlris(s, addPath)) == s.ids; } else { assert s.ids == []; }
  }

  // ---------- bodies ----------

  predicate Pairs(u: Update, addPath: bool) {
    Paired(u.withdrawn, addPath) && Paired(u.announced, addPath)
  }

  function FieldsOf(u: Update, addPath: bool): Sections
    requires Pairs(u, addPath)
  {
    Sections(PackPrefixes(u.withdrawn, addPath), Flat(PackAttribute, u.attrs), PackPrefixes(u.announced, addPath))
  }

  function PackUpdate(u: Update, addPath: bool): seq<byte>
    requires Pairs(u, addPath)
  {
    PackSections(FieldsOf(u, addPath))
  }

  /** An UPDATE that parses packs back to its body exactly when neither prefix field
      was damaged. */
  lemma UpdateExact(body: seq<byte>, c: Context)
    requires ParseUpdate(body, c).Some?
    ensures var u, addPath := ParseUpdate(body, c).value, AddPathFor(c, 1, 1);
            Pairs(u, addPath) && (u.withdrawn.clean && u.announced.clean <==> PackUpdate(u, addPath) == body)
  {
    var u, addPath, s := ParseUpdate(body, c).value, AddPathFor(c, 1, 1), UpdateSections(body).value;
    PrefixFieldExact(s.withdrawn, 1, addPath);
    PrefixFieldExact(s.nlri, 1, addPath);
    AttributesExact(s.attrs);
    SectionsPackBack(body);
    ShorterFieldsShow(FieldsOf(u, addPath), s);
  }

  /** Cutting a prefix field short shows in the packed body. */
  lemma ShorterFieldsShow(a: Sections, b: Sections)
    requires a.withdrawn <= b.withdrawn && a.attrs == b.attrs && a.nlri <= b.nlri
    ensures PackSections(a) == PackSections(b) <==> a.withdrawn == b.withdrawn && a.nlri == b.nlri
  {
    assert |a.withdrawn| == |b.withdrawn| ==> a.withdrawn == b.withdrawn;
    assert |a.nlri| == |b.nlri| ==> a.nlri == b.nlri;
  }

  ghost predicate UpdateFits(u: Update, c: Context) {
    var addPath := AddPathFor(c, 1, 1);
    && PrefixFieldFits(u.withdrawn, 1, addPath) && PrefixFieldFits(u.announced, 1, addPath)
    && (forall i :: 0 <= i < |u.attrs| ==> AttributeFits(u.attrs[i]))
    && var s := FieldsOf(u, addPath); SectionsFit(s) && ContextAnswers(c, s.withdrawn, u.attrs, s.nlri)
  }

  /** An UPDATE that fits, in a context that answers for it, survives packing and parsing. */
  lemma PackedUpdateParses(u: Update, c: Context)
    requires UpdateFits(u, c)
    ensures ParseUpdate(PackUpdate(u, AddPathFor(c, 1, 1)), c) == Some(u)
  {
    var addPath := AddPathFor(c, 1, 1);
    PackedSectionsSplit(FieldsOf(u, addPath));
    PackedAttributesParse(u.attrs);
    PackedPrefixFieldParses(u.withdrawn, 1, addPath);
    PackedPrefixFieldParses(u.announced, 1, addPath);
  }

  // ---------- messages ----------

  function Marker(): (r: seq<byte>)
    ensures |r| == 16 && forall i :: 0 <= i < 16 ==> r[i] == 255
  {
    Filled(16, 255)
  }

  /** The header of an UPDATE and its body. */
  function PackMessage(body: seq<byte>): (r: seq<byte>)
    ensures |r| == 19 + |body|
  {
    Marker() + Put16(Low16(19 + |body|)) + [2] + body
  }

  lemma MessageParts(body: seq<byte>)
    ensures var msg := PackMessage(body);
            && msg[19..] == body && msg[18] == 2
            && (forall i :: 0 <= i < 16 ==> msg[i] == 255)
            && U16(msg, 16) == Low16(19 + |body|)
  {
    var msg, length := PackMessage(body), Put16(Low16(19 + |body|));
    Fields(Marker(), length, [2], [], body);
    NoGap(Marker() + length + [2], body);
    U16Reads(msg, 16, Low16(19 + |body|));
    assert msg[18] == msg[18..19][0];
    forall i | 0 <= i < 16 ensures msg[i] == 255 { assert msg[i] == msg[..16][i]; }
  }

  lemma NoGap<T>(a: seq<T>, b: seq<T>)
    ensures a + [] + b == a + b
  {}

  /** A packed message parses as its body does, exactly as long as it fits its length field. */
  lemma PackedMessageParses(opens: seq<byte> -> bool, body: seq<byte>, c: Context)
    ensures ParseMessage(opens, PackMessage(body), c) ==
            if 19 + |body| <= 0xffff && ParseUpdate(body, c).Some? then Has(ParseUpdate(body, c).value) else Refused
  {
    MessageParts(body);
  }

  /** A whole UPDATE message survives packing and parsing exactly when it fits 65535 octets. */
  lemma MessageRoundTrip(opens: seq<byte> -> bool, u: Update, c: Context)
    requires UpdateFits(u, c)
    ensures var msg := PackMessage(PackUpdate(u, AddPathFor(c, 1, 1)));
            ParseMessage(opens, msg, c) == Has(u) <==> |msg| <= 0xffff
  {
    PackedUpdateParses(u, c);
    PackedMessageParses(opens, PackUpdate(u, AddPathFor(c, 1, 1)), c);
  }

  // ---------- multiprotocol attributes ----------

  function PackMPReach(family: Family, nextHop: seq<byte>, reserved: byte, nlri: seq<byte>): seq<byte> {
    Put16(family.0) + [family.1, Low8(|nextHop|)] + nextHop + [reserved] + nlri
  }

  function NlriField(nlri: seq<byte>, afi: uint16, addPath: bool): Section {
    if nlri == [] then EMPTY else PrefixSection(nlri, afi, addPath, true)
  }

  /** An MP_REACH_NLRI value reads as it was put together, exactly when its next hop has
      a length that is known; the reserved octet does not matter. */
  lemma PackedMPReachParses(family: Family, nextHop: seq<byte>, reserved: byte, nlri: seq<byte>, addPath: bool)
    requires |nextHop| < 256
    ensures ParseMPReach(PackMPReach(family, nextHop, reserved, nlri), addPath) ==
            if |nextHop| in {4, 16, 32} then Some(MP(family, nextHop, NlriField(nlri, family.0, addPath))) else None
  {
    var value, n := PackMPReach(family, nextHop, reserved, nlri), |nextHop|;
    Fields(Put16(family.0), [family.1, n], nextHop, [reserved], nlri);
    U16Reads(value, 0, family.0);
    assert value[2] == value[2..4][0] && value[3] == value[2..4][1];
  }

  function PackMPUnreach(family: Family, nlri: seq<byte>): seq<byte> {
    Put16(family.0) + [family.1] + nlri
  }

  lemma PackedMPUnreachParses(family: Family, nlri: seq<byte>, addPath: bool)
    ensures ParseMPUnreach(PackMPUnreach(family, nlri), addPath) == Some(MP(family, [], NlriField(nlri, family.0, addPath)))
  {
    var value := PackMPUnreach(family, nlri);
    Fields(Put16(family.0), [family.1], [], [], nlri);
    NoGap(Put16(family.0) + [family.1], nlri);
    NoGap(Put16(family.0) + [family.1] + [], nlri);
    U16Reads(value, 0, family.0);
    assert value[2] == value[2..3][0];
  }
}
