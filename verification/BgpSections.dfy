/** ParseAttributes and parsePrefixesAFI lose nothing and invent nothing: a clean
    parse packs back to the input, and a damaged one is the clean parse of
    everything before the damage. */
module BgpSections {
  import opened Collections
  import opened Wire
  import opened Walker
  import opened Bgp

  // ---------- attributes ----------

  lemma AttributePacksBack(data: seq<byte>)
    requires FirstAttribute(data).Some?
    ensures var (a, n) := FirstAttribute(data).value; AttributeFits(a) && PackAttribute(a) == data[..n]
  {
    var (a, n) := FirstAttribute(data).value;
    if Extended(a.flags) { Put16OfU16(data, 2); }
    assert data[..n] == data[..2] + data[2..n - |a.value|] + data[n - |a.value|..n];
  }

  lemma PackedAttributeFirst(a: Attribute, rest: seq<byte>)
    requires AttributeFits(a)
    ensures FirstAttribute(PackAttribute(a) + rest) == Some((a, |PackAttribute(a)|))
  {
    var data, length := PackAttribute(a) + rest, |a.value|;
    if Extended(a.flags) {
      assert data == [a.flags, a.code] + Put16(length) + a.value + rest;
      U16Reads(data, 2, length);
      assert data[4..4 + length] == a.value;
    } else {
      assert data == [a.flags, a.code, length] + a.value + rest;
      assert data[3..3 + length] == a.value;
    }
  }

  lemma AttributeDecodes(a: Attribute)
    requires AttributeFits(a)
    ensures Decodes(FirstAttribute, PackAttribute, a)
  {
    forall rest: seq<byte> ensures FirstAttribute(PackAttribute(a) + rest) == Some((a, |PackAttribute(a)|)) {
      PackedAttributeFirst(a, rest);
    }
  }

  lemma AttributeHead()
    ensures PacksBack(FirstAttribute, PackAttribute)
    ensures forall d: seq<byte> :: FirstAttribute(d).Some? ==>
              Decodes(FirstAttribute, PackAttribute, FirstAttribute(d).value.0)
  {
    forall d: seq<byte> | FirstAttribute(d).Some?
      ensures PackAttribute(FirstAttribute(d).value.0) == d[..FirstAttribute(d).value.1]
      ensures Decodes(FirstAttribute, PackAttribute, FirstAttribute(d).value.0)
    {
      AttributePacksBack(d);
      AttributeDecodes(FirstAttribute(d).value.0);
    }
  }

  /** A section parses cleanly exactly when it is what its attributes pack to; on
      damage the attributes are the clean parse of a proper prefix, up to
      something that is not an attribute. */
  lemma AttributesExact(data: seq<byte>)
    ensures Attributes(data).clean <==> Flat(PackAttribute, Attributes(data).items) == data
    ensures !Attributes(data).clean ==>
              exists n :: 0 <= n < |data| && FirstAttribute(data[n..]).None?
                          && Attributes(data[..n]).items == Attributes(data).items && Attributes(data[..n]).clean
  {
    AttributeHead();
    WalkExact(FirstAttribute, PackAttribute, data);
    if !Attributes(data).clean { WalkSalvage(FirstAttribute, PackAttribute, data); }
  }

  /** Attributes that fit their length fields survive packing and parsing. */
  lemma PackedAttributesParse(attrs: seq<Attribute>)
    requires forall i :: 0 <= i < |attrs| ==> AttributeFits(attrs[i])
    ensures Attributes(Flat(PackAttribute, attrs)).items == attrs && Attributes(Flat(PackAttribute, attrs)).clean
  {
    forall i | 0 <= i < |attrs| ensures Decodes(FirstAttribute, PackAttribute, attrs[i]) { AttributeDecodes(attrs[i]); }
    PackedWalks(FirstAttribute, PackAttribute, attrs);
  }

  // ---------- prefixes ----------

  lemma PrefixPacksBack(data: seq<byte>, size: nat, addPath: bool)
    requires FirstPrefix(data, size, addPath).Some?
    ensures var (p, n) := FirstPrefix(data, size, addPath).value;
            NlriFits(p, size, addPath) && PackPrefix(p, addPath) == data[..n]
  {
    var (p, n) := FirstPrefix(data, size, addPath).value;
    var off := if addPath then 4 else 0;
    if addPath { Put32OfU32(data, 0); }
    assert p.prefix.addr[..Octets(p.prefix.bits)] == data[off + 1..n];
    assert data[..n] == data[..off] + [data[off]] + data[off + 1..n];
  }

  lemma PrefixDecodes(p: Nlri, size: nat, addPath: bool)
    requires NlriFits(p, size, addPath)
    ensures Decodes(PrefixHead(size, addPath), PrefixPacker(addPath), p)
  {
    forall rest: seq<byte>
      ensures FirstPrefix(PackPrefix(p, addPath) + rest, size, addPath) == Some((p, |PackPrefix(p, addPath)|))
    {
      var data := PackPrefix(p, addPath) + rest;
      var off, n := if addPath then 4 else 0, Octets(p.prefix.bits);
      if addPath { U32Reads(data, 0, p.pathID); }
      assert data[off + 1..off + 1 + n] == p.prefix.addr[..n];
      assert p.prefix.addr == Padded(p.prefix.addr[..n], size);
    }
  }

  lemma PrefixHeads(size: nat, addPath: bool)
    ensures PacksBack(PrefixHead(size, addPath), PrefixPacker(addPath))
    ensures forall d: seq<byte> :: PrefixHead(size, addPath)(d).Some? ==>
              Decodes(PrefixHead(size, addPath), PrefixPacker(addPath), PrefixHead(size, addPath)(d).value.0)
  {
    var head, pack := PrefixHead(size, addPath), PrefixPacker(addPath);
    forall d: seq<byte> | head(d).Some?
      ensures pack(head(d).value.0) == d[..head(d).value.1] && Decodes(head, pack, head(d).value.0)
    {
      PrefixPacksBack(d, size, addPath);
      PrefixDecodes(head(d).value.0, size, addPath);
    }
  }

  /** The same of a packed prefix section, with or without Path Identifiers. */
  lemma PrefixesExact(data: seq<byte>, size: nat, addPath: bool)
    ensures var head := PrefixHead(size, addPath); var w := Walk(head, data);
            && (w.clean <==> Flat(PrefixPacker(addPath), w.items) == data)
            && (!w.clean ==> exists n :: 0 <= n < |data| && head(data[n..]).None?
                                         && Walk(head, data[..n]).items == w.items && Walk(head, data[..n]).clean)
  {
    var head, pack := PrefixHead(size, addPath), PrefixPacker(addPath);
    PrefixHeads(size, addPath);
    WalkExact(head, pack, data);
    if !Walk(head, data).clean { WalkSalvage(head, pack, data); }
  }

  lemma PackedPrefixesParse(ns: seq<Nlri>, size: nat, addPath: bool)
    requires forall i :: 0 <= i < |ns| ==> NlriFits(ns[i], size, addPath)
    ensures var w := Walk(PrefixHead(size, addPath), Flat(PrefixPacker(addPath), ns)); w.items == ns && w.clean
  {
    var head, pack := PrefixHead(size, addPath), PrefixPacker(addPath);
    forall i | 0 <= i < |ns| ensures Decodes(head, pack, ns[i]) { PrefixDecodes(ns[i], size, addPath); }
    PackedWalks(head, pack, ns);
  }

  lemma PrefixFitsAt(data: seq<byte>, size: nat, addPath: bool, i: nat)
    requires i < |Walk(PrefixHead(size, addPath), data).items|
    ensures NlriFits(Walk(PrefixHead(size, addPath), data).items[i], size, addPath)
  {
    var head := PrefixHead(size, addPath);
    WalkedItems(head, data, i);
    var d: seq<byte> :| head(d).Some? && head(d).value.0 == Walk(head, data).items[i];
    PrefixPacksBack(d, size, addPath);
  }

  /** What a caller of parsePrefixesAFI gets: no prefix longer than its family, one
      retained Path Identifier for each prefix or none at all, and nothing of a
      family it does not handle. */
  lemma PrefixSectionShape(data: seq<byte>, afi: uint16, addPath: bool, retain: bool)
    ensures var r := PrefixSection(data, afi, addPath, retain);
            && |r.ids| == (if addPath && retain then |r.prefixes| else 0)
            && (forall i :: 0 <= i < |r.prefixes| ==>
                  r.prefixes[i].bits <= 8 * AddressSize(afi) && |r.prefixes[i].addr| == AddressSize(afi))
            && (AddressSize(afi) == 0 ==> r.prefixes == [] && !r.clean)
  {
    var r := PrefixSection(data, afi, addPath, retain);
    forall i | 0 <= i < |r.prefixes|
      ensures r.prefixes[i].bits <= 8 * AddressSize(afi) && |r.prefixes[i].addr| == AddressSize(afi)
    {
      PrefixFitsAt(data, AddressSize(afi), addPath, i);
    }
  }
}
