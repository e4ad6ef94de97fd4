/** BGP messages as MRT records carry them: path attributes, packed prefixes and
    UPDATE bodies (section 4.3 of RFC 4271, sections 3 and 4 of RFC 4760, section 3
    of RFC 7911).  A false `clean` stands for a returned error. */
module Bgp {
  import opened Collections
  import opened Wire
  import opened Walker

  // ---------- path attributes ----------

  datatype Attribute = Attribute(flags: byte, code: byte, value: seq<byte>)

  const MP_REACH: byte := 14
  const MP_UNREACH: byte := 15

  /** Bit 0x10 of the attribute flags. */
  predicate Extended(flags: byte) {
    flags / 16 % 2 == 1
  }

  /** One turn of the loop of ParseAttributes. */
  function FirstAttribute(data: seq<byte>): (r: Option<(Attribute, nat)>)
    ensures r.Some? ==> 0 < r.value.1 <= |data|
  {
    if |data| < 3 || (Extended(data[0]) && |data| == 3) then None
    else
      var start := if Extended(data[0]) then 4 else 3;
      var length := if Extended(data[0]) then U16(data, 2) else data[2];
      if start + length > |data| then None
      else Some((Attribute(data[0], data[1], data[start..start + length]), start + length))
  }

  function Attributes(data: seq<byte>): Walked<Attribute> {
    Walk(FirstAttribute, data)
  }

  method ParseAttributes(data: seq<byte>) returns (attrs: seq<Attribute>, clean: bool)
    ensures attrs == Attributes(data).items && clean == Attributes(data).clean
  {
    attrs, clean := WalkAll(FirstAttribute, data);
  }

  predicate AttributeFits(a: Attribute) {
    |a.value| < if Extended(a.flags) then 0x1_0000 else 256
  }

  function PackAttribute(a: Attribute): seq<byte> {
    [a.flags, a.code] + (if Extended(a.flags) then Put16(Low16(|a.value|)) else [Low8(|a.value|)]) + a.value
  }

  // ---------- packed prefixes ----------

  /** netip.Prefix: an address of 4 or 16 octets and a length in bits. */
  datatype Prefix = Prefix(addr: seq<byte>, bits: nat)

  datatype Nlri = Nlri(pathID: uint32, prefix: Prefix)

  function Octets(bits: nat): nat {
    (bits + 7) / 8
  }

  function Padded(octets: seq<byte>, size: nat): seq<byte>
    requires |octets| <= size
  {
    octets + Zeros(size - |octets|)
  }

  /** One turn of the loop of parsePrefixesAFI. */
  function FirstPrefix(data: seq<byte>, size: nat, addPath: bool): (r: Option<(Nlri, nat)>)
    ensures r.Some? ==> 0 < r.value.1 <= |data|
  {
    var off := if addPath then 4 else 0;
    if off >= |data| then None
    else
      var bits := data[off];
      var end := off + 1 + Octets(bits);
      if bits > 8 * size || end > |data| then None
      else
        var pathID := if addPath then U32(data, 0) else 0;
        Some((Nlri(pathID, Prefix(Padded(data[off + 1..end], size), bits)), end))
  }

  function PrefixHead(size: nat, addPath: bool): Head<Nlri> {
    (data: seq<byte>) => FirstPrefix(data, size, addPath)
  }

  function PrefixesOf(ns: seq<Nlri>): (r: seq<Prefix>)
    ensures |r| == |ns| && forall i :: 0 <= i < |ns| ==> r[i] == ns[i].prefix
  {
    if ns == [] then [] else PrefixesOf(ns[..|ns| - 1]) + [ns[|ns| - 1].prefix]
  }

  function IDsOf(ns: seq<Nlri>): (r: seq<uint32>)
    ensures |r| == |ns| && forall i :: 0 <= i < |ns| ==> r[i] == ns[i].pathID
  {
    if ns == [] then [] else IDsOf(ns[..|ns| - 1]) + [ns[|ns| - 1].pathID]
  }

  /** Prefixes, and the Path Identifiers when they are there and asked for. */
  datatype Section = Section(prefixes: seq<Prefix>, ids: seq<uint32>, clean: bool)

  /** parsePrefixesAFI. */
  function PrefixSection(data: seq<byte>, afi: uint16, addPath: bool, retain: bool): Section {
    if AddressSize(afi) == 0 then Section([], [], false)
    else
      var w := Walk(PrefixHead(AddressSize(afi), addPath), data);
      Section(PrefixesOf(w.items), if addPath && retain then IDsOf(w.items) else [], w.clean)
  }

  method ParsePrefixesAFI(data: seq<byte>, afi: uint16, addPath: bool, retain: bool) returns (section: Section)
    ensures section == PrefixSection(data, afi, addPath, retain)
  {
    if AddressSize(afi) == 0 { return Section([], [], false); }
    var items, clean := WalkAll(PrefixHead(AddressSize(afi), addPath), data);
    var prefixes: seq<Prefix>, ids: seq<uint32> := [], [];
    for i := 0 to |items|
      invariant prefixes == PrefixesOf(items[..i]) && ids == if addPath && retain then IDsOf(items[..i]) else []
    {
      assert items[..i + 1][..i] == items[..i];
      prefixes := prefixes + [items[i].prefix];
      if addPath && retain { ids := ids + [items[i].pathID]; }
    }
    assert items[..|items|] == items;
    section := Section(prefixes, ids, clean);
  }

  predicate NlriFits(p: Nlri, size: nat, addPath: bool) {
    && |p.prefix.addr| == size && p.prefix.bits <= 8 * size && p.prefix.bits < 256
    && (forall i :: Octets(p.prefix.bits) <= i < size ==> p.prefix.addr[i] == 0)
    && (!addPath ==> p.pathID == 0)
  }

  function PackPrefix(p: Nlri, addPath: bool): seq<byte> {
    var n := Octets(p.prefix.bits);
    (if addPath then Put32(p.pathID) else []) + [Low8(p.prefix.bits)] +
    if n <= |p.prefix.addr| then p.prefix.addr[..n] else p.prefix.addr
  }

  function PrefixPacker(addPath: bool): Nlri -> seq<byte> {
    (p: Nlri) => PackPrefix(p, addPath)
  }
}
