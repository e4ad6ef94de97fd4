/** Octets and big-endian integers. */
module Wire {
  type byte = x: int | 0 <= x < 256
  type uint16 = x: int | 0 <= x < 0x1_0000
  type uint32 = x: int | 0 <= x < 0x1_0000_0000

  /** An address family: AFI and SAFI. */
  type Family = (uint16, byte)

  const IPV4_UNICAST: Family := (1, 1)

  function U16(data: seq<byte>, off: nat): uint16
    requires off + 2 <= |data|
  {
    data[off] as int * 256 + data[off + 1] as int
  }

  function U32(data: seq<byte>, off: nat): uint32
    requires off + 4 <= |data|
  {
    U16(data, off) as int * 0x1_0000 + U16(data, off + 2) as int
  }

  function Put16(n: uint16): (r: seq<byte>)
    ensures |r| == 2 && U16(r, 0) == n
  {
    [n / 256, n % 256]
  }

  function Put32(n: uint32): (r: seq<byte>)
    ensures |r| == 4 && U32(r, 0) == n
  {
    var high, low := n / 0x1_0000, n % 0x1_0000;
    [high / 256, high % 256, low / 256, low % 256]
  }

  lemma Put16OfU16(data: seq<byte>, off: nat)
    requires off + 2 <= |data|
    ensures Put16(U16(data, off)) == data[off..off + 2]
  {}

  lemma Put32OfU32(data: seq<byte>, off: nat)
    requires off + 4 <= |data|
    ensures Put32(U32(data, off)) == data[off..off + 4]
  {
    var n, high, low := U32(data, off), U16(data, off), U16(data, off + 2);
    assert n / 0x1_0000 == high && n % 0x1_0000 == low;
    assert high / 256 == data[off] && high % 256 == data[off + 1];
    assert low / 256 == data[off + 2] && low % 256 == data[off + 3];
  }

  /** The number that octets stand for, the most significant first. */
  function Value(octets: seq<byte>): nat {
    if octets == [] then 0 else 256 * Value(octets[..|octets| - 1]) + octets[|octets| - 1]
  }

  lemma U16IsValue(data: seq<byte>, off: nat)
    requires off + 2 <= |data|
    ensures U16(data, off) == Value(data[off..off + 2])
  {
    var o := data[off..off + 2];
    var front := o[..1];
    assert front[..0] == [] && front[0] == data[off] && o[1] == data[off + 1];
    assert Value(front) == 256 * Value(front[..0]) + front[0];
    assert Value(o) == 256 * Value(front) + o[1];
  }

  lemma U32IsValue(data: seq<byte>, off: nat)
    requires off + 4 <= |data|
    ensures U32(data, off) == Value(data[off..off + 4])
  {
    var o := data[off..off + 4];
    var front := o[..3];
    U16IsValue(data, off);
    assert front[..2] == data[off..off + 2] && front[2] == data[off + 2] && o[3] == data[off + 3];
    assert Value(front) == 256 * Value(front[..2]) + front[2];
    assert Value(o) == 256 * Value(front) + o[3];
  }

  /** A field that holds Put16(n), or Put32(n), reads n. */
  lemma U16Reads(data: seq<byte>, off: nat, n: uint16)
    requires off + 2 <= |data| && data[off..off + 2] == Put16(n)
    ensures U16(data, off) == n
  {
    assert data[off] == Put16(n)[0] && data[off + 1] == Put16(n)[1];
  }

  lemma U32Reads(data: seq<byte>, off: nat, n: uint32)
    requires off + 4 <= |data| && data[off..off + 4] == Put32(n)
    ensures U32(data, off) == n
  {
    var p := Put32(n);
    assert data[off] == p[0] && data[off + 1] == p[1] && data[off + 2] == p[2] && data[off + 3] == p[3];
  }

  lemma Assoc<T>(a: seq<T>, b: seq<T>, c: seq<T>)
    ensures (a + b) + c == a + (b + c)
  {}

  lemma TailOfTail<T>(data: seq<T>, off: nat, n: nat)
    requires off + n <= |data|
    ensures data[off..][n..] == data[off + n..]
  {}

  lemma SliceOfTail<T>(data: seq<T>, off: nat, i: nat, j: nat)
    requires i <= j && off + j <= |data|
    ensures data[off..][i..j] == data[off + i..off + j]
  {}

  /** Where the fields of a record lie. */
  lemma Fields<T>(a: seq<T>, b: seq<T>, c: seq<T>, d: seq<T>, rest: seq<T>)
    ensures var s := a + b + c + d + rest;
            && s[..|a|] == a
            && s[|a|..|a| + |b|] == b
            && s[|a| + |b|..|a| + |b| + |c|] == c
            && s[|a| + |b| + |c|..|a| + |b| + |c| + |d|] == d
            && s[|a| + |b| + |c| + |d|..] == rest
  {}

  /** uint16(n) of a count or a length. */
  function Low16(n: nat): (r: uint16)
    ensures n < 0x1_0000 ==> r == n
  {
    n % 0x1_0000
  }

  function Low8(n: nat): (r: byte)
    ensures n < 256 ==> r == n
  {
    n % 256
  }

  /** One octet, many times. */
  function Filled(n: nat, b: byte): (r: seq<byte>)
    ensures |r| == n && forall i :: 0 <= i < n ==> r[i] == b
  {
    if n == 0 then [] else Filled(n - 1, b) + [b]
  }

  function Zeros(n: nat): (r: seq<byte>)
    ensures |r| == n && forall i :: 0 <= i < n ==> r[i] == 0
  {
    Filled(n, 0)
  }

  /** Octets in an address of the family; 0 when the family is not handled. */
  function AddressSize(afi: uint16): nat {
    if afi == 1 then 4 else if afi == 2 then 16 else 0
  }

  /** IsAS4Subtype: BGP4MP subtypes with four-octet AS numbers. */
  predicate AS4Subtype(subtype: uint16) {
    subtype in {4, 5, 7, 9, 11}
  }
}
