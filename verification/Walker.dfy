/** A cursor loop over a packed section: decode the item at the front, step over
    it, and stop at the end or at the first octets that do not decode. */
module Walker {
  import opened Collections
  import opened Wire

  /** Decodes the front of a section: the item and the octets it takes. */
  type Head<T> = seq<byte> -> Option<(T, nat)>

  datatype Walked<T> = Walked(items: seq<T>, clean: bool)

  /** Every item up to the damage, if there is any. */
  function Walk<T>(head: Head<T>, data: seq<byte>): Walked<T>
    decreases |data|
  {
    if data == [] then Walked([], true)
    else
      match head(data)
      case None => Walked([], false)
      case Some((x, n)) =>
        if 0 < n <= |data| then
          var rest := Walk(head, data[n..]);
          Walked([x] + rest.items, rest.clean)
        else Walked([], false)
  }

  lemma AppendOne<T>(whole: seq<T>, items: seq<T>, x: T, rest: seq<T>)
    requires whole == items + ([x] + rest)
    ensures whole == (items + [x]) + rest
  {}

  /** The loop itself, with its cursor. */
  method WalkAll<T>(head: Head<T>, data: seq<byte>) returns (items: seq<T>, clean: bool)
    ensures items == Walk(head, data).items && clean == Walk(head, data).clean
  {
    ghost var whole := Walk(head, data);
    items := [];
    var off := 0;
    assert data[0..] == data;
    while off < |data|
      invariant 0 <= off <= |data|
      invariant whole.items == items + Walk(head, data[off..]).items
      invariant whole.clean == Walk(head, data[off..]).clean
    {
      var next := head(data[off..]);
      if next.None? || !(0 < next.value.1 <= |data| - off) { return items, false; }
      TailOfTail(data, off, next.value.1);
      AppendOne(whole.items, items, next.value.0, Walk(head, data[off + next.value.1..]).items);
      items := items + [next.value.0];
      off := off + next.value.1;
    }
    clean := true;
  }

  function Flat<T>(pack: T -> seq<byte>, items: seq<T>): seq<byte> {
    if items == [] then [] else pack(items[0]) + Flat(pack, items[1..])
  }

  lemma FlatCons<T>(pack: T -> seq<byte>, x: T, rest: seq<T>)
    ensures Flat(pack, [x] + rest) == pack(x) + Flat(pack, rest)
  {
    assert ([x] + rest)[1..] == rest;
  }

  /** Packing an item gives back the octets it was decoded from. */
  ghost predicate PacksBack<T>(head: Head<T>, pack: T -> seq<byte>) {
    forall d: seq<byte> :: head(d).Some? ==>
      0 < head(d).value.1 <= |d| && pack(head(d).value.0) == d[..head(d).value.1]
  }

  /** A packed item decodes to itself, whatever follows it. */
  ghost predicate Decodes<T>(head: Head<T>, pack: T -> seq<byte>, x: T) {
    |pack(x)| > 0 && forall rest: seq<byte> :: head(pack(x) + rest) == Some((x, |pack(x)|))
  }

  lemma PrefixThrough<T>(data: seq<T>, n: nat, packed: seq<T>)
    requires n <= |data| && packed <= data[n..]
    ensures data[..n] + packed <= data
    ensures packed == data[n..] <==> data[..n] + packed == data
    ensures data[n + |packed|..] == data[n..][|packed|..]
  {
    assert data == data[..n] + data[n..];
    if data[..n] + packed == data { assert packed == data[n..]; }
  }

  /** The items, packed again, are the input up to where the walk stopped: at the
      end if it was clean, at something that does not decode if not. */
  ghost predicate Exact<T>(head: Head<T>, pack: T -> seq<byte>, data: seq<byte>) {
    var w := Walk(head, data);
    var packed := Flat(pack, w.items);
    && packed <= data
    && (w.clean <==> packed == data)
    && (!w.clean ==> head(data[|packed|..]).None?)
  }

  lemma ExactStep<T>(head: Head<T>, pack: T -> seq<byte>, data: seq<byte>, x: T, n: nat)
    requires data != [] && head(data) == Some((x, n)) && 0 < n <= |data| && pack(x) == data[..n]
    requires Exact(head, pack, data[n..])
    ensures Exact(head, pack, data)
  {
    var rest := Walk(head, data[n..]).items;
    FlatCons(pack, x, rest);
    PrefixThrough(data, n, Flat(pack, rest));
  }

  lemma {:induction false} WalkExact<T>(head: Head<T>, pack: T -> seq<byte>, data: seq<byte>)
    requires PacksBack(head, pack)
    ensures Exact(head, pack, data)
    decreases |data|
  {
    if data != [] && head(data).Some? {
      var (x, n) := head(data).value;
      WalkExact(head, pack, data[n..]);
      ExactStep(head, pack, data, x, n);
    }
  }

  lemma {:induction false} PackedWalks<T>(head: Head<T>, pack: T -> seq<byte>, items: seq<T>)
    requires forall i :: 0 <= i < |items| ==> Decodes(head, pack, items[i])
    ensures Walk(head, Flat(pack, items)).items == items && Walk(head, Flat(pack, items)).clean
  {
    if items != [] {
      PackedWalks(head, pack, items[1..]);
      var rest := Flat(pack, items[1..]);
      assert Decodes(head, pack, items[0]);
      assert (pack(items[0]) + rest)[|pack(items[0])|..] == rest;
    }
  }

  /** Every item of a walk came off the front of something. */
  lemma {:induction false} WalkedItems<T>(head: Head<T>, data: seq<byte>, i: nat)
    requires i < |Walk(head, data).items|
    ensures exists d: seq<byte> :: head(d).Some? && head(d).value.0 == Walk(head, data).items[i]
    decreases |data|
  {
    if i > 0 { WalkedItems(head, data[head(data).value.1..], i - 1); }
  }

  /** What a damaged section yields is the whole clean walk of everything before the damage. */
  lemma WalkSalvage<T>(head: Head<T>, pack: T -> seq<byte>, data: seq<byte>)
    requires PacksBack(head, pack) && !Walk(head, data).clean
    requires forall d: seq<byte> :: head(d).Some? ==> Decodes(head, pack, head(d).value.0)
    ensures exists n :: 0 <= n < |data| && head(data[n..]).None?
                        && Walk(head, data[..n]).items == Walk(head, data).items && Walk(head, data[..n]).clean
  {
    var items := Walk(head, data).items;
    WalkExact(head, pack, data);
    forall i | 0 <= i < |items| ensures Decodes(head, pack, items[i]) {
      WalkedItems(head, data, i);
    }
    PackedWalks(head, pack, items);
    var n := |Flat(pack, items)|;
    assert data[..n] == Flat(pack, items);
  }

  // ---------- a given number of items ----------

  /** Exactly `count` items off the front, or nothing. */
  function Take<T>(head: Head<T>, data: seq<byte>, count: nat): Option<seq<T>>
    decreases count
  {
    if count == 0 then Some([])
    else
      match head(data)
      case None => None
      case Some((x, n)) =>
        if n > |data| then None
        else
          match Take(head, data[n..], count - 1)
          case None => None
          case Some(rest) => Some([x] + rest)
  }

  /** As many of `count` items as decode. */
  function TakeSome<T>(head: Head<T>, data: seq<byte>, count: nat): seq<T>
    decreases count
  {
    if count == 0 || head(data).None? || head(data).value.1 > |data| then []
    else [head(data).value.0] + TakeSome(head, data[head(data).value.1..], count - 1)
  }

  /** The strict loop: an item that does not decode fails the whole. */
  method TakeAll<T>(head: Head<T>, data: seq<byte>, count: nat) returns (r: Option<seq<T>>)
    ensures r.Some? == Take(head, data, count).Some?
    ensures r.Some? ==> r.value == Take(head, data, count).value
  {
    var items: seq<T>, off := [], 0;
    assert data[0..] == data;
    for i := 0 to count
      invariant 0 <= off <= |data|
      invariant Take(head, data, count).Some? == Take(head, data[off..], count - i).Some?
      invariant Take(head, data, count).Some? ==>
                  Take(head, data, count).value == items + Take(head, data[off..], count - i).value
    {
      var next := head(data[off..]);
      if next.None? || next.value.1 > |data| - off { return None; }
      TailOfTail(data, off, next.value.1);
      items := items + [next.value.0];
      off := off + next.value.1;
    }
    r := Some(items);
  }

  /** The lenient loop: it breaks off at the first item that does not decode. */
  method TakeUntil<T>(head: Head<T>, data: seq<byte>, count: nat) returns (items: seq<T>)
    ensures items == TakeSome(head, data, count)
  {
    ghost var whole := TakeSome(head, data, count);
    var rest, i := data, 0;
    items := [];
    while i < count
      invariant 0 <= i <= count && whole == items + TakeSome(head, rest, count - i)
    {
      var next := head(rest);
      if next.None? || next.value.1 > |rest| { return; }
      AppendOne(whole, items, next.value.0, TakeSome(head, rest[next.value.1..], count - i - 1));
      items := items + [next.value.0];
      rest := rest[next.value.1..];
      i := i + 1;
    }
  }

  lemma {:induction false} PackedTake<T>(head: Head<T>, pack: T -> seq<byte>, items: seq<T>, trailing: seq<byte>)
    requires forall i :: 0 <= i < |items| ==> Decodes(head, pack, items[i])
    ensures var r := Take(head, Flat(pack, items) + trailing, |items|); r.Some? && r.value == items
  {
    if items != [] {
      PackedTake(head, pack, items[1..], trailing);
      var first, rest := pack(items[0]), Flat(pack, items[1..]);
      assert Decodes(head, pack, items[0]);
      assert first + rest + trailing == first + (rest + trailing);
      assert (first + (rest + trailing))[|first|..] == rest + trailing;
    }
  }

  lemma {:induction false} TakenCount<T>(head: Head<T>, data: seq<byte>, count: nat)
    requires Take(head, data, count).Some?
    ensures |Take(head, data, count).value| == count
    decreases count
  {
    if count > 0 { TakenCount(head, data[head(data).value.1..], count - 1); }
  }

  lemma {:induction false} TakenItems<T>(head: Head<T>, data: seq<byte>, count: nat, i: nat)
    requires Take(head, data, count).Some? && i < count
    ensures |Take(head, data, count).value| == count
    ensures exists d: seq<byte> :: head(d).Some? && head(d).value.0 == Take(head, data, count).value[i]
    decreases count
  {
    var (x, n) := head(data).value;
    if count > 1 { TakenItems(head, data[n..], count - 1, if i > 0 then i - 1 else 0); }
  }
}
