/** Record selection of the MRT filter: which records of a stream its callbacks write. */
module Filter {
  import opened Collections
  import opened Wire
  import opened Sessions
  import opened SessionRecords

  datatype TypeName = AnyType | Bgp4mp | TableDumpV2 | TableDump | UnknownType

  datatype Opts = Opts(
    peerIP: Option<seq<byte>>,
    peerASN: uint32,              // 0 when not asked for
    prefix: bool,
    content: bool,                // an AS-path or community expression is given
    typeName: TypeName,
    after: uint32,
    before: uint32)

  /** What the expressions say of an UPDATE decoded in its context, or that it does not decode. */
  datatype Verdict = Matches | Differs | Damaged

  type Judge = (Record, Option<Negotiated>) -> Verdict

  /** A BGP4MP or BGP4MP_ET record with its timestamp. */
  datatype Item = Item(timestamp: uint32, rec: Record)

  /** net.IP.Equal. */
  predicate IPEqual(a: seq<byte>, b: seq<byte>) {
    if |a| == |b| then a == b
    else if |a| == 4 && |b| == 16 then Unmap(b) == a
    else if |a| == 16 && |b| == 4 then Unmap(a) == b
    else false
  }

  predicate MatchHeader(o: Opts, it: Item) {
    (o.typeName.AnyType? || o.typeName.Bgp4mp?) && o.after <= it.timestamp <= o.before
  }

  predicate NeedsDeep(o: Opts) {
    o.peerIP.Some? || o.peerASN != 0 || o.prefix || o.content
  }

  predicate PeerMatches(o: Opts, h: Header) {
    (o.peerIP.Some? ==> IPEqual(o.peerIP.value, h.peerIP)) && (o.peerASN != 0 ==> h.peerAS == o.peerASN)
  }

  predicate IsUpdate(r: Record) {
    r.Message? && |r.wire| >= 19 && r.wire[18] == 2
  }

  datatype Choice = Keep | Drop | Fail

  /** What OnHeader, OnMessage and OnStateChange decide about one record. */
  function Choose(o: Opts, judge: Judge, it: Item, ctx: Option<Negotiated>): Choice {
    if !MatchHeader(o, it) then Drop
    else if !NeedsDeep(o) then Keep
    else if !PeerMatches(o, it.rec.hdr) then Drop
    else if !IsUpdate(it.rec) then Keep
    else if o.prefix then (if judge(it.rec, ctx).Damaged? then Fail else Drop)
    else if o.content then
      match judge(it.rec, ctx)
      case Damaged => Fail
      case Differs => Drop
      case Matches => Keep
    else Keep
  }

  // ---------- the same, as what the options ask for ----------

  /** The type and the time asked for. */
  predicate InRange(o: Opts, it: Item) {
    o.typeName in {AnyType, Bgp4mp} && o.after <= it.timestamp && it.timestamp <= o.before
  }

  /** The peer asked for: its address, in either form, and its AS number. */
  predicate FromPeer(o: Opts, h: Header) {
    && (o.peerIP.Some? ==> SameEnd(o.peerIP.value, h.peerIP))
    && (o.peerASN == 0 || o.peerASN == h.peerAS)
  }

  /** A record is asked for if its type, time and peer are, and if it is an UPDATE (type octet 2),
      when no prefix is asked for and the expressions, if any, match it. */
  predicate Wanted(o: Opts, judge: Judge, it: Item, ctx: Option<Negotiated>) {
    && InRange(o, it) && FromPeer(o, it.rec.hdr)
    && (IsType(it.rec, 2) ==> !o.prefix && (o.content ==> judge(it.rec, ctx) == Matches))
  }

  /** An UPDATE that a prefix or an expression makes the filter decode, and that does not decode. */
  predicate Broken(o: Opts, judge: Judge, it: Item, ctx: Option<Negotiated>) {
    && InRange(o, it) && FromPeer(o, it.rec.hdr)
    && IsType(it.rec, 2) && (o.prefix || o.content) && judge(it.rec, ctx) == Damaged
  }

  /** Without a filter on peers, prefixes or content the header alone decides. */
  predicate HeaderDecides(o: Opts) {
    o.peerIP == None && o.peerASN == 0 && !o.prefix && !o.content
  }

  lemma IPEqualIff(a: seq<byte>, b: seq<byte>)
    ensures IPEqual(a, b) <==> SameEnd(a, b)
  {
    if IsAddr(a) && IsAddr(b) {
      MappedSplits(a);
      MappedSplits(b);
    }
  }

  lemma ChooseIff(o: Opts, judge: Judge, it: Item, ctx: Option<Negotiated>)
    ensures Choose(o, judge, it, ctx).Keep? <==> Wanted(o, judge, it, ctx)
    ensures Choose(o, judge, it, ctx).Fail? <==> Broken(o, judge, it, ctx)
  {
    if o.peerIP.Some? { IPEqualIff(o.peerIP.value, it.rec.hdr.peerIP); }
  }

  // ---------- whole files ----------

  function Records(items: seq<Item>): seq<Record> {
    seq(|items|, i requires 0 <= i < |items| => items[i].rec)
  }

  function ItemOutcome(parse: Parser, items: seq<Item>, it: Item): Outcome
    requires Run(parse, Records(items)).Some?
  {
    Observe(parse, Run(parse, Records(items)).value, it.rec).1
  }

  /** The items of the output file, or None when the run stops with an error. */
  function Selected(parse: Parser, o: Opts, judge: Judge, items: seq<Item>): (r: Option<seq<Item>>)
    ensures r.Some? ==> Run(parse, Records(items)).Some?
  {
    if items == [] then Some([])
    else
      var before, it := items[..|items| - 1], items[|items| - 1];
      assert Records(items)[..|items| - 1] == Records(before);
      match Selected(parse, o, judge, before)
      case None => None
      case Some(out) =>
        var outcome := ItemOutcome(parse, before, it);
        if !outcome.Ok? then None
        else
          match Choose(o, judge, it, outcome.context)
          case Fail => None
          case Drop => Some(out)
          case Keep => Some(out + [it])
  }

  /** The context of a record, given everything before it. */
  function ContextAfter(parse: Parser, before: seq<Item>, it: Item): Option<Negotiated> {
    if Run(parse, Records(before)).Some? && ItemOutcome(parse, before, it).Ok?
    then ItemOutcome(parse, before, it).context else None
  }

  /** The filter writes item i: it is wanted, in the context it has in the original. */
  predicate Written(parse: Parser, o: Opts, judge: Judge, items: seq<Item>, i: nat)
    requires i < |items|
  {
    Wanted(o, judge, items[i], ContextAfter(parse, items[..i], items[i]))
  }

  /** The run stops at item i: everything before it was accepted, and it is refused as evidence or broken. */
  predicate Stops(parse: Parser, o: Opts, judge: Judge, items: seq<Item>, i: nat)
    requires i < |items|
  {
    && Run(parse, Records(items[..i])).Some?
    && var out := ItemOutcome(parse, items[..i], items[i]);
       !out.Ok? || Broken(o, judge, items[i], out.context)
  }

  /** Where the items of the output stand in the original. */
  function Places(parse: Parser, o: Opts, judge: Judge, items: seq<Item>): seq<nat> {
    if items == [] then []
    else
      var n := |items| - 1;
      Places(parse, o, judge, items[..n]) + if Written(parse, o, judge, items, n) then [n] else []
  }

  lemma {:induction false} PlacesRise(parse: Parser, o: Opts, judge: Judge, items: seq<Item>)
    ensures Rising(Places(parse, o, judge, items), |items|)
  {
    if items != [] {
      var n := |items| - 1;
      PlacesRise(parse, o, judge, items[..n]);
      RisingGrows(Places(parse, o, judge, items[..n]), n);
    }
  }

  lemma {:induction false} PlaceIffWritten(parse: Parser, o: Opts, judge: Judge, items: seq<Item>, i: nat)
    requires i < |items|
    ensures i in Places(parse, o, judge, items) <==> Written(parse, o, judge, items, i)
  {
    var n := |items| - 1;
    var was := Places(parse, o, judge, items[..n]);
    PlacesRise(parse, o, judge, items[..n]);
    RisingGrows(was, n);
    if i < n {
      assert items[..n][..i] == items[..i];
      PlaceIffWritten(parse, o, judge, items[..n], i);
    }
  }

  /** The state the callbacks of runFilter share, and the output they write. */
  class FilterRun {
    const o: Opts
    const judge: Judge
    var pending: Option<Item>
    var written: seq<Item>
    var matched: nat
    var total: nat

    constructor (o: Opts, judge: Judge)
      ensures this.o == o && this.judge == judge && written == [] && matched == total == 0
    {
      this.o, this.judge := o, judge;
      pending, written, matched, total := None, [], 0, 0;
    }

    method Write(it: Item)
      modifies this
      ensures written == old(written) + [it] && matched == old(matched) + 1 && total == old(total) && pending == None
    {
      matched := matched + 1;
      written := written + [it];
      pending := None;
    }

    method OnHeader(it: Item)
      modifies this
      ensures total == old(total) + 1 && matched - |written| == old(matched - |written|)
      ensures written == old(written) + WrittenEarly(o, it)
      ensures pending == if InRange(o, it) && !HeaderDecides(o) then Some(it) else None
    {
      total := total + 1;
      pending := None;
      if !MatchHeader(o, it) { return; }
      if !NeedsDeep(o) {
        Write(it);
        return;
      }
      pending := Some(it);
    }

    /** OnMessage and OnStateChange; false stops the run. */
    method OnRecord(it: Item, ctx: Option<Negotiated>) returns (ok: bool)
      modifies this
      ensures total == old(total) && matched - |written| == old(matched - |written|)
      ensures old(pending) == None ==> ok && written == old(written)
      ensures old(pending) == Some(it) && InRange(o, it) && !HeaderDecides(o) ==>
        ok == !Broken(o, judge, it, ctx) && written == old(written) + if Wanted(o, judge, it, ctx) then [it] else []
    {
      ChooseIff(o, judge, it, ctx);
      ok := true;
      if pending.None? { return; }
      if !PeerMatches(o, it.rec.hdr) {
        pending := None;
        return;
      }
      if IsUpdate(it.rec) && (o.prefix || o.content) {
        var verdict := judge(it.rec, ctx);
        if verdict.Damaged? { return false; }
        if o.prefix || verdict.Differs? {
          pending := None;
          return;
        }
      }
      Write(pending.value);
    }
  }

  /** One record changes the output as Choose says. */
  lemma SelectedChoose(parse: Parser, o: Opts, judge: Judge, items: seq<Item>, i: nat)
    requires i < |items| && Selected(parse, o, judge, items[..i]).Some?
    ensures var next := Selected(parse, o, judge, items[..i + 1]);
            var out := ItemOutcome(parse, items[..i], items[i]);
            if !out.Ok? || Choose(o, judge, items[i], out.context).Fail? then next.None?
            else next == Some(Selected(parse, o, judge, items[..i]).value +
                              if Choose(o, judge, items[i], out.context).Keep? then [items[i]] else [])
  {
    assert items[..i + 1][..i] == items[..i];
    assert Records(items[..i + 1])[..i] == Records(items[..i]);
    var out := Selected(parse, o, judge, items[..i]).value;
    assert out + [] == out;
  }

  /** It stops the run, or is written if it is wanted. */
  lemma SelectedNext(parse: Parser, o: Opts, judge: Judge, items: seq<Item>, i: nat)
    requires i < |items| && Selected(parse, o, judge, items[..i]).Some?
    ensures var next := Selected(parse, o, judge, items[..i + 1]);
            if Stops(parse, o, judge, items, i) then next.None?
            else next == Some(Selected(parse, o, judge, items[..i]).value +
                              if Written(parse, o, judge, items, i) then [items[i]] else [])
  {
    SelectedChoose(parse, o, judge, items, i);
    ChooseIff(o, judge, items[i], ContextAfter(parse, items[..i], items[i]));
  }

  lemma RunNext(parse: Parser, items: seq<Item>, i: nat)
    requires i < |items| && Run(parse, Records(items[..i])).Some?
    ensures var (peers, out) := Observe(parse, Run(parse, Records(items[..i])).value, items[i].rec);
            out.Ok? ==> Run(parse, Records(items[..i + 1])) == Some(peers)
  {
    assert Records(items[..i + 1])[..i] == Records(items[..i]);
  }

  /** A run that stops at item n has written what was selected before it, and that item too
      if it needs no deep filter: OnHeader writes before the record is looked into. */
  ghost predicate StopsAt(parse: Parser, o: Opts, judge: Judge, items: seq<Item>, n: nat, written: seq<Item>) {
    && n < |items|
    && Selected(parse, o, judge, items[..n]).Some? && Selected(parse, o, judge, items[..n + 1]).None?
    && written == Selected(parse, o, judge, items[..n]).value + WrittenEarly(o, items[n])
  }

  function WrittenEarly(o: Opts, it: Item): seq<Item> {
    if InRange(o, it) && HeaderDecides(o) then [it] else []
  }

  /** The output stands in the input where the items before n are wanted. */
  lemma {:induction false} SelectedPlaces(parse: Parser, o: Opts, judge: Judge, items: seq<Item>)
    requires Selected(parse, o, judge, items).Some?
    ensures var at, out := Places(parse, o, judge, items), Selected(parse, o, judge, items).value;
            |at| == |out| && Rising(at, |items|) && forall k :: 0 <= k < |at| ==> out[k] == items[at[k]]
  {
    PlacesRise(parse, o, judge, items);
    if items != [] {
      var n := |items| - 1;
      assert items[..n + 1] == items;
      SelectedNext(parse, o, judge, items, n);
      SelectedPlaces(parse, o, judge, items[..n]);
      PlacesRise(parse, o, judge, items[..n]);
    }
  }

  lemma SelectedGoesOn(parse: Parser, o: Opts, judge: Judge, items: seq<Item>, i: nat)
    requires i < |items|
    ensures Selected(parse, o, judge, items[..i + 1]).Some?
            <==> Selected(parse, o, judge, items[..i]).Some? && !Stops(parse, o, judge, items, i)
  {
    if Selected(parse, o, judge, items[..i]).Some? {
      SelectedNext(parse, o, judge, items, i);
    } else {
      assert items[..i + 1][..i] == items[..i];
    }
  }

  lemma SelectedIffNoStop(parse: Parser, o: Opts, judge: Judge, items: seq<Item>, n: nat)
    requires n <= |items|
    ensures Selected(parse, o, judge, items[..n]).Some? <==> forall i: nat :: i < n ==> !Stops(parse, o, judge, items, i)
  {
    var stops := (i: nat) => i < |items| && Stops(parse, o, judge, items, i);
    var going := (i: nat) => i <= |items| && Selected(parse, o, judge, items[..i]).Some?;
    forall i: nat | i < n ensures going(i + 1) <==> going(i) && !stops(i) { SelectedGoesOn(parse, o, judge, items, i); }
    UntilFirst(going, stops, n);
    assert forall i: nat :: i < n ==> (stops(i) <==> Stops(parse, o, judge, items, i));
  }

  /** The places of what a run wrote that stopped before item `stop`, or not at all. */
  ghost function PlacesWritten(parse: Parser, o: Opts, judge: Judge, items: seq<Item>, stop: nat): seq<nat>
    requires stop <= |items|
  {
    Places(parse, o, judge, items[..stop]) + if stop < |items| && InRange(o, items[stop]) && HeaderDecides(o) then [stop] else []
  }

  lemma PlacesBefore(parse: Parser, o: Opts, judge: Judge, items: seq<Item>, stop: nat)
    requires stop <= |items|
    ensures forall i: nat :: i < |items| ==>
              (i in Places(parse, o, judge, items[..stop]) <==> i < stop && Written(parse, o, judge, items, i))
  {
    PlacesRise(parse, o, judge, items[..stop]);
    forall i: nat | i < stop
      ensures i in Places(parse, o, judge, items[..stop]) <==> Written(parse, o, judge, items, i)
    {
      PlaceIffWritten(parse, o, judge, items[..stop], i);
      assert items[..stop][..i] == items[..i];
    }
  }

  lemma WrittenPlaces(parse: Parser, o: Opts, judge: Judge, items: seq<Item>, stop: nat, written: seq<Item>)
    requires stop <= |items| && Selected(parse, o, judge, items[..stop]).Some?
    requires written == Selected(parse, o, judge, items[..stop]).value +
                        if stop < |items| then WrittenEarly(o, items[stop]) else []
    ensures var at := PlacesWritten(parse, o, judge, items, stop);
            && Rising(at, |items|) && |at| == |written| && (forall k :: 0 <= k < |at| ==> written[k] == items[at[k]])
            && forall i: nat :: i < |items| ==>
                 (i in at <==> (i < stop && Written(parse, o, judge, items, i))
                               || (i == stop && InRange(o, items[i]) && HeaderDecides(o)))
  {
    var early := Places(parse, o, judge, items[..stop]);
    SelectedPlaces(parse, o, judge, items[..stop]);
    RisingGrows(early, stop);
    PlacesBefore(parse, o, judge, items, stop);
  }

  /** runFilter: the reader loop with its callbacks.  `at` says where the items written stand in
      the file.  The run stops at the first item that is refused or broken, if there is one; up to
      there an item is written if and only if it is wanted. */
  method RunFilter(parse: Parser, o: Opts, judge: Judge, items: seq<Item>)
    returns (written: seq<Item>, matched: nat, total: nat, ok: bool, ghost at: seq<nat>)
    ensures ok <==> forall i: nat :: i < |items| ==> !Stops(parse, o, judge, items, i)
    ensures !ok ==> 0 < total <= |items| && Stops(parse, o, judge, items, total - 1)
                    && forall i: nat :: i < total - 1 ==> !Stops(parse, o, judge, items, i)
    ensures ok ==> total == |items|
    ensures matched == |written| == |at| && Rising(at, |items|)
    ensures forall k :: 0 <= k < |at| ==> written[k] == items[at[k]]
    ensures forall i: nat :: i < |items| ==>
              var stop := if ok then total else total - 1;
              (i in at <==> (i < stop && Written(parse, o, judge, items, i))
                            || (i == stop && InRange(o, items[i]) && HeaderDecides(o)))
    ensures ok ==> Selected(parse, o, judge, items) == Some(written)
  {
    written, matched, total, ok := ReadFile(parse, o, judge, items);
    at := Told(parse, o, judge, items, written, total, ok);
  }

  lemma StepIs(parse: Parser, o: Opts, judge: Judge, items: seq<Item>, i: nat, peers: Peers, written: seq<Item>)
    requires i < |items| && Selected(parse, o, judge, items[..i]) == Some(written)
    requires Run(parse, Records(items[..i])) == Some(peers)
    ensures var (next, out) := Observe(parse, peers, items[i].rec);
            if !out.Ok? || Broken(o, judge, items[i], out.context)
            then StopsAt(parse, o, judge, items, i, written + WrittenEarly(o, items[i]))
            else Selected(parse, o, judge, items[..i + 1])
                 == Some(written + if Wanted(o, judge, items[i], out.context) then [items[i]] else [])
                 && Run(parse, Records(items[..i + 1])) == Some(next)
  {
    SelectedNext(parse, o, judge, items, i);
    RunNext(parse, items, i);
  }

  /** The items were all accepted, to this output and this evidence. */
  ghost predicate Goes(parse: Parser, o: Opts, judge: Judge, items: seq<Item>, written: seq<Item>, peers: Peers) {
    Selected(parse, o, judge, items) == Some(written) && Run(parse, Records(items)) == Some(peers)
  }

  method ReadNext(parse: Parser, items: seq<Item>, i: nat, contexts: SessionContexts, run: FilterRun) returns (ok: bool)
    requires i < |items| && run.total == i && run.matched == |run.written|
    requires Goes(parse, run.o, run.judge, items[..i], run.written, contexts.peers)
    modifies contexts, run
    ensures run.total == i + 1 && run.matched == |run.written|
    ensures ok ==> Goes(parse, run.o, run.judge, items[..i + 1], run.written, contexts.peers)
    ensures !ok ==> StopsAt(parse, run.o, run.judge, items, i, run.written)
  {
    StepIs(parse, run.o, run.judge, items, i, contexts.peers, run.written);
    ok := OneRecord(parse, contexts, run, items[i]);
  }

  /** ReadFile with the callbacks. */
  method ReadFile(parse: Parser, o: Opts, judge: Judge, items: seq<Item>)
    returns (written: seq<Item>, matched: nat, total: nat, ok: bool)
    ensures total <= |items| && matched == |written|
    ensures ok ==> Selected(parse, o, judge, items) == Some(written) && total == |items|
    ensures !ok ==> total > 0 && StopsAt(parse, o, judge, items, total - 1, written)
  {
    var contexts := new SessionContexts();
    var run := new FilterRun(o, judge);
    ok := true;
    var i := 0;
    while i < |items| && ok
      invariant 0 <= i <= |items| && run.o == o && run.judge == judge
      invariant ok ==> Goes(parse, o, judge, items[..i], run.written, contexts.peers)
      invariant !ok ==> i > 0 && StopsAt(parse, o, judge, items, i - 1, run.written)
      invariant run.total == i && run.matched == |run.written|
    {
      ok := ReadNext(parse, items, i, contexts, run);
      i := i + 1;
    }
    assert ok ==> items[..i] == items;
    written, matched, total := run.written, run.matched, run.total;
  }

  /** What the loop of RunFilter leaves, told without its state. */
  lemma Told(parse: Parser, o: Opts, judge: Judge, items: seq<Item>, written: seq<Item>, n: nat, ok: bool)
    returns (at: seq<nat>)
    requires n <= |items| && (ok ==> n == |items| && Selected(parse, o, judge, items) == Some(written))
    requires !ok ==> n > 0 && StopsAt(parse, o, judge, items, n - 1, written)
    ensures ok <==> forall i: nat :: i < |items| ==> !Stops(parse, o, judge, items, i)
    ensures !ok ==> Stops(parse, o, judge, items, n - 1) && forall i: nat :: i < n - 1 ==> !Stops(parse, o, judge, items, i)
    ensures |written| == |at| && Rising(at, |items|) && forall k :: 0 <= k < |at| ==> written[k] == items[at[k]]
    ensures forall i: nat :: i < |items| ==>
              var stop := if ok then n else n - 1;
              (i in at <==> (i < stop && Written(parse, o, judge, items, i))
                            || (i == stop && InRange(o, items[i]) && HeaderDecides(o)))
  {
    var stop := if ok then n else n - 1;
    assert items[..|items|] == items;
    SelectedIffNoStop(parse, o, judge, items, n);
    SelectedIffNoStop(parse, o, judge, items, stop);
    WrittenPlaces(parse, o, judge, items, stop, written);
    at := PlacesWritten(parse, o, judge, items, stop);
  }

  /** readRecords and dispatchBGP4MP on one record: OnHeader, the context, the callback. */
  method OneRecord(parse: Parser, contexts: SessionContexts, run: FilterRun, it: Item) returns (ok: bool)
    modifies contexts, run
    ensures var (peers, out) := Observe(parse, old(contexts.peers), it.rec);
            && (ok <==> out.Ok? && !Broken(run.o, run.judge, it, out.context))
            && (ok ==> contexts.peers == peers
                       && run.written == old(run.written) + if Wanted(run.o, run.judge, it, out.context) then [it] else [])
            && (!ok ==> run.written == old(run.written) + WrittenEarly(run.o, it))
    ensures run.total == old(run.total) + 1 && run.matched - |run.written| == old(run.matched - |run.written|)
  {
    run.OnHeader(it);
    var out: Outcome;
    if it.rec.Message? { out := contexts.ObserveMessage(parse, it.rec); }
    else { out := contexts.ObserveState(it.rec); }
    if !out.Ok? { return false; }
    ok := run.OnRecord(it, out.context);
  }
}
