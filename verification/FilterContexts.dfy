/** Content filtering commutes with context attachment: a reader of the filtered stream
    gives every UPDATE in it the context, and so the meaning, it had in the original,
    as long as each UPDATE left out could be. */
module FilterContexts {
  import opened Collections
  import opened Wire
  import opened Sessions
  import opened SessionRuns
  import opened Filter
  import opened Negotiation
  import opened Replay

  // ---------- which UPDATE a session does not miss ----------

  /** An UPDATE a filter can leave out: its session has no evidence, or evidence
      that traffic has already spoilt, or a context the UPDATE agrees with. */
  predicate CanDrop(ev: Option<Evidence>, u: Event)
    requires u.Updated?
  {
    ev.None? || (if ev.value.negotiated.None? then ev.value.used else KeepsContext(ev.value, u))
  }

  /** Evidence that no later record tells apart. */
  predicate Same(a: Option<Evidence>, b: Option<Evidence>) {
    if a.None? || b.None? then a == b
    else
      && EvidenceOk(a.value)
      && a.value.received == b.value.received && a.value.sent == b.value.sent
      && a.value.negotiated == b.value.negotiated
      && (a.value.negotiated.None? ==> a.value.used == b.value.used)
  }

  lemma SameStep(a: Option<Evidence>, b: Option<Evidence>, e: Event)
    requires Same(a, b)
    ensures Same(Step(a, e), Step(b, e)) && Attach(a, e) == Attach(b, e)
  {}

  lemma DropIsSame(ev: Option<Evidence>, u: Event)
    requires u.Updated? && CanDrop(ev, u) && (ev.Some? ==> EvidenceOk(ev.value))
    ensures Same(Step(ev, u), ev)
  {}

  function Continue(ev: Option<Evidence>, c: seq<Event>): Option<Evidence> {
    if c == [] then ev else Step(Continue(ev, c[..|c| - 1]), c[|c| - 1])
  }

  lemma {:induction false} SameContinue(a: Option<Evidence>, b: Option<Evidence>, c: seq<Event>)
    requires Same(a, b)
    ensures Same(Continue(a, c), Continue(b, c))
  {
    if c != [] {
      SameContinue(a, b, c[..|c| - 1]);
      SameStep(Continue(a, c[..|c| - 1]), Continue(b, c[..|c| - 1]), c[|c| - 1]);
    }
  }

  /** A continuation and an UPDATE that notice the difference between two sessions. */
  ghost predicate Notices(a: Option<Evidence>, b: Option<Evidence>, c: seq<Event>, v: Event) {
    v.Updated? && Attach(Continue(a, c), v) != Attach(Continue(b, c), v)
  }

  /** Leaving one UPDATE out of a session changes no later UPDATE's context, whatever
      follows, exactly when CanDrop holds at that point. */
  lemma DropUnnoticedIff(h: seq<Event>, u: Event)
    requires u.Updated?
    ensures CanDrop(Session(h), u) <==>
            forall c: seq<Event>, v: Event :: !Notices(Step(Session(h), u), Session(h), c, v)
  {
    var ev := Session(h);
    SessionEvidence(h);
    if CanDrop(ev, u) {
      DropIsSame(ev, u);
      forall c: seq<Event>, v: Event ensures !Notices(Step(ev, u), ev, c, v) {
        SameContinue(Step(ev, u), ev, c);
        SameStep(Continue(Step(ev, u), c), Continue(ev, c), v);
      }
    } else {
      var open := Open([], 0);
      var other := ev.value.sent.None?;
      var c := if ev.value.negotiated.Some? then [] else [Opened(other, open)];
      var full := if ev.value.negotiated.Some? then ev.value else AddOpen(ev.value, other, open);
      var v := Updated(full.received.value.asn, full.sent.value.asn, true);
      if c != [] { assert c[..|c| - 1] == []; }
      assert Continue(ev, c) == Some(full);
      assert Notices(Step(ev, u), ev, c, v);
    }
  }

  /** The UPDATE does not stand between the two OPENs of an epoch, and it agrees with
      the pair in force, if there is one. */
  ghost predicate InPlace(h: seq<Event>, u: Event) {
    && !(LastOpen(h).Some? && Alternating(h) % 2 == 1)
    && forall i: nat, j: nat :: PairAt(h, i, j) ==> Harmless(h[i], h[j], u)
  }

  /** The same condition, read off the file. */
  lemma CanDropIff(h: seq<Event>, u: Event)
    requires u.Updated?
    ensures CanDrop(Session(h), u) <==> InPlace(h, u)
  {
    SessionExplained(h);
    var ev := Session(h);
    forall i: nat, j: nat | PairAt(h, i, j) ensures Holds(ev, h[i], h[j]) { PairGivesEvidence(h, i, j); }
    if ev.Some? && ev.value.negotiated.Some? {
      var i, j := EvidenceGivesPair(h);
      assert Holds(ev, h[i], h[j]);
    }
  }

  // ---------- whole streams ----------

  /** Only the peer address and the content are filtered on. */
  predicate ContentOnly(o: Opts) {
    && o.peerASN == 0 && (o.typeName.AnyType? || o.typeName.Bgp4mp?)
    && o.after == 0 && o.before == 0xffff_ffff
    && (o.peerIP.Some? ==> IsAddr(o.peerIP.value))
  }

  predicate KeyChosen(o: Opts, k: Key) {
    o.peerIP.Some? ==> Unmap(o.peerIP.value) == k.peer
  }

  lemma IPEqualIsSameAddress(a: seq<byte>, b: seq<byte>)
    requires IsAddr(a) && IsAddr(b)
    ensures IPEqual(a, b) <==> Unmap(a) == Unmap(b)
  {
    if |a| == 16 && |b| == 16 && |Unmap(a)| == 4 && Unmap(a) == Unmap(b) {
      assert a == a[..12] + Unmap(a) && b == b[..12] + Unmap(b);
      assert a[..12] == b[..12];
    }
  }

  /** Every UPDATE of a chosen session that was left out could be. */
  ghost predicate DropsUnnoticed(parse: Parser, o: Opts, judge: Judge, items: seq<Item>) {
    items == [] ||
    var before, it := items[..|items| - 1], items[|items| - 1];
    && DropsUnnoticed(parse, o, judge, before)
    && (Run(parse, Records(before)).Some? ==> ItemUnnoticed(parse, o, judge, before, it))
  }

  ghost predicate ItemUnnoticed(parse: Parser, o: Opts, judge: Judge, before: seq<Item>, it: Item)
    requires Run(parse, Records(before)).Some?
  {
    var out := ItemOutcome(parse, before, it);
    out.Ok? && IsUpdate(it.rec) && Choose(o, judge, it, out.context).Drop? &&
    ContextKey(it.rec.hdr).Some? && KeyChosen(o, ContextKey(it.rec.hdr).value) ==>
      CanDrop(Look(Run(parse, Records(before)).value, ContextKey(it.rec.hdr).value), EventOf(parse, it.rec))
  }

  /** The evidence from the output agrees with the evidence from the input. */
  ghost predicate Agree(o: Opts, full: Peers, kept: Peers) {
    forall k: Key :: if KeyChosen(o, k) then Same(Look(full, k), Look(kept, k)) else k !in kept
  }

  lemma AgreeCounts(o: Opts, full: Peers, kept: Peers)
    requires Agree(o, full, kept)
    ensures |kept| <= |full|
  {
    forall k | k in kept.Keys ensures k in full.Keys {
      assert KeyChosen(o, k) ==> Same(Look(full, k), Look(kept, k));
    }
    SubsetSize(kept.Keys, full.Keys);
  }

  /** A record the original accepts is accepted by the filtered stream too: it holds no more sessions. */
  lemma KeptAccepted(parse: Parser, o: Opts, full: Peers, kept: Peers, r: Record, k: Key)
    requires Agree(o, full, kept) && ContextKey(r.hdr) == Some(k) && KeyChosen(o, k)
    requires Observe(parse, full, r).1.Ok?
    ensures Observe(parse, kept, r).1 == Observe(parse, full, r).1
  {
    OwnStep(parse, full, r, k);
    AcceptedAlike(o, full, kept, k, EventOf(parse, r));
  }

  lemma AcceptedAlike(o: Opts, full: Peers, kept: Peers, k: Key, e: Event)
    requires Agree(o, full, kept) && KeyChosen(o, k) && Decide(full, k, e).1.Ok?
    ensures Decide(kept, k, e).1 == Decide(full, k, e).1
  {
    assert Same(Look(full, k), Look(kept, k));
    SameStep(Look(full, k), Look(kept, k), e);
    AgreeWithout(o, full, kept, k);
    AgreeCounts(o, full - {k}, kept - {k});
  }

  /** A record both streams hold. */
  lemma KeptStep(parse: Parser, o: Opts, full: Peers, kept: Peers, r: Record, k: Key)
    requires Agree(o, full, kept) && ContextKey(r.hdr) == Some(k) && KeyChosen(o, k)
    requires Observe(parse, full, r).1.Ok?
    ensures Observe(parse, kept, r).1 == Observe(parse, full, r).1
    ensures Agree(o, Observe(parse, full, r).0, Observe(parse, kept, r).0)
  {
    KeptAccepted(parse, o, full, kept, r, k);
    OwnStep(parse, full, r, k);
    OwnStep(parse, kept, r, k);
    assert Same(Look(full, k), Look(kept, k));
    SameStep(Look(full, k), Look(kept, k), EventOf(parse, r));
    var full', kept' := Observe(parse, full, r).0, Observe(parse, kept, r).0;
    forall other: Key | other != k
      ensures Look(full', other) == Look(full, other) && Look(kept', other) == Look(kept, other)
    {
      OthersUntouched(parse, full, r, other);
      OthersUntouched(parse, kept, r, other);
    }
    AgreeAt(o, full, kept, full', kept', k);
  }

  lemma AgreeWithout(o: Opts, full: Peers, kept: Peers, k: Key)
    requires Agree(o, full, kept)
    ensures Agree(o, full - {k}, kept - {k})
  {
    forall x: Key ensures if KeyChosen(o, x) then Same(Look(full - {k}, x), Look(kept - {k}, x)) else x !in kept - {k} {
      assert KeyChosen(o, x) ==> Same(Look(full, x), Look(kept, x));
    }
  }

  /** Two streams that agreed still do when only one chosen session changed, alike. */
  lemma AgreeAt(o: Opts, full: Peers, kept: Peers, full': Peers, kept': Peers, k: Key)
    requires Agree(o, full, kept)
    requires forall x: Key :: x != k ==> Look(full', x) == Look(full, x) && Look(kept', x) == Look(kept, x)
    requires if KeyChosen(o, k) then Same(Look(full', k), Look(kept', k)) else k !in kept'
    ensures Agree(o, full', kept')
  {
    forall x: Key ensures if KeyChosen(o, x) then Same(Look(full', x), Look(kept', x)) else x !in kept' {
      if x != k {
        assert Look(full', x) == Look(full, x) && Look(kept', x) == Look(kept, x);
        assert KeyChosen(o, x) ==> Same(Look(full, x), Look(kept, x));
      }
    }
  }

  /** A record of a session that is not chosen, or an UPDATE left out unnoticed. */
  lemma DroppedStep(parse: Parser, o: Opts, full: Peers, kept: Peers, r: Record, k: Key)
    requires Agree(o, full, kept) && ContextKey(r.hdr) == Some(k) && Observe(parse, full, r).1.Ok?
    requires KeyChosen(o, k) ==> IsUpdate(r) && CanDrop(Look(full, k), EventOf(parse, r))
    ensures Agree(o, Observe(parse, full, r).0, kept)
  {
    OwnStep(parse, full, r, k);
    var full' := Observe(parse, full, r).0;
    forall other: Key | other != k ensures Look(full', other) == Look(full, other) {
      OthersUntouched(parse, full, r, other);
    }
    if KeyChosen(o, k) {
      assert Same(Look(full, k), Look(kept, k));
      DropIsSame(Look(full, k), EventOf(parse, r));
      assert Same(Look(full', k), Look(kept, k));
    } else {
      assert k !in kept;
    }
    AgreeAt(o, full, kept, full', kept, k);
  }

  lemma PeerMatchIsKeyChosen(o: Opts, h: Header, k: Key)
    requires ContentOnly(o) && ContextKey(h) == Some(k)
    ensures PeerMatches(o, h) <==> KeyChosen(o, k)
  {
    if o.peerIP.Some? { IPEqualIsSameAddress(o.peerIP.value, h.peerIP); }
  }

  lemma RecordsAppend(items: seq<Item>, it: Item)
    ensures Records(items + [it]) == Records(items) + [it.rec]
  {}

  lemma RunAppend(parse: Parser, recs: seq<Record>, r: Record)
    requires Run(parse, recs).Some? && Observe(parse, Run(parse, recs).value, r).1.Ok?
    ensures Run(parse, recs + [r]) == Some(Observe(parse, Run(parse, recs).value, r).0)
  {
    assert (recs + [r])[..|recs|] == recs;
  }

  /** One more item, kept or left out. */
  lemma FilteredStep(parse: Parser, o: Opts, judge: Judge, before: seq<Item>, it: Item, was: seq<Item>)
    requires ContentOnly(o) && Run(parse, Records(before)).Some? && Run(parse, Records(was)).Some?
    requires Agree(o, Run(parse, Records(before)).value, Run(parse, Records(was)).value)
    requires ItemOutcome(parse, before, it).Ok? && ItemUnnoticed(parse, o, judge, before, it)
    requires !Choose(o, judge, it, ItemOutcome(parse, before, it).context).Fail?
    ensures Run(parse, Records(before + [it])).Some?
    ensures var out := if Choose(o, judge, it, ItemOutcome(parse, before, it).context).Keep? then was + [it] else was;
            Run(parse, Records(out)).Some?
            && Agree(o, Run(parse, Records(before + [it])).value, Run(parse, Records(out)).value)
  {
    var full, kept := Run(parse, Records(before)).value, Run(parse, Records(was)).value;
    var k := ContextKey(it.rec.hdr).value;
    PeerMatchIsKeyChosen(o, it.rec.hdr, k);
    RecordsAppend(before, it);
    RunAppend(parse, Records(before), it.rec);
    if Choose(o, judge, it, ItemOutcome(parse, before, it).context).Keep? {
      KeptStep(parse, o, full, kept, it.rec, k);
      RecordsAppend(was, it);
      RunAppend(parse, Records(was), it.rec);
    } else {
      DroppedStep(parse, o, full, kept, it.rec, k);
    }
  }

  /** What the last item adds to the output. */
  lemma SelectedLast(parse: Parser, o: Opts, judge: Judge, before: seq<Item>, it: Item)
    requires Selected(parse, o, judge, before + [it]).Some?
    ensures Selected(parse, o, judge, before).Some? && ItemOutcome(parse, before, it).Ok?
    ensures var was, choice := Selected(parse, o, judge, before).value,
                               Choose(o, judge, it, ItemOutcome(parse, before, it).context);
            !choice.Fail? && Selected(parse, o, judge, before + [it]).value == if choice.Keep? then was + [it] else was
  {
    assert (before + [it])[..|before|] == before;
  }

  /** The filtered stream reads without error, to evidence that agrees with the original's. */
  ghost predicate OutputAgrees(parse: Parser, o: Opts, judge: Judge, items: seq<Item>)
    requires Selected(parse, o, judge, items).Some?
  {
    var out := Records(Selected(parse, o, judge, items).value);
    Run(parse, out).Some? && Agree(o, Run(parse, Records(items)).value, Run(parse, out).value)
  }

  lemma FilteredLast(parse: Parser, o: Opts, judge: Judge, before: seq<Item>, it: Item)
    requires ContentOnly(o) && Selected(parse, o, judge, before + [it]).Some?
    requires Selected(parse, o, judge, before).Some? && OutputAgrees(parse, o, judge, before)
    requires ItemUnnoticed(parse, o, judge, before, it)
    ensures OutputAgrees(parse, o, judge, before + [it])
  {
    SelectedLast(parse, o, judge, before, it);
    FilteredStep(parse, o, judge, before, it, Selected(parse, o, judge, before).value);
  }

  lemma DropsLast(parse: Parser, o: Opts, judge: Judge, before: seq<Item>, it: Item)
    requires Selected(parse, o, judge, before + [it]).Some? && DropsUnnoticed(parse, o, judge, before + [it])
    ensures Selected(parse, o, judge, before).Some? && DropsUnnoticed(parse, o, judge, before)
    ensures ItemUnnoticed(parse, o, judge, before, it)
  {
    SelectedLast(parse, o, judge, before, it);
    assert (before + [it])[..|before|] == before;
  }

  lemma {:induction false} FilteredAgrees(parse: Parser, o: Opts, judge: Judge, items: seq<Item>)
    requires ContentOnly(o) && Selected(parse, o, judge, items).Some? && DropsUnnoticed(parse, o, judge, items)
    ensures OutputAgrees(parse, o, judge, items)
  {
    if items != [] {
      var before, it := items[..|items| - 1], items[|items| - 1];
      FrontAndLast(items);
      DropsLast(parse, o, judge, before, it);
      FilteredAgrees(parse, o, judge, before);
      FilteredLast(parse, o, judge, before, it);
    }
  }

  /** Content filtering commutes with context attachment: the next record that is
      kept gets from the filtered stream the outcome it got from the original. */
  lemma FilterKeepsContexts(parse: Parser, o: Opts, judge: Judge, items: seq<Item>, it: Item)
    requires ContentOnly(o) && Selected(parse, o, judge, items).Some? && DropsUnnoticed(parse, o, judge, items)
    requires ItemOutcome(parse, items, it).Ok? && Choose(o, judge, it, ItemOutcome(parse, items, it).context).Keep?
    ensures var out := Selected(parse, o, judge, items).value;
            Run(parse, Records(out)).Some? && ItemOutcome(parse, out, it) == ItemOutcome(parse, items, it)
  {
    FilteredAgrees(parse, o, judge, items);
    var out := Selected(parse, o, judge, items).value;
    var k := ContextKey(it.rec.hdr).value;
    PeerMatchIsKeyChosen(o, it.rec.hdr, k);
    KeptStep(parse, o, Run(parse, Records(items)).value, Run(parse, Records(out)).value, it.rec, k);
  }

  // ---------- the whole output ----------

  /** The contexts a reader of a file attaches, record by record. */
  function Contexts(parse: Parser, items: seq<Item>): seq<Option<Negotiated>> {
    if items == [] then []
    else
      var before, it := items[..|items| - 1], items[|items| - 1];
      Contexts(parse, before) + [ContextAfter(parse, before, it)]
  }

  /** The contexts that the records written had in the original. */
  function KeptContexts(parse: Parser, o: Opts, judge: Judge, items: seq<Item>): seq<Option<Negotiated>> {
    if items == [] then []
    else
      var before, it := items[..|items| - 1], items[|items| - 1];
      var ctx := ContextAfter(parse, before, it);
      KeptContexts(parse, o, judge, before) + if Choose(o, judge, it, ctx).Keep? then [ctx] else []
  }

  lemma ContextsAppend(parse: Parser, items: seq<Item>, it: Item)
    ensures Contexts(parse, items + [it]) == Contexts(parse, items) + [ContextAfter(parse, items, it)]
  {
    assert (items + [it])[..|items|] == items;
  }

  lemma KeptContextsAppend(parse: Parser, o: Opts, judge: Judge, items: seq<Item>, it: Item)
    ensures var ctx := ContextAfter(parse, items, it);
            KeptContexts(parse, o, judge, items + [it]) ==
            KeptContexts(parse, o, judge, items) + if Choose(o, judge, it, ctx).Keep? then [ctx] else []
  {
    assert (items + [it])[..|items|] == items;
  }

  lemma NextContext(parse: Parser, o: Opts, judge: Judge, before: seq<Item>, it: Item)
    requires ContentOnly(o) && Selected(parse, o, judge, before + [it]).Some?
    requires Selected(parse, o, judge, before).Some? && DropsUnnoticed(parse, o, judge, before)
    requires Contexts(parse, Selected(parse, o, judge, before).value) == KeptContexts(parse, o, judge, before)
    ensures Contexts(parse, Selected(parse, o, judge, before + [it]).value) == KeptContexts(parse, o, judge, before + [it])
  {
    var was := Selected(parse, o, judge, before).value;
    SelectedLast(parse, o, judge, before, it);
    KeptContextsAppend(parse, o, judge, before, it);
    if Choose(o, judge, it, ItemOutcome(parse, before, it).context).Keep? {
      FilterKeepsContexts(parse, o, judge, before, it);
      ContextsAppend(parse, was, it);
    }
  }

  /** A reader of the whole output attaches, record by record, exactly the contexts that
      the records written had in the original. */
  lemma {:induction false} OutputContexts(parse: Parser, o: Opts, judge: Judge, items: seq<Item>)
    requires ContentOnly(o) && Selected(parse, o, judge, items).Some? && DropsUnnoticed(parse, o, judge, items)
    ensures Contexts(parse, Selected(parse, o, judge, items).value) == KeptContexts(parse, o, judge, items)
  {
    if items != [] {
      var before, it := items[..|items| - 1], items[|items| - 1];
      FrontAndLast(items);
      DropsLast(parse, o, judge, before, it);
      OutputContexts(parse, o, judge, before);
      NextContext(parse, o, judge, before, it);
    }
  }

  // ---------- files on which every filter is safe ----------

  /** Every UPDATE of the file is in place within its own session's history. */
  ghost predicate Tidy(parse: Parser, items: seq<Item>) {
    forall i :: 0 <= i < |items| && IsUpdate(items[i].rec) && ContextKey(items[i].rec.hdr).Some? ==>
      InPlace(Project(parse, Records(items[..i]), ContextKey(items[i].rec.hdr).value), EventOf(parse, items[i].rec))
  }

  lemma TidyLast(parse: Parser, before: seq<Item>, it: Item)
    requires Tidy(parse, before + [it])
    ensures Tidy(parse, before)
    ensures IsUpdate(it.rec) && ContextKey(it.rec.hdr).Some? ==>
              InPlace(Project(parse, Records(before), ContextKey(it.rec.hdr).value), EventOf(parse, it.rec))
  {
    var items := before + [it];
    assert items[|before|] == it && items[..|before|] == before;
    forall i | 0 <= i < |before| ensures items[i] == before[i] && items[..i] == before[..i] {}
  }

  lemma TidyItem(parse: Parser, o: Opts, judge: Judge, before: seq<Item>, it: Item)
    requires Run(parse, Records(before)).Some?
    requires IsUpdate(it.rec) && ContextKey(it.rec.hdr).Some? ==>
               InPlace(Project(parse, Records(before), ContextKey(it.rec.hdr).value), EventOf(parse, it.rec))
    ensures ItemUnnoticed(parse, o, judge, before, it)
  {
    if IsUpdate(it.rec) && ContextKey(it.rec.hdr).Some? {
      var k := ContextKey(it.rec.hdr).value;
      RunIsItsSessions(parse, Records(before), k);
      CanDropIff(Project(parse, Records(before), k), EventOf(parse, it.rec));
    }
  }

  /** On a tidy file every content filter drops its UPDATEs unnoticed. */
  lemma {:induction false} TidyDropsUnnoticed(parse: Parser, o: Opts, judge: Judge, items: seq<Item>)
    requires Tidy(parse, items)
    ensures DropsUnnoticed(parse, o, judge, items)
  {
    if items != [] {
      var before, it := items[..|items| - 1], items[|items| - 1];
      FrontAndLast(items);
      TidyLast(parse, before, it);
      TidyDropsUnnoticed(parse, o, judge, before);
      if Run(parse, Records(before)).Some? { TidyItem(parse, o, judge, before, it); }
    }
  }

  // ---------- what the UPDATEs of the output mean ----------

  /** What one message means to a reader that attaches the context. */
  function MeaningIn(opens: seq<byte> -> bool, it: Item, ctx: Option<Negotiated>): Option<Meaning> {
    if it.rec.Message? then MeaningOf(opens, it.rec.wire, DecodingContext(it.rec.subtype, ctx)) else None
  }

  /** What the messages of a file mean to a reader of it. */
  function Meanings(parse: Parser, opens: seq<byte> -> bool, items: seq<Item>): seq<Option<Meaning>> {
    if items == [] then []
    else
      var before, it := items[..|items| - 1], items[|items| - 1];
      Meanings(parse, opens, before) + [MeaningIn(opens, it, ContextAfter(parse, before, it))]
  }

  lemma {:induction false} MeaningAt(parse: Parser, opens: seq<byte> -> bool, items: seq<Item>, i: nat)
    requires i < |items|
    ensures |Meanings(parse, opens, items)| == |items| == |Contexts(parse, items)|
    ensures Meanings(parse, opens, items)[i] == MeaningIn(opens, items[i], Contexts(parse, items)[i])
    ensures Contexts(parse, items)[i] == ContextAfter(parse, items[..i], items[i])
  {
    var before := items[..|items| - 1];
    if i < |before| {
      assert before[..i] == items[..i];
      MeaningAt(parse, opens, before, i);
    } else if before != [] {
      MeaningAt(parse, opens, before, 0);
    }
  }

  /** The items `out` stand at `at` in the original, where their contexts are `ctxs`. */
  ghost predicate PlacedAt(parse: Parser, items: seq<Item>, at: seq<nat>, out: seq<Item>, ctxs: seq<Option<Negotiated>>) {
    && |at| == |out| == |ctxs|
    && forall k :: 0 <= k < |at| ==>
         at[k] < |items| && out[k] == items[at[k]] && ctxs[k] == ContextAfter(parse, items[..at[k]], items[at[k]])
  }

  lemma PlacedGrows(parse: Parser, items: seq<Item>, it: Item, at: seq<nat>, out: seq<Item>, ctxs: seq<Option<Negotiated>>)
    requires PlacedAt(parse, items, at, out, ctxs)
    ensures PlacedAt(parse, items + [it], at, out, ctxs)
    ensures PlacedAt(parse, items + [it], at + [|items|], out + [it], ctxs + [ContextAfter(parse, items, it)])
  {
    var more := items + [it];
    forall k | 0 <= k < |at| ensures more[..at[k]] == items[..at[k]] && more[at[k]] == items[at[k]] {}
    assert more[..|items|] == items;
  }

  lemma {:induction false} OutputPlaces(parse: Parser, o: Opts, judge: Judge, items: seq<Item>)
    requires Selected(parse, o, judge, items).Some?
    ensures PlacedAt(parse, items, Places(parse, o, judge, items), Selected(parse, o, judge, items).value,
                     KeptContexts(parse, o, judge, items))
  {
    if items != [] {
      var n := |items| - 1;
      var before, it := items[..n], items[n];
      FrontAndLast(items);
      SelectedLast(parse, o, judge, before, it);
      ChooseIff(o, judge, it, ContextAfter(parse, before, it));
      OutputPlaces(parse, o, judge, before);
      PlacedGrows(parse, before, it, Places(parse, o, judge, before), Selected(parse, o, judge, before).value,
                  KeptContexts(parse, o, judge, before));
    }
  }

  /** A tidy file filtered on content: the output is the items that match, in order, and every
      one of them decodes, from the output alone, to what it meant in the original. */
  lemma FilterKeepsMeaning(parse: Parser, opens: seq<byte> -> bool, o: Opts, judge: Judge, items: seq<Item>)
    requires ContentOnly(o) && Selected(parse, o, judge, items).Some? && Tidy(parse, items)
    ensures var out, at := Selected(parse, o, judge, items).value, Places(parse, o, judge, items);
            var meant, means := Meanings(parse, opens, items), Meanings(parse, opens, out);
            && (forall k, l :: 0 <= k < l < |at| ==> at[k] < at[l])
            && (forall i: nat :: i < |items| ==> (i in at <==> Written(parse, o, judge, items, i)))
            && |means| == |out| == |at| && |meant| == |items|
            && forall k :: 0 <= k < |out| ==>
                 at[k] < |items| && out[k] == items[at[k]] && means[k] == meant[at[k]]
  {
    TidyDropsUnnoticed(parse, o, judge, items);
    OutputContexts(parse, o, judge, items);
    PlacesRise(parse, o, judge, items);
    forall i: nat | i < |items|
      ensures i in Places(parse, o, judge, items) <==> Written(parse, o, judge, items, i)
    {
      PlaceIffWritten(parse, o, judge, items, i);
    }
    OutputPlaces(parse, o, judge, items);
    var out, at := Selected(parse, o, judge, items).value, Places(parse, o, judge, items);
    MeaningsLength(parse, opens, out);
    MeaningsLength(parse, opens, items);
    forall k | 0 <= k < |out| ensures Meanings(parse, opens, out)[k] == Meanings(parse, opens, items)[at[k]] {
      MeaningAt(parse, opens, out, k);
      MeaningAt(parse, opens, items, at[k]);
    }
  }

  lemma {:induction false} MeaningsLength(parse: Parser, opens: seq<byte> -> bool, items: seq<Item>)
    ensures |Meanings(parse, opens, items)| == |items|
  {
    if items != [] { MeaningsLength(parse, opens, items[..|items| - 1]); }
  }
}
