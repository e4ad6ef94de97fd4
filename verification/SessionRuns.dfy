/** Exactly which UPDATEs get a negotiated context, over every history of a
    session, and that a stream of many sessions is just its sessions. */
module SessionRuns {
  import opened Collections
  import opened Sessions

  // ---------- what every reachable evidence looks like ----------

  predicate EvidenceOk(ev: Evidence) {
    && (ev.received.Some? || ev.sent.Some?)
    && (ev.negotiated.Some? <==> ev.received.Some? && ev.sent.Some?)
    && (ev.negotiated.Some? ==>
          ev.negotiated.value == Negotiated(ev.sent.value.caps, ev.received.value.caps))
  }

  lemma StepKeepsEvidence(ev: Option<Evidence>, e: Event)
    requires ev.Some? ==> EvidenceOk(ev.value)
    ensures Step(ev, e).Some? ==> EvidenceOk(Step(ev, e).value)
  {}

  lemma {:induction false} SessionEvidence(h: seq<Event>)
    ensures Session(h).Some? ==> EvidenceOk(Session(h).value)
  {
    if h != [] { SessionEvidence(h[..|h| - 1]); }
  }

  // ---------- the history that gives a context ----------

  /** The OPEN a history ends with, looking past silent state changes. */
  function LastOpen(h: seq<Event>): (r: Option<Event>)
    ensures r.Some? ==> r.value.Opened?
  {
    if h == [] then None
    else
      var e := h[|h| - 1];
      if e.Silent? then LastOpen(h[..|h| - 1]) else if e.Opened? then Some(e) else None
  }

  /** How many OPENs of alternating direction a history ends with. */
  function Alternating(h: seq<Event>): nat {
    if h == [] then 0
    else
      var e, before := h[|h| - 1], h[..|h| - 1];
      if e.Silent? then Alternating(before)
      else if !e.Opened? then 0
      else if LastOpen(before).Some? && LastOpen(before).value.sent != e.sent then Alternating(before) + 1
      else 1
  }

  predicate Opposite(a: Event, b: Event) {
    a.Opened? && b.Opened? && a.sent != b.sent
  }

  function ReceivedOf(a: Event, b: Event): Open
    requires Opposite(a, b)
  {
    if a.sent then b.open else a.open
  }

  function SentOf(a: Event, b: Event): Open
    requires Opposite(a, b)
  {
    if a.sent then a.open else b.open
  }

  /** OPENs i and j are the two halves of the current epoch: opposite directions,
      nothing but silent state changes between them, j completing a pair and not
      starting one, and since j no OPEN, no end of the epoch and no UPDATE whose
      AS numbers disagree with the two OPENs. */
  ghost predicate PairAt(h: seq<Event>, i: nat, j: nat) {
    && i < j < |h| && Opposite(h[i], h[j])
    && (forall x :: i < x < j ==> h[x].Silent?)
    && Alternating(h[..j + 1]) % 2 == 0
    && (forall x :: j < x < |h| ==> Harmless(h[i], h[j], h[x]))
  }

  predicate Harmless(a: Event, b: Event, e: Event)
    requires Opposite(a, b)
  {
    e.Silent? || e.Traffic? || (e.Updated? && UpdateMatches(ReceivedOf(a, b), SentOf(a, b), e))
  }

  /** The evidence of a session, read off its history. */
  ghost predicate Explains(h: seq<Event>, ev: Option<Evidence>) {
    match ev
    case None => LastOpen(h).None?
    case Some(v) =>
      && EvidenceOk(v)
      && (v.used ==> LastOpen(h).None?)
      && (!v.used ==>
            && LastOpen(h).Some?
            && v.Slot(LastOpen(h).value.sent) == Some(LastOpen(h).value.open)
            && (v.negotiated.Some? <==> Alternating(h) % 2 == 0))
  }

  lemma {:induction false} AlternatingOpens(h: seq<Event>)
    ensures LastOpen(h).Some? <==> Alternating(h) > 0
  {
    if h != [] { AlternatingOpens(h[..|h| - 1]); }
  }

  lemma {:induction false} SessionExplained(h: seq<Event>)
    ensures Explains(h, Session(h))
  {
    if h != [] {
      var before := h[..|h| - 1];
      SessionExplained(before);
      AlternatingOpens(before);
      StepKeepsEvidence(Session(before), h[|h| - 1]);
    }
  }

  lemma {:induction false} LastOpenAt(h: seq<Event>, i: nat)
    requires i < |h| && h[i].Opened? && forall x :: i < x < |h| ==> h[x].Silent?
    ensures LastOpen(h) == Some(h[i])
  {
    if i < |h| - 1 { LastOpenAt(h[..|h| - 1], i); }
  }

  lemma {:induction false} LastOpenIndex(h: seq<Event>) returns (i: nat)
    requires LastOpen(h).Some?
    ensures i < |h| && h[i] == LastOpen(h).value && forall x :: i < x < |h| ==> h[x].Silent?
  {
    if h[|h| - 1].Silent? {
      i := LastOpenIndex(h[..|h| - 1]);
    } else {
      i := |h| - 1;
    }
  }

  ghost predicate Holds(ev: Option<Evidence>, a: Event, b: Event)
    requires Opposite(a, b)
  {
    && ev.Some? && EvidenceOk(ev.value)
    && ev.value.received == Some(ReceivedOf(a, b)) && ev.value.sent == Some(SentOf(a, b))
  }

  lemma {:induction false} PairGivesEvidence(h: seq<Event>, i: nat, j: nat)
    requires PairAt(h, i, j)
    ensures Holds(Session(h), h[i], h[j])
  {
    var before, e := h[..|h| - 1], h[|h| - 1];
    if j == |h| - 1 {
      assert h[..j + 1] == h;
      LastOpenAt(before, i);
      SessionExplained(before);
    } else {
      assert before[..j + 1] == h[..j + 1];
      PairGivesEvidence(before, i, j);
      assert Harmless(h[i], h[j], e);
    }
  }

  lemma {:induction false} EvidenceGivesPair(h: seq<Event>) returns (i: nat, j: nat)
    requires Session(h).Some? && Session(h).value.negotiated.Some?
    ensures PairAt(h, i, j)
  {
    var before, e := h[..|h| - 1], h[|h| - 1];
    if e.Opened? {
      SessionExplained(before);
      i := LastOpenIndex(before);
      j := |h| - 1;
      assert h[..j + 1] == h;
    } else {
      i, j := EvidenceGivesPair(before);
      PairGivesEvidence(before, i, j);
      assert h[..j + 1] == before[..j + 1];
    }
  }

  /** An UPDATE gets a context exactly when its session's history holds a completed
      pair of opposite OPENs that it and everything since agree with, and the
      context is Negotiate of exactly those two. */
  lemma ContextIffPair(h: seq<Event>, e: Event)
    requires e.Updated?
    ensures Attach(Session(h), e).Some? <==> exists i: nat, j: nat :: PairAt(h + [e], i, j)
    ensures forall i: nat, j: nat :: PairAt(h + [e], i, j) ==>
              Attach(Session(h), e) == Some(NegotiatedFrom((h + [e])[i], (h + [e])[j]))
  {
    var all := h + [e];
    forall i: nat, j: nat | PairAt(all, i, j)
      ensures Attach(Session(h), e) == Some(NegotiatedFrom(all[i], all[j]))
    {
      assert all[..j + 1] == h[..j + 1];
      forall x | j < x < |h| ensures Harmless(h[i], h[j], h[x]) { assert Harmless(all[i], all[j], all[x]); }
      PairGivesEvidence(h, i, j);
      assert Harmless(all[i], all[j], all[|h|]);
    }
    if Attach(Session(h), e).Some? {
      var i, j := EvidenceGivesPair(h);
      PairGivesEvidence(h, i, j);
      assert all[..j + 1] == h[..j + 1];
      assert PairAt(all, i, j);
    }
  }

  function NegotiatedFrom(a: Event, b: Event): Negotiated
    requires Opposite(a, b)
  {
    Negotiated(SentOf(a, b).caps, ReceivedOf(a, b).caps)
  }

  // ---------- many sessions ----------

  predicate Readable(r: Record) {
    ContextKey(r.hdr).Some? && (r.Message? ==> |r.wire| >= 19)
  }

  /** The history of one session within a stream. */
  function Project(parse: Parser, recs: seq<Record>, k: Key): seq<Event> {
    if recs == [] then []
    else
      var r, rest := recs[|recs| - 1], Project(parse, recs[..|recs| - 1], k);
      if Readable(r) && ContextKey(r.hdr) == Some(k) then rest + [EventOf(parse, r)] else rest
  }

  /** No record touches the evidence of a session other than its own, accepted or not. */
  lemma OthersUntouched(parse: Parser, peers: Peers, r: Record, k: Key)
    requires ContextKey(r.hdr) != Some(k)
    ensures Look(Observe(parse, peers, r).0, k) == Look(peers, k)
  {}

  lemma OwnStep(parse: Parser, peers: Peers, r: Record, k: Key)
    requires ContextKey(r.hdr) == Some(k) && Observe(parse, peers, r).1.Ok?
    ensures Readable(r)
    ensures Look(Observe(parse, peers, r).0, k) == Step(Look(peers, k), EventOf(parse, r))
    ensures Observe(parse, peers, r).1 == Ok(Attach(Look(peers, k), EventOf(parse, r)))
  {}

  /** The evidence kept for a session depends on that session's records alone. */
  lemma {:induction false} RunIsItsSessions(parse: Parser, recs: seq<Record>, k: Key)
    requires Run(parse, recs).Some?
    ensures Look(Run(parse, recs).value, k) == Session(Project(parse, recs, k))
  {
    if recs != [] {
      var before, r := recs[..|recs| - 1], recs[|recs| - 1];
      RunIsItsSessions(parse, before, k);
      var peers, h := Run(parse, before).value, Project(parse, before, k);
      if ContextKey(r.hdr) == Some(k) {
        OwnStep(parse, peers, r, k);
        assert (h + [EventOf(parse, r)])[..|h|] == h;
      } else {
        OthersUntouched(parse, peers, r, k);
      }
    }
  }

  lemma StoreSize(peers: Peers, k: Key, v: Evidence)
    ensures |peers - {k}| <= |peers|
    ensures |peers[k := v]| <= |peers - {k}| + 1
    ensures k in peers ==> |peers[k := v]| == |peers|
  {
    assert (peers - {k}).Keys == peers.Keys - {k};
    assert peers[k := v].Keys == peers.Keys + {k} == (peers - {k}).Keys + {k};
    if k in peers { assert peers[k := v].Keys == peers.Keys; }
  }

  ghost predicate Bounded(peers: Peers) {
    |peers| <= MAX_SESSIONS && forall k :: k in peers ==> EvidenceOk(peers[k])
  }

  lemma StoreBounded(peers: Peers, k: Key, e: Event)
    requires Bounded(peers) && (NeedsSlot(peers, k, e) ==> |peers - {k}| < MAX_SESSIONS)
    ensures Bounded(Store(peers, k, Step(Look(peers, k), e)))
  {
    var ev := Step(Look(peers, k), e);
    StepKeepsEvidence(Look(peers, k), e);
    StoreSize(peers, k, if ev.Some? then ev.value else NO_EVIDENCE);
  }

  /** At most 65536 sessions are kept, also after a refused record, and each holds
      a negotiated context exactly when both directions are seen. */
  lemma ObserveKeepsBound(parse: Parser, peers: Peers, r: Record)
    requires Bounded(peers)
    ensures Bounded(Observe(parse, peers, r).0)
  {
    if Readable(r) {
      var k, e := ContextKey(r.hdr).value, EventOf(parse, r);
      StoreSize(peers, k, NO_EVIDENCE);
      if Observe(parse, peers, r).1.Ok? { StoreBounded(peers, k, e); }
    }
  }

  lemma {:induction false} RunKeepsBound(parse: Parser, recs: seq<Record>)
    requires Run(parse, recs).Some?
    ensures Bounded(Run(parse, recs).value)
  {
    if recs != [] {
      var before := recs[..|recs| - 1];
      RunKeepsBound(parse, before);
      ObserveKeepsBound(parse, Run(parse, before).value, recs[|recs| - 1]);
    }
  }

  /** The same, in a stream of any number of sessions: the context of an UPDATE is
      decided by the pair of OPENs in its own session's history. */
  lemma StreamContextIffPair(parse: Parser, recs: seq<Record>, r: Record, k: Key)
    requires Run(parse, recs).Some? && Readable(r) && ContextKey(r.hdr) == Some(k)
    requires EventOf(parse, r).Updated?
    ensures var all := Project(parse, recs, k) + [EventOf(parse, r)];
            var out := Observe(parse, Run(parse, recs).value, r).1;
            && out.Ok?
            && (out.context.Some? <==> exists i: nat, j: nat :: PairAt(all, i, j))
            && forall i: nat, j: nat :: PairAt(all, i, j) ==> out.context == Some(NegotiatedFrom(all[i], all[j]))
  {
    RunIsItsSessions(parse, recs, k);
    OwnStep(parse, Run(parse, recs).value, r, k);
    ContextIffPair(Project(parse, recs, k), EventOf(parse, r));
  }
}
