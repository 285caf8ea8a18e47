/** The in-memory ledger: appending, folding sagas, and anchoring all heads under a Merkle root. */
module Anchors {
  import opened Options
  import opened Texts
  import opened Jcs
  import opened Chain
  import opened Merkle

  const ANCHOR_SAGA: Text := A("sag__anchors")
  const ANCHORED: Text := A("ledger_anchored")

  /** What the projection keeps of a saga's chain. */
  datatype SagaHead = SagaHead(head: Text, len: nat)

  type Sagas = seq<Entry<SagaHead>>

  function Find(sagas: Sagas, s: Text): Option<SagaHead> {
    if sagas == [] then None
    else if sagas[0].key == s then Some(sagas[0].val)
    else Find(sagas[1..], s)
  }

  function HashOf(e: Event): Text {
    match e.hash
    case Some(x) => x
    case None => []
  }

  /** `applyEventToProjections`, the part common to every event: head and length of the saga. */
  function Advance(sagas: Sagas, e: Event): Sagas {
    if sagas == [] then [Entry(e.sagaId, SagaHead(HashOf(e), 1))]
    else if sagas[0].key == e.sagaId then [Entry(e.sagaId, SagaHead(HashOf(e), sagas[0].val.len + 1))] + sagas[1..]
    else [sagas[0]] + Advance(sagas[1..], e)
  }

  function FoldSagas(events: seq<Event>): Sagas {
    if events == [] then [] else Advance(FoldSagas(events[..|events| - 1]), events[|events| - 1])
  }

  /** The events of one saga, in log order. */
  function SagaEvents(events: seq<Event>, s: Text): (r: seq<Event>)
    ensures |r| <= |events|
  {
    if events == [] then []
    else
      var front := SagaEvents(events[..|events| - 1], s);
      if events[|events| - 1].sagaId == s then front + [events[|events| - 1]] else front
  }

  function UserHeads(sagas: Sagas): seq<Head> {
    if sagas == [] then []
    else if sagas[0].key == ANCHOR_SAGA then UserHeads(sagas[1..])
    else [Entry(sagas[0].key, sagas[0].val.head)] + UserHeads(sagas[1..])
  }

  lemma {:induction false} AdvanceKeys(sagas: Sagas, e: Event, k: Text)
    requires k != e.sagaId && forall i :: 0 <= i < |sagas| ==> sagas[i].key != k
    ensures forall i :: 0 <= i < |Advance(sagas, e)| ==> Advance(sagas, e)[i].key != k
  {
    if sagas != [] && sagas[0].key != e.sagaId {
      AdvanceKeys(sagas[1..], e, k);
    }
  }

  lemma {:induction false} FindAdvance(sagas: Sagas, e: Event, s: Text)
    requires DistinctKeys(sagas)
    ensures DistinctKeys(Advance(sagas, e))
    ensures Find(Advance(sagas, e), s) ==
            if s != e.sagaId then Find(sagas, s)
            else match Find(sagas, s)
              case None => Some(SagaHead(HashOf(e), 1))
              case Some(v) => Some(SagaHead(HashOf(e), v.len + 1))
  {
    hide HashOf;
    if sagas != [] && sagas[0].key != e.sagaId {
      FindAdvance(sagas[1..], e, s);
      AdvanceKeys(sagas[1..], e, sagas[0].key);
    }
  }

  lemma SnocEvents(events: seq<Event>, e: Event, s: Text)
    ensures FoldSagas(events + [e]) == Advance(FoldSagas(events), e)
    ensures SagaEvents(events + [e], s) == if e.sagaId == s then SagaEvents(events, s) + [e] else SagaEvents(events, s)
  {
    var all := events + [e];
    assert all[..|all| - 1] == events;
  }

  /** The fold keeps, for every saga, the hash and the number of its events. */
  lemma {:induction false} FoldExact(events: seq<Event>, s: Text)
    ensures DistinctKeys(FoldSagas(events))
    ensures var own := SagaEvents(events, s);
            Find(FoldSagas(events), s) == if own == [] then None else Some(SagaHead(HashOf(own[|own| - 1]), |own|))
  {
    if events != [] {
      var front, e := events[..|events| - 1], events[|events| - 1];
      FoldExact(front, s);
      FindAdvance(FoldSagas(front), e, s);
    }
  }

  lemma {:induction false} UserHeadsExact(sagas: Sagas, p: Head)
    requires DistinctKeys(sagas)
    ensures DistinctKeys(UserHeads(sagas))
    ensures p in UserHeads(sagas) <==>
            p.key != ANCHOR_SAGA && Find(sagas, p.key).Some? && Find(sagas, p.key).value.head == p.val
  {
    if sagas != [] {
      var tail := sagas[1..];
      UserHeadsExact(tail, p);
      if sagas[0].key != ANCHOR_SAGA {
        forall j | 0 <= j < |UserHeads(tail)| ensures UserHeads(tail)[j].key != sagas[0].key {
          UserHeadsExact(tail, UserHeads(tail)[j]);
          FindAbsent(tail, sagas[0].key);
        }
      }
      if p.key == sagas[0].key {
        FindAbsent(tail, p.key);
      }
    }
  }

  lemma {:induction false} FindAbsent(sagas: Sagas, s: Text)
    requires forall i :: 0 <= i < |sagas| ==> sagas[i].key != s
    ensures Find(sagas, s) == None
  {
    if sagas != [] { FindAbsent(sagas[1..], s); }
  }

  function CurrentHeads(events: seq<Event>): seq<Head> {
    UserHeads(FoldSagas(events))
  }

  /** The anchored heads are exactly the last hashes of the user sagas in the log so far, one per saga. */
  lemma CurrentHeadsExact(events: seq<Event>, p: Head)
    ensures DistinctKeys(CurrentHeads(events))
    ensures p in CurrentHeads(events) <==>
            var own := SagaEvents(events, p.key);
            p.key != ANCHOR_SAGA && own != [] && HashOf(own[|own| - 1]) == p.val
  {
    FoldExact(events, p.key);
    UserHeadsExact(FoldSagas(events), p);
  }

  // ---------------------------------------------------------------- the log

  /** Verification without a public key. */
  const NO_KEY: Event -> bool := (e: Event) => false

  /** Every saga of the log, the anchor saga included, is a chain that `verifyChain` accepts. */
  ghost predicate AllVerify(h: Hash, events: seq<Event>) {
    forall s :: Accepts(h, NO_KEY, s, SagaEvents(events, s))
  }

  /** The event continues the chain of its saga. */
  ghost predicate Continues(h: Hash, events: seq<Event>, e: Event) {
    var own := SagaEvents(events, e.sagaId);
    && e.seqNo == |own| + 1
    && e.prevHash == Link(h, e.sagaId, own, |own|)
    && e.hash == Some(EventHash(h, e))
    && e.sig == None
  }

  lemma ContinuesKeepsVerify(h: Hash, events: seq<Event>, e: Event)
    requires AllVerify(h, events) && Continues(h, events, e)
    ensures AllVerify(h, events + [e])
  {
    forall s ensures Accepts(h, NO_KEY, s, SagaEvents(events + [e], s)) {
      SnocEvents(events, e, s);
      var own := SagaEvents(events, s);
      assert Accepts(h, NO_KEY, s, own);
      if e.sagaId == s {
        AppendAccepted(h, NO_KEY, s, own, e);
        assert Chained(h, e, Link(h, s, own, |own|)) == e;
      }
    }
  }

  function Member(ms: seq<Entry<Json>>, name: Text): Option<Json> {
    if ms == [] then None
    else if ms[0].key == name then Some(ms[0].val)
    else Member(ms[1..], name)
  }

  function PayloadMember(e: Event, name: string): Option<Json> {
    if e.payload.Obj? then Member(e.payload.members, A(name)) else None
  }

  datatype AnchorRecord = AnchorRecord(anchorSeq: int, root: Text, prevHash: Text, hash: Text)

  function TextOf(v: Option<Json>): Text {
    match v
    case Some(Str(s)) => s
    case _ => []
  }

  function RecordOf(e: Event): AnchorRecord {
    var n := match PayloadMember(e, "anchor_seq")
             case Some(Num(t)) => NatOf(t)
             case _ => 0;
    AnchorRecord(n, TextOf(PayloadMember(e, "merkle_root")), TextOf(PayloadMember(e, "prev_anchor_hash")), HashOf(e))
  }

  function HeadJson(sagas: Sagas): seq<Json> {
    if sagas == [] then []
    else if sagas[0].key == ANCHOR_SAGA then HeadJson(sagas[1..])
    else [Record(["saga_id", "chain_head", "chain_len"],
                 [Str(sagas[0].key), Str(sagas[0].val.head), NumberOf(sagas[0].val.len)])] + HeadJson(sagas[1..])
  }

  const ANCHOR_NAMES := ["anchor_seq", "merkle_root", "prev_anchor_hash", "saga_heads", "anchored_at"]

  predicate IsAnchor(e: Event) {
    e.kind == ANCHORED
  }

  predicate IsNumbered(anchors: seq<AnchorRecord>, n: int) {
    exists i :: 0 <= i < |anchors| && anchors[i].anchorSeq == n
  }

  /** The anchor records after an event: every anchored event adds one, unless its number is there already. */
  function Recorded(anchors: seq<AnchorRecord>, e: Event): seq<AnchorRecord> {
    if IsAnchor(e) && !IsNumbered(anchors, RecordOf(e).anchorSeq) then anchors + [RecordOf(e)] else anchors
  }

  /** The anchor event `fireAnchor` builds on top of a log. */
  function AnchorEvent(h: Hash, events: seq<Event>, anchors: seq<AnchorRecord>, id: Text, at: Text): Event {
    var own := SagaEvents(events, ANCHOR_SAGA);
    var last := if anchors == [] then AnchorRecord(0, [], [], Genesis(h, ANCHOR_SAGA)) else anchors[|anchors| - 1];
    var payload := Record(ANCHOR_NAMES,
                          [ NumberOf(last.anchorSeq + 1), Str(Root(h, SortEntries(CurrentHeads(events)))),
                            Str(last.hash), Arr(HeadJson(SortEntries(FoldSagas(events)))), Str(at) ]);
    Chained(h, Event(id, ANCHORED, at, ANCHOR_SAGA, |own| + 1, None, A("system"), A("vekrevert"),
                     payload, [], None, None),
            Link(h, ANCHOR_SAGA, own, |own|))
  }

  /** The anchor commits to the heads of all user sagas before it. */
  ghost predicate Honest(h: Hash, before: seq<Event>, e: Event) {
    PayloadMember(e, "merkle_root") == Some(Str(Root(h, CurrentHeads(before))))
  }

  ghost predicate AnchorsHonest(h: Hash, events: seq<Event>) {
    forall i :: 0 <= i < |events| && IsAnchor(events[i]) ==> Honest(h, events[..i], events[i])
  }

  /** The hash the i-th anchor points back to. */
  function AnchorLink(h: Hash, anchors: seq<AnchorRecord>, i: nat): Text
    requires i <= |anchors|
  {
    if i == 0 then Genesis(h, ANCHOR_SAGA) else anchors[i - 1].hash
  }

  /** The anchor records: numbered from one, each pointing back to the one before, each the record of
      the corresponding event of the anchor saga. */
  ghost predicate AnchorsLinked(h: Hash, events: seq<Event>, anchors: seq<AnchorRecord>) {
    LinkedTo(h, SagaEvents(events, ANCHOR_SAGA), anchors)
  }

  ghost predicate LinkedTo(h: Hash, own: seq<Event>, anchors: seq<AnchorRecord>) {
    && |anchors| == |own|
    && forall i :: 0 <= i < |anchors| ==>
         && anchors[i] == RecordOf(own[i])
         && anchors[i].anchorSeq == i + 1
         && anchors[i].prevHash == AnchorLink(h, anchors, i)
  }

  /** Nothing but anchors in the anchor saga. */
  ghost predicate OnlyAnchors(events: seq<Event>) {
    forall i :: 0 <= i < |events| && events[i].sagaId == ANCHOR_SAGA ==> events[i].kind == ANCHORED
  }

  ghost predicate HasUserSaga(events: seq<Event>) {
    exists i :: 0 <= i < |events| && events[i].sagaId != ANCHOR_SAGA
  }

  lemma MemberOf(names: seq<string>, vals: seq<Json>, i: nat)
    requires |names| == |vals| && GoodNames(names) && i < |names|
    ensures Member(Record(names, vals).members, A(names[i])) == Some(vals[i])
  {
    var ms := Record(names, vals).members;
    MemberAt(names, ms, i);
  }

  lemma {:induction false} MemberAt(names: seq<string>, ms: seq<Entry<Json>>, i: nat)
    requires |names| == |ms| && GoodNames(names) && i < |names|
    requires forall k :: 0 <= k < |ms| ==> ms[k].key == A(names[k])
    ensures Member(ms, A(names[i])) == Some(ms[i].val)
  {
    if i > 0 {
      LiteralsDiffer(names[0], names[i]);
      MemberAt(names[1..], ms[1..], i - 1);
    }
  }

  lemma AnchorNamesGood()
    ensures GoodNames(ANCHOR_NAMES)
  {
    var n := ANCHOR_NAMES;
    assert |n[0]| == 10 && |n[1]| == 11 && |n[2]| == 16 && |n[3]| == 10 && |n[4]| == 11;
    assert n[0][0] == 'a' && n[3][0] == 's' && n[1][0] == 'm' && n[4][0] == 'a';
  }

  /** What `fireAnchor` writes continues the anchor chain, commits to the current heads, and records as intended. */
  lemma AnchorEventGood(h: Hash, events: seq<Event>, anchors: seq<AnchorRecord>, id: Text, at: Text)
    requires anchors == [] || anchors[|anchors| - 1].anchorSeq >= 0
    ensures var e := AnchorEvent(h, events, anchors, id, at);
            && IsAnchor(e) && Continues(h, events, e) && Honest(h, events, e)
            && RecordOf(e) == (if anchors == [] then AnchorRecord(1, Root(h, CurrentHeads(events)), Genesis(h, ANCHOR_SAGA), HashOf(e))
                               else AnchorRecord(anchors[|anchors| - 1].anchorSeq + 1, Root(h, CurrentHeads(events)),
                                                 anchors[|anchors| - 1].hash, HashOf(e)))
  {
    var e := AnchorEvent(h, events, anchors, id, at);
    var own := SagaEvents(events, ANCHOR_SAGA);
    var heads := CurrentHeads(events);
    CurrentHeadsExact(events, Entry([], []));
    SortAscends(heads);
    var sorted := SortEntries(heads);
    forall i, j | 0 <= i < j < |sorted| ensures sorted[i].key != sorted[j].key {
      LessAsymmetric(sorted[i].key, sorted[j].key);
    }
    RootIgnoresOrder(h, heads, sorted);
    AnchorContinues(h, events, anchors, id, at);
    AnchorMembers(h, events, anchors, id, at);
    var last := if anchors == [] then AnchorRecord(0, [], [], Genesis(h, ANCHOR_SAGA)) else anchors[|anchors| - 1];
    NatOfDigits(last.anchorSeq + 1);
  }

  lemma AnchorContinues(h: Hash, events: seq<Event>, anchors: seq<AnchorRecord>, id: Text, at: Text)
    ensures var e := AnchorEvent(h, events, anchors, id, at);
            IsAnchor(e) && Continues(h, events, e)
  {
    var own := SagaEvents(events, ANCHOR_SAGA);
    var e := AnchorEvent(h, events, anchors, id, at);
    var link := Link(h, ANCHOR_SAGA, own, |own|);
    assert Body(e) == Body(e.(hash := None));
  }

  lemma AnchorMembers(h: Hash, events: seq<Event>, anchors: seq<AnchorRecord>, id: Text, at: Text)
    ensures var e := AnchorEvent(h, events, anchors, id, at);
            var last := if anchors == [] then AnchorRecord(0, [], [], Genesis(h, ANCHOR_SAGA)) else anchors[|anchors| - 1];
            && PayloadMember(e, "anchor_seq") == Some(NumberOf(last.anchorSeq + 1))
            && PayloadMember(e, "merkle_root") == Some(Str(Root(h, SortEntries(CurrentHeads(events)))))
            && PayloadMember(e, "prev_anchor_hash") == Some(Str(last.hash))
  {
    AnchorNamesGood();
    hide Root, CurrentHeads, HeadJson, SortEntries, FoldSagas, SagaEvents, Genesis, Link;
    var last := if anchors == [] then AnchorRecord(0, [], [], Genesis(h, ANCHOR_SAGA)) else anchors[|anchors| - 1];
    var vals := [ NumberOf(last.anchorSeq + 1), Str(Root(h, SortEntries(CurrentHeads(events)))),
                  Str(last.hash), Arr(HeadJson(SortEntries(FoldSagas(events)))), Str(at) ];
    MemberOf(ANCHOR_NAMES, vals, 0);
    MemberOf(ANCHOR_NAMES, vals, 1);
    MemberOf(ANCHOR_NAMES, vals, 2);
  }

  /** A saga as an anchor lists it. */
  function HeadEntry(p: Entry<SagaHead>): Json {
    Obj([Entry(A("saga_id"), Str(p.key)), Entry(A("chain_head"), Str(p.val.head)), Entry(A("chain_len"), NumberOf(p.val.len))])
  }

  function UserSagas(sagas: Sagas): Sagas {
    if sagas == [] then []
    else if sagas[0].key == ANCHOR_SAGA then UserSagas(sagas[1..])
    else [sagas[0]] + UserSagas(sagas[1..])
  }

  lemma {:induction false} UserSagasListed(sagas: Sagas)
    ensures |UserSagas(sagas)| == |HeadJson(sagas)|
    ensures forall i :: 0 <= i < |UserSagas(sagas)| ==> HeadJson(sagas)[i] == HeadEntry(UserSagas(sagas)[i])
  {
    hide Record, HeadEntry, ANCHOR_SAGA;
    if sagas != [] {
      UserSagasListed(sagas[1..]);
      HeadRecord(sagas[0]);
    }
  }

  lemma {:induction false} UserSagasExact(sagas: Sagas)
    ensures forall p :: p in UserSagas(sagas) <==> p in sagas && p.key != ANCHOR_SAGA
  {
    hide ANCHOR_SAGA;
    if sagas != [] {
      UserSagasExact(sagas[1..]);
      assert sagas == [sagas[0]] + sagas[1..];
    }
  }

  lemma {:induction false} UserSagasAscend(sagas: Sagas)
    requires Ascending(sagas)
    ensures Ascending(UserSagas(sagas))
  {
    hide Less, ANCHOR_SAGA;
    if sagas != [] {
      FirstBelow(sagas);
      UserSagasAscend(sagas[1..]);
      UserSagasExact(sagas[1..]);
      if sagas[0].key != ANCHOR_SAGA { ConsAscends(sagas[0], UserSagas(sagas[1..]), sagas[1..]); }
      hide Ascending;
    }
  }

  lemma ConsAscends(p: Entry<SagaHead>, rest: Sagas, tail: Sagas)
    requires Ascending(rest) && forall q :: q in rest ==> q in tail
    requires forall q :: q in tail ==> Less(p.key, q.key)
    ensures Ascending([p] + rest)
  {
    hide Less;
    forall j | 0 <= j < |rest| ensures Less(p.key, rest[j].key) { assert rest[j] in rest; }
  }

  lemma FoldMember(events: seq<Event>, s: Text, v: SagaHead)
    ensures var own := SagaEvents(events, s);
            Entry(s, v) in SortEntries(FoldSagas(events)) <==> own != [] && v == SagaHead(HashOf(own[|own| - 1]), |own|)
  {
    FoldExact(events, s);
    FindMember(FoldSagas(events), Entry(s, v));
    hide FoldSagas, SagaEvents, SortEntries, HashOf;
  }

  lemma HeadRecord(p: Entry<SagaHead>)
    ensures Record(["saga_id", "chain_head", "chain_len"], [Str(p.key), Str(p.val.head), NumberOf(p.val.len)]) == HeadEntry(p)
  {
    hide A;
  }

  lemma FirstBelow(sagas: Sagas)
    requires Ascending(sagas) && sagas != []
    ensures forall p :: p in sagas[1..] ==> Less(sagas[0].key, p.key)
    ensures Ascending(sagas[1..])
  {
    hide Less;
    forall p | p in sagas[1..] ensures Less(sagas[0].key, p.key) {
      var k :| 0 <= k < |sagas[1..]| && sagas[1..][k] == p;
      assert sagas[k + 1] == p;
    }
  }

  lemma {:induction false} FindMember(sagas: Sagas, p: Entry<SagaHead>)
    requires DistinctKeys(sagas)
    ensures p in sagas <==> Find(sagas, p.key) == Some(p.val)
  {
    if sagas != [] {
      FindMember(sagas[1..], p);
      assert sagas == [sagas[0]] + sagas[1..];
      assert p in sagas[1..] ==> p.key != sagas[0].key;
    }
  }

  /** An anchor lists every user saga once, in the order of their ids, with its last hash and length, and says
      when it was made. */
  lemma SagaHeadsExact(h: Hash, events: seq<Event>, anchors: seq<AnchorRecord>, id: Text, at: Text) returns (heads: Sagas)
    ensures var e := AnchorEvent(h, events, anchors, id, at);
            && PayloadMember(e, "saga_heads") == Some(Arr(seq(|heads|, i requires 0 <= i < |heads| => HeadEntry(heads[i]))))
            && PayloadMember(e, "anchored_at") == Some(Str(at)) && e.id == id && e.ts == at
            && e.actorKind == A("system") && e.actorId == A("vekrevert") && e.effectId == None
    ensures forall i, j :: 0 <= i < j < |heads| ==> Below(heads[i].key, heads[j].key)
    ensures forall s, v :: Entry(s, v) in heads <==>
              var own := SagaEvents(events, s);
              s != ANCHOR_SAGA && own != [] && v == SagaHead(HashOf(own[|own| - 1]), |own|)
  {
    hide AnchorEvent, HeadJson, HeadEntry, FoldSagas, Below, Less, SortEntries, PayloadMember, SagaEvents, HashOf, UserSagas;
    var sagas := SortEntries(FoldSagas(events));
    FoldExact(events, []);
    SortAscends(FoldSagas(events));
    heads := UserSagas(sagas);
    UserSagasListed(sagas);
    UserSagasExact(sagas);
    UserSagasAscend(sagas);
    AscendingBelow(heads);
    HeadsMember(h, events, anchors, id, at);
    assert HeadJson(sagas) == seq(|heads|, i requires 0 <= i < |heads| => HeadEntry(heads[i]));
    HeadsMeaning(events, sagas, heads);
  }

  lemma HeadsMeaning(events: seq<Event>, sagas: Sagas, heads: Sagas)
    requires sagas == SortEntries(FoldSagas(events)) && forall p :: p in heads <==> p in sagas && p.key != ANCHOR_SAGA
    ensures forall s, v :: Entry(s, v) in heads <==>
              var own := SagaEvents(events, s);
              s != ANCHOR_SAGA && own != [] && v == SagaHead(HashOf(own[|own| - 1]), |own|)
  {
    hide HashOf, SagaEvents, FoldSagas, SortEntries;
    forall s, v
      ensures Entry(s, v) in heads <==>
                var own := SagaEvents(events, s);
                s != ANCHOR_SAGA && own != [] && v == SagaHead(HashOf(own[|own| - 1]), |own|)
    {
      FoldMember(events, s, v);
      assert Entry(s, v) in heads <==> Entry(s, v) in sagas && s != ANCHOR_SAGA;
    }
  }

  lemma HeadsMember(h: Hash, events: seq<Event>, anchors: seq<AnchorRecord>, id: Text, at: Text)
    ensures var e := AnchorEvent(h, events, anchors, id, at);
            && PayloadMember(e, "saga_heads") == Some(Arr(HeadJson(SortEntries(FoldSagas(events)))))
            && PayloadMember(e, "anchored_at") == Some(Str(at)) && e.id == id && e.ts == at
            && e.actorKind == A("system") && e.actorId == A("vekrevert") && e.effectId == None
  {
    AnchorNamesGood();
    hide Root, CurrentHeads, HeadJson, SortEntries, FoldSagas, SagaEvents, Genesis, Link;
    var last := if anchors == [] then AnchorRecord(0, [], [], Genesis(h, ANCHOR_SAGA)) else anchors[|anchors| - 1];
    var vals := [ NumberOf(last.anchorSeq + 1), Str(Root(h, SortEntries(CurrentHeads(events)))),
                  Str(last.hash), Arr(HeadJson(SortEntries(FoldSagas(events)))), Str(at) ];
    MemberOf(ANCHOR_NAMES, vals, 3);
    MemberOf(ANCHOR_NAMES, vals, 4);
  }

  // ---------------------------------------------------------------- the ledger object

  /** What the environment supplies while an event is appended: clock readings, a timestamp, a fresh id. */
  datatype Tick = Tick(nowMs: int, at: Text, id: Text, afterMs: int)

  class MemoryLedger {
    const h: Hash
    const anchorEvery: nat
    const anchorIntervalMs: int
    var events: seq<Event>
    var sagas: Sagas
    var anchors: seq<AnchorRecord>
    var lastAnchorCount: nat
    var lastAnchorMs: int
    var anchoring: bool

    ghost predicate Valid()
      reads this
    {
      && sagas == FoldSagas(events)
      && lastAnchorCount <= |events|
      && AllVerify(h, events)
      && AnchorsHonest(h, events)
      && AnchorsLinked(h, events, anchors)
      && OnlyAnchors(events)
    }

    constructor (h: Hash, anchorEvery: nat, anchorIntervalMs: int, nowMs: int)
      ensures Valid() && events == [] && !anchoring
      ensures this.h == h && this.anchorEvery == anchorEvery && this.anchorIntervalMs == anchorIntervalMs
    {
      this.h, this.anchorEvery, this.anchorIntervalMs := h, anchorEvery, anchorIntervalMs;
      events, sagas, anchors := [], [], [];
      lastAnchorCount, lastAnchorMs, anchoring := 0, nowMs, false;
    }

    /** Is an anchor due once the log has n events? */
    predicate Due(n: nat, nowMs: int)
      reads this
    {
      n - lastAnchorCount >= anchorEvery || nowMs - lastAnchorMs >= anchorIntervalMs
    }

    /** After the anchor clock ticked over a log: an anchor was added to it if one was due. */
    ghost predicate Ticked(logged: seq<Event>, anchors0: seq<AnchorRecord>, due: bool, count0: nat, ms0: int, t: Tick)
      reads this
    {
      if due then
        events == logged + [AnchorEvent(h, logged, anchors0, t.id, t.at)] && lastAnchorCount == |events| && lastAnchorMs == t.afterMs
      else events == logged && lastAnchorCount == count0 && lastAnchorMs == ms0
    }

    /** `append`: push the event, fold it, and let the anchor clock tick. */
    method Append(e: Event, t: Tick)
      requires Valid() && Continues(h, events, e)
      requires if anchoring then e == AnchorEvent(h, events, anchors, t.id, t.at)
               else e.sagaId != ANCHOR_SAGA && e.kind != ANCHORED
      modifies this
      ensures Valid() && anchoring == old(anchoring)
      ensures old(anchoring) ==>
                events == old(events) + [e] && lastAnchorCount == old(lastAnchorCount) && lastAnchorMs == old(lastAnchorMs)
      ensures !old(anchoring) ==>
                Ticked(old(events) + [e], old(anchors), old(Due(|events| + 1, t.nowMs)), old(lastAnchorCount), old(lastAnchorMs), t)
      ensures !anchoring && anchorEvery > 0 ==> |events| - lastAnchorCount < anchorEvery
      decreases !anchoring, 2
    {
      hide AllVerify, AnchorsHonest, AnchorsLinked, Continues, RecordOf, AnchorEvent, Advance;
      LogStep(h, events, anchors, e, t);
      if IsAnchor(e) && !IsNumbered(anchors, RecordOf(e).anchorSeq) {
        anchors := anchors + [RecordOf(e)];
      }
      sagas := Advance(sagas, e);
      SnocEvents(events, e, e.sagaId);
      events := events + [e];
      assert events[|events| - 1] == e;
      var _ := MaybeTickAnchor(t);
    }

    /** `maybeTickAnchor`. */
    method MaybeTickAnchor(t: Tick) returns (fired: bool)
      requires Valid()
      modifies this
      ensures Valid() && anchoring == old(anchoring)
      ensures fired <==>
                && !old(anchoring) && HasUserSaga(old(events))
                && (|old(events)| - old(lastAnchorCount) >= anchorEvery || t.nowMs - old(lastAnchorMs) >= anchorIntervalMs)
      ensures !fired ==> events == old(events) && anchors == old(anchors)
                         && lastAnchorCount == old(lastAnchorCount) && lastAnchorMs == old(lastAnchorMs)
      ensures fired ==> events == old(events) + [AnchorEvent(h, old(events), old(anchors), t.id, t.at)]
                        && lastAnchorCount == |events| && lastAnchorMs == t.afterMs
      decreases !anchoring, 1
    {
      if anchoring { return false; }
      if !Due(|events|, t.nowMs) { return false; }
      UserSagaPresent(events);
      if UserHeads(sagas) == [] { return false; }
      FireAnchor(t);
      return true;
    }

    /** The append inside `fireAnchor`, under its flag. */
    method AppendAnchor(t: Tick)
      requires Valid() && anchoring
      modifies this
      ensures Valid() && anchoring && events == old(events) + [AnchorEvent(h, old(events), old(anchors), t.id, t.at)]
      decreases !anchoring, 3
    {
      hide AllVerify, AnchorsHonest, Continues, RecordOf, AnchorEvent, Honest, Root, FoldSagas;
      AnchorSeqs(h, events, anchors);
      hide AnchorsLinked, OnlyAnchors, HasUserSaga, Ticked;
      AnchorEventGood(h, events, anchors, t.id, t.at);
      Append(AnchorEvent(h, events, anchors, t.id, t.at), t);
    }

    /** `fireAnchor`. */
    method FireAnchor(t: Tick)
      requires Valid()
      modifies this
      ensures Valid() && anchoring == old(anchoring)
      ensures old(anchoring) ==> events == old(events) && anchors == old(anchors)
      ensures !old(anchoring) ==>
                && events == old(events) + [AnchorEvent(h, old(events), old(anchors), t.id, t.at)]
                && lastAnchorCount == |events| && lastAnchorMs == t.afterMs
      decreases !anchoring, 0
    {
      if anchoring { return; }
      anchoring := true;
      AppendAnchor(t);
      lastAnchorCount := |events|;
      lastAnchorMs := t.afterMs;
      anchoring := false;
    }

    /** `appendChained`: build the event on the saga's head and append it. */
    method AppendChained(sagaId: Text, kind: Text, effectId: Option<Text>, actorKind: Text, actorId: Text,
                         payload: Json, id: Text, ts: Text, t: Tick)
      returns (e: Event)
      requires Valid() && !anchoring && sagaId != ANCHOR_SAGA && kind != ANCHORED
      modifies this
      ensures Valid() && !anchoring
      ensures e.sagaId == sagaId && e.kind == kind && e.payload == payload && e.effectId == effectId
      ensures Continues(h, old(events), e) && old(events) + [e] <= events
      ensures anchorEvery > 0 ==> |events| - lastAnchorCount < anchorEvery
    {
      FoldExact(events, sagaId);
      var prev, seqNo := Genesis(h, sagaId), 1;
      match Find(sagas, sagaId) {
        case None =>
        case Some(v) => prev, seqNo := v.head, v.len + 1;
      }
      e := Chained(h, Event(id, kind, ts, sagaId, seqNo, effectId, actorKind, actorId, payload, [], None, None), prev);
      HeadIsLink(h, events, sagaId);
      assert Body(e) == Body(e.(hash := None));
      Append(e, t);
    }
  }

  lemma HeadIsLink(h: Hash, events: seq<Event>, s: Text)
    requires AllVerify(h, events)
    ensures var own := SagaEvents(events, s);
            own != [] ==> Link(h, s, own, |own|) == HashOf(own[|own| - 1])
  {
    var own := SagaEvents(events, s);
    assert Accepts(h, NO_KEY, s, own);
    if own != [] {
      assert Fault(h, NO_KEY, s, own, |own| - 1) == None;
    }
  }

  lemma AnchorSeqs(h: Hash, events: seq<Event>, anchors: seq<AnchorRecord>)
    requires AnchorsLinked(h, events, anchors)
    ensures anchors == [] || anchors[|anchors| - 1].anchorSeq == |anchors|
  {
  }

  lemma UserSagaPresent(events: seq<Event>)
    ensures UserHeads(FoldSagas(events)) != [] <==> HasUserSaga(events)
  {
    if UserHeads(FoldSagas(events)) != [] {
      var p := UserHeads(FoldSagas(events))[0];
      CurrentHeadsExact(events, p);
      OwnEvents(events, p.key);
    }
    if HasUserSaga(events) {
      var i :| 0 <= i < |events| && events[i].sagaId != ANCHOR_SAGA;
      var s := events[i].sagaId;
      OwnEvents(events, s);
      var own := SagaEvents(events, s);
      CurrentHeadsExact(events, Entry(s, HashOf(own[|own| - 1])));
    }
  }

  lemma {:induction false} OwnEvents(events: seq<Event>, s: Text)
    ensures SagaEvents(events, s) != [] <==> exists i :: 0 <= i < |events| && events[i].sagaId == s
  {
    if events != [] {
      var front := events[..|events| - 1];
      OwnEvents(front, s);
      if i :| 0 <= i < |events| && events[i].sagaId == s {
        if i < |front| { assert front[i].sagaId == s; }
      }
      if SagaEvents(front, s) != [] {
        var i :| 0 <= i < |front| && front[i].sagaId == s;
        assert events[i].sagaId == s;
      }
    }
  }

  lemma HonestStep(h: Hash, events: seq<Event>, e: Event)
    requires AnchorsHonest(h, events)
    requires IsAnchor(e) ==> Honest(h, events, e)
    ensures AnchorsHonest(h, events + [e])
  {
    hide Honest;
    var all := events + [e];
    forall i | 0 <= i < |all| && IsAnchor(all[i]) ensures Honest(h, all[..i], all[i]) {
      assert all[..i] == events[..i];
      if i == |events| { assert events[..i] == events; }
    }
  }

  lemma LinkedStep(h: Hash, events: seq<Event>, anchors: seq<AnchorRecord>, e: Event)
    requires AnchorsLinked(h, events, anchors)
    requires e.sagaId == ANCHOR_SAGA ==>
               && RecordOf(e).anchorSeq == |anchors| + 1
               && RecordOf(e).prevHash == AnchorLink(h, anchors, |anchors|)
    ensures e.sagaId == ANCHOR_SAGA ==> !IsNumbered(anchors, RecordOf(e).anchorSeq)
    ensures AnchorsLinked(h, events + [e], if e.sagaId == ANCHOR_SAGA then anchors + [RecordOf(e)] else anchors)
  {
    hide RecordOf, SagaEvents, FoldSagas, AnchorLink;
    SnocEvents(events, e, ANCHOR_SAGA);
    if e.sagaId == ANCHOR_SAGA {
      LinkedSnoc(h, SagaEvents(events, ANCHOR_SAGA), anchors, e);
    }
  }

  lemma LinkedSnoc(h: Hash, own: seq<Event>, anchors: seq<AnchorRecord>, e: Event)
    requires LinkedTo(h, own, anchors)
    requires RecordOf(e).anchorSeq == |anchors| + 1 && RecordOf(e).prevHash == AnchorLink(h, anchors, |anchors|)
    ensures LinkedTo(h, own + [e], anchors + [RecordOf(e)])
  {
    hide RecordOf, Genesis;
    var more := anchors + [RecordOf(e)];
    forall i | 0 <= i < |more|
      ensures more[i] == RecordOf((own + [e])[i]) && more[i].anchorSeq == i + 1
      ensures more[i].prevHash == AnchorLink(h, more, i)
    {
      if i < |anchors| { assert more[i] == anchors[i] && (own + [e])[i] == own[i]; }
      if i > 0 { assert more[i - 1] == anchors[i - 1]; }
    }
  }

  /** One appended event keeps every clause of the ledger's invariant. */
  lemma LogStep(h: Hash, events: seq<Event>, anchors: seq<AnchorRecord>, e: Event, t: Tick)
    requires AllVerify(h, events) && AnchorsHonest(h, events) && AnchorsLinked(h, events, anchors)
    requires Continues(h, events, e)
    requires (e.sagaId != ANCHOR_SAGA && e.kind != ANCHORED) || e == AnchorEvent(h, events, anchors, t.id, t.at)
    ensures AllVerify(h, events + [e]) && AnchorsHonest(h, events + [e])
    ensures AnchorsLinked(h, events + [e], Recorded(anchors, e))
    ensures e.sagaId == ANCHOR_SAGA ==> e.kind == ANCHORED
  {
    AnchorSeqs(h, events, anchors);
    hide AllVerify, AnchorsHonest, Continues, RecordOf, AnchorEvent, Honest, Root;
    ContinuesKeepsVerify(h, events, e);
    AnchorEventGood(h, events, anchors, t.id, t.at);
    LinkedStep(h, events, anchors, e);
    HonestStep(h, events, e);
  }

  /** An anchored event of another saga would be recorded too. The records stay linked to the anchor saga
      exactly if it is none, or takes a number given before. */
  lemma ForeignAnchor(h: Hash, events: seq<Event>, anchors: seq<AnchorRecord>, e: Event)
    requires AnchorsLinked(h, events, anchors) && e.sagaId != ANCHOR_SAGA
    ensures AnchorsLinked(h, events + [e], Recorded(anchors, e)) <==>
            e.kind != ANCHORED || 1 <= RecordOf(e).anchorSeq <= |anchors|
  {
    hide RecordOf, SagaEvents, AnchorLink;
    SnocEvents(events, e, ANCHOR_SAGA);
    var n := RecordOf(e).anchorSeq;
    if 1 <= n <= |anchors| { assert anchors[n - 1].anchorSeq == n; }
  }

  // ---------------------------------------------------------------- what an anchor binds

  ghost predicate SameChain(a: seq<Event>, b: seq<Event>) {
    |a| == |b| && forall i :: 0 <= i < |a| ==> SameHashed(a[i], b[i])
  }

  lemma {:induction false} OwnInLog(events: seq<Event>, s: Text)
    ensures forall e :: e in SagaEvents(events, s) ==> e in events
  {
    if events != [] {
      OwnInLog(events[..|events| - 1], s);
    }
  }

  lemma OwnPart(events: seq<Event>, s: Text)
    requires Payloads(events)
    ensures Payloads(SagaEvents(events, s)) && Hashed(SagaEvents(events, s)) <= Hashed(events)
  {
    var own := SagaEvents(events, s);
    OwnInLog(events, s);
    forall i | 0 <= i < |own| ensures WellFormed(own[i].payload) && BodyText(own[i]) in Hashed(events) {
      assert own[i] in own;
      var k :| 0 <= k < |events| && events[k] == own[i];
    }
  }

  /** Every text hashed while verifying the log and computing the root of its heads. */
  ghost function Evidence(h: Hash, events: seq<Event>): set<Text> {
    HashedFor(h, CurrentHeads(events)) + Hashed(events)
  }

  /** One anchored root pins down the whole history: two verifiable logs whose current heads have the same
      root hold the same events, saga by saga and event by event, or two different hashed texts collide. */
  lemma AnchorBinding(h: Hash, a: seq<Event>, b: seq<Event>)
    requires HexDigests(h) && Payloads(a) && Payloads(b)
    requires AllVerify(h, a) && AllVerify(h, b)
    requires Root(h, CurrentHeads(a)) == Root(h, CurrentHeads(b))
    ensures Collides(h, Evidence(h, a) + Evidence(h, b))
            || forall s :: s != ANCHOR_SAGA ==> SameChain(SagaEvents(a, s), SagaEvents(b, s))
  {
    var all := Evidence(h, a) + Evidence(h, b);
    if !Collides(h, all) {
      MerkleBinding(h, CurrentHeads(a), CurrentHeads(b));
      if Collides(h, HashedFor(h, CurrentHeads(a)) + HashedFor(h, CurrentHeads(b))) {
        CollidesMore(h, HashedFor(h, CurrentHeads(a)) + HashedFor(h, CurrentHeads(b)), all);
      }
      forall s | s != ANCHOR_SAGA ensures SameChain(SagaEvents(a, s), SagaEvents(b, s)) {
        SameSaga(h, a, b, s);
      }
    }
  }

  lemma SameSaga(h: Hash, a: seq<Event>, b: seq<Event>, s: Text)
    requires Payloads(a) && Payloads(b) && AllVerify(h, a) && AllVerify(h, b)
    requires forall p :: p in CurrentHeads(a) <==> p in CurrentHeads(b)
    requires !Collides(h, Evidence(h, a) + Evidence(h, b)) && s != ANCHOR_SAGA
    ensures SameChain(SagaEvents(a, s), SagaEvents(b, s))
  {
    var x, y := SagaEvents(a, s), SagaEvents(b, s);
    hide SagaEvents, BodyText, CurrentHeads, HashedFor, Collides, SameHashed, Fault, Hashed;
    SameLastHash(h, a, b, s);
    OwnPart(a, s);
    OwnPart(b, s);
    if x != [] {
      assert Accepts(h, NO_KEY, s, x) && Accepts(h, NO_KEY, s, y);
      ChainBinding(h, NO_KEY, NO_KEY, s, s, x, y);
      if Collides(h, Hashed(x) + Hashed(y)) {
        CollidesMore(h, Hashed(x) + Hashed(y), Evidence(h, a) + Evidence(h, b));
      }
    }
  }

  lemma SameLastHash(h: Hash, a: seq<Event>, b: seq<Event>, s: Text)
    requires AllVerify(h, a) && AllVerify(h, b)
    requires forall p :: p in CurrentHeads(a) <==> p in CurrentHeads(b)
    requires s != ANCHOR_SAGA
    ensures var x, y := SagaEvents(a, s), SagaEvents(b, s);
            (x == [] <==> y == []) && (x != [] && y != [] ==> x[|x| - 1].hash == y[|y| - 1].hash)
  {
    hide SagaEvents, BodyText, CurrentHeads, Fault, Link;
    var x, y := SagaEvents(a, s), SagaEvents(b, s);
    assert Accepts(h, NO_KEY, s, x) && Accepts(h, NO_KEY, s, y);
    if x != [] {
      LastAccepted(h, NO_KEY, s, x);
      CurrentHeadsExact(a, Entry(s, HashOf(x[|x| - 1])));
      CurrentHeadsExact(b, Entry(s, HashOf(x[|x| - 1])));
    }
    if y != [] {
      LastAccepted(h, NO_KEY, s, y);
      CurrentHeadsExact(a, Entry(s, HashOf(y[|y| - 1])));
      CurrentHeadsExact(b, Entry(s, HashOf(y[|y| - 1])));
    }
  }
}
