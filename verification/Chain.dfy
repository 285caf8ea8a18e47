/** The per-saga hash chain: what is hashed, how a chain is verified, and what an accepted chain binds.
    The hash function is any function at all; conclusions read "equal, or two of the hashed texts collide". */
module Chain {
  import opened Options
  import opened Texts
  import opened Jcs

  type Hash = Text -> Text

  datatype Event = Event(
    id: Text, kind: Text, ts: Text, sagaId: Text, seqNo: int, effectId: Option<Text>,
    actorKind: Text, actorId: Text, payload: Json, prevHash: Text,
    hash: Option<Text>, sig: Option<Text>)

  function Prefixed(h: Hash, t: Text): Text {
    A("sha256:") + h(t)
  }

  function Genesis(h: Hash, sagaId: Text): Text {
    Prefixed(h, A("vekrevert/v1:") + sagaId)
  }

  /** An object literal: member names and their values. */
  function Record(names: seq<string>, vals: seq<Json>): Json
    requires |names| == |vals|
  {
    Obj(seq(|names|, i requires 0 <= i < |names| => Entry(A(names[i]), vals[i])))
  }

  function NumberOf(n: int): Json {
    assert forall i :: 0 <= i < |Decimal(n)| ==> NumChar(Decimal(n)[i]);
    Num(Decimal(n))
  }

  const BODY_NAMES := ["v", "id", "type", "ts", "saga_id", "chain_seq", "actor", "payload", "prev_hash", "effect_id"]

  function ActorJson(e: Event): Json {
    Record(["kind", "id"], [Str(e.actorKind), Str(e.actorId)])
  }

  function BodyValues(e: Event): seq<Json> {
    [ Str(A("vekrevert/v1")), Str(e.id), Str(e.kind), Str(e.ts), Str(e.sagaId), NumberOf(e.seqNo),
      ActorJson(e), e.payload, Str(e.prevHash) ]
    + (match e.effectId case None => [] case Some(x) => [Str(x)])
  }

  /** `eventBodyForHash`: every field but `hash` and `sig`; `effect_id` only when present.
      (The order of the members is immaterial: the printer sorts them.) */
  function Body(e: Event): Json {
    var vals := BodyValues(e);
    Record(BODY_NAMES[..|vals|], vals)
  }

  function BodyText(e: Event): Text {
    Emit(Body(e))
  }

  function EventHash(h: Hash, e: Event): Text {
    Prefixed(h, BodyText(e))
  }

  /** `chainEvent`: stamps the previous hash and the hash of the body. */
  function Chained(h: Hash, e: Event, prev: Text): Event {
    var linked := e.(prevHash := prev);
    linked.(hash := Some(EventHash(h, linked)))
  }

  /** Two events that agree on everything the hash covers, the payload as a JSON value. */
  ghost predicate SameHashed(a: Event, b: Event) {
    && a.id == b.id && a.kind == b.kind && a.ts == b.ts && a.sagaId == b.sagaId
    && a.seqNo == b.seqNo && a.effectId == b.effectId
    && a.actorKind == b.actorKind && a.actorId == b.actorId
    && Meaning(a.payload) == Meaning(b.payload) && a.prevHash == b.prevHash
  }

  // ---------------------------------------------------------------- the body determines the event

  ghost predicate GoodNames(names: seq<string>) {
    && (forall i :: 0 <= i < |names| ==> Bmp(names[i]))
    && (forall i, j :: 0 <= i < j < |names| ==> names[i] != names[j])
  }

  lemma RecordFields(names: seq<string>, vals: seq<Json>)
    requires |names| == |vals| && GoodNames(names)
    requires forall i :: 0 <= i < |vals| ==> WellFormed(vals[i])
    ensures WellFormed(Record(names, vals))
    ensures forall i :: 0 <= i < |names| ==>
              A(names[i]) in Meaning(Record(names, vals)).fields
              && Meaning(Record(names, vals)).fields[A(names[i])] == Meaning(vals[i])
    ensures forall k :: k in Meaning(Record(names, vals)).fields ==> exists i :: 0 <= i < |names| && A(names[i]) == k
  {
    var r := Record(names, vals);
    forall i, j | 0 <= i < j < |names| ensures r.members[i].key != r.members[j].key {
      LiteralsDiffer(names[i], names[j]);
    }
    FieldsEntries(r, r.members);
    assert Meaning(r).fields == Fields(r, r.members);
    forall i | 0 <= i < |names|
      ensures A(names[i]) in Meaning(r).fields && Meaning(r).fields[A(names[i])] == Meaning(vals[i])
    {
      assert r.members[i] in r.members;
    }
    forall k | k in Meaning(r).fields ensures exists i :: 0 <= i < |names| && A(names[i]) == k {
      var m :| m in r.members && m.key == k;
      var i :| 0 <= i < |names| && r.members[i] == m;
      assert A(names[i]) == k;
    }
  }

  /** Records over prefixes of one list of names mean the same only when they agree value by value. */
  lemma RecordsAgree(names: seq<string>, xs: seq<Json>, ys: seq<Json>)
    requires |xs| <= |names| && |ys| <= |names| && GoodNames(names)
    requires forall i :: 0 <= i < |xs| ==> WellFormed(xs[i])
    requires forall i :: 0 <= i < |ys| ==> WellFormed(ys[i])
    requires Meaning(Record(names[..|xs|], xs)) == Meaning(Record(names[..|ys|], ys))
    ensures |xs| == |ys| && forall i :: 0 <= i < |xs| ==> Meaning(xs[i]) == Meaning(ys[i])
  {
    RecordFields(names[..|xs|], xs);
    RecordFields(names[..|ys|], ys);
    if |xs| < |ys| { MissingName(names, xs, ys); }
    if |ys| < |xs| { MissingName(names, ys, xs); }
    forall i | 0 <= i < |xs| ensures Meaning(xs[i]) == Meaning(ys[i]) {
      assert names[..|xs|][i] == names[i];
    }
  }

  lemma MissingName(names: seq<string>, xs: seq<Json>, ys: seq<Json>)
    requires |xs| < |ys| <= |names| && GoodNames(names)
    requires forall i :: 0 <= i < |xs| ==> WellFormed(xs[i])
    requires forall i :: 0 <= i < |ys| ==> WellFormed(ys[i])
    ensures Meaning(Record(names[..|xs|], xs)) != Meaning(Record(names[..|ys|], ys))
  {
    RecordFields(names[..|xs|], xs);
    RecordFields(names[..|ys|], ys);
    var k := A(names[|xs|]);
    assert names[..|ys|][|xs|] == names[|xs|];
    if k in Meaning(Record(names[..|xs|], xs)).fields {
      var i :| 0 <= i < |xs| && A(names[..|xs|][i]) == k;
      LiteralsDiffer(names[i], names[|xs|]);
    }
  }

  lemma BodyNamesDistinct()
    ensures forall i, j :: 0 <= i < j < |BODY_NAMES| ==> BODY_NAMES[i] != BODY_NAMES[j]
  {
    var n := BODY_NAMES;
    assert |n[0]| == 1 && |n[1]| == 2 && |n[2]| == 4 && |n[3]| == 2 && |n[4]| == 7
        && |n[5]| == 9 && |n[6]| == 5 && |n[7]| == 7 && |n[8]| == 9 && |n[9]| == 9;
    assert n[1][0] == 'i' && n[3][0] == 't' && n[4][0] == 's' && n[7][0] == 'p';
    assert n[5][0] == 'c' && n[8][0] == 'p' && n[9][0] == 'e';
  }

  lemma BodyNamesGood()
    ensures GoodNames(BODY_NAMES) && GoodNames(["kind", "id"])
  {
    BodyNamesDistinct();
  }

  lemma BodyValuesWellFormed(e: Event)
    requires WellFormed(e.payload)
    ensures forall i :: 0 <= i < |BodyValues(e)| ==> WellFormed(BodyValues(e)[i])
    ensures WellFormed(Body(e))
  {
    BodyNamesGood();
    RecordFields(["kind", "id"], [Str(e.actorKind), Str(e.actorId)]);
    var vals := BodyValues(e);
    RecordFields(BODY_NAMES[..|vals|], vals);
  }

  /** The hashed text determines every hashed field, and is determined by them. */
  lemma BodyTextExact(a: Event, b: Event)
    requires WellFormed(a.payload) && WellFormed(b.payload)
    ensures BodyText(a) == BodyText(b) <==> SameHashed(a, b)
  {
    BodyValuesWellFormed(a);
    BodyValuesWellFormed(b);
    CanonicalExact(Body(a), Body(b));
    if Meaning(Body(a)) == Meaning(Body(b)) {
      MeaningGivesFields(a, b);
    }
    if SameHashed(a, b) {
      FieldsGiveMeaning(a, b);
    }
  }

  lemma SameActor(a: Event, b: Event)
    requires Meaning(ActorJson(a)) == Meaning(ActorJson(b))
    ensures a.actorKind == b.actorKind && a.actorId == b.actorId
  {
    BodyNamesGood();
    var xs, ys := [Str(a.actorKind), Str(a.actorId)], [Str(b.actorKind), Str(b.actorId)];
    assert ["kind", "id"][..2] == ["kind", "id"];
    RecordsAgree(["kind", "id"], xs, ys);
    assert Meaning(xs[0]) == Meaning(ys[0]) && Meaning(xs[1]) == Meaning(ys[1]);
  }

  lemma MeaningGivesFields(a: Event, b: Event)
    requires WellFormed(a.payload) && WellFormed(b.payload)
    requires Meaning(Body(a)) == Meaning(Body(b))
    ensures SameHashed(a, b)
  {
    BodyNamesGood();
    BodyValuesWellFormed(a);
    BodyValuesWellFormed(b);
    var xs, ys := BodyValues(a), BodyValues(b);
    RecordsAgree(BODY_NAMES, xs, ys);
    hide Body, WellFormed, Digits, A;
    assert Meaning(xs[5]) == Meaning(ys[5]);
    DecimalInjective(a.seqNo, b.seqNo);
    assert Meaning(xs[6]) == Meaning(ys[6]);
    SameActor(a, b);
    assert Meaning(xs[1]) == Meaning(ys[1]) && Meaning(xs[2]) == Meaning(ys[2]) && Meaning(xs[3]) == Meaning(ys[3]);
    assert Meaning(xs[4]) == Meaning(ys[4]) && Meaning(xs[7]) == Meaning(ys[7]) && Meaning(xs[8]) == Meaning(ys[8]);
    if a.effectId.Some? {
      assert Meaning(xs[9]) == Meaning(ys[9]);
    }
  }

  lemma FieldsGiveMeaning(a: Event, b: Event)
    requires WellFormed(a.payload) && WellFormed(b.payload)
    requires SameHashed(a, b)
    ensures Meaning(Body(a)) == Meaning(Body(b))
  {
    BodyNamesGood();
    BodyValuesWellFormed(a);
    BodyValuesWellFormed(b);
    var xs, ys := BodyValues(a), BodyValues(b);
    assert |xs| == |ys| && forall i :: 0 <= i < |xs| ==> Meaning(xs[i]) == Meaning(ys[i]);
    RecordsMeanSame(BODY_NAMES[..|xs|], xs, ys);
  }

  lemma RecordsMeanSame(names: seq<string>, xs: seq<Json>, ys: seq<Json>)
    requires |xs| == |ys| == |names| && GoodNames(names)
    requires forall i :: 0 <= i < |xs| ==> WellFormed(xs[i]) && WellFormed(ys[i])
    requires forall i :: 0 <= i < |xs| ==> Meaning(xs[i]) == Meaning(ys[i])
    ensures Meaning(Record(names, xs)) == Meaning(Record(names, ys))
  {
    RecordFields(names, xs);
    RecordFields(names, ys);
    var f, g := Meaning(Record(names, xs)).fields, Meaning(Record(names, ys)).fields;
    hide Meaning, Record;
    forall k | k in f || k in g ensures k in f && k in g && f[k] == g[k] {
      var i :| 0 <= i < |names| && A(names[i]) == k;
    }
    assert f == g;
  }

  // ---------------------------------------------------------------- verification

  datatype Reason = SeqGap | PrevMismatch | HashMismatch | BadSig

  datatype Verdict = Sound | Broken(at: nat, reason: Reason)

  /** The hash an event is expected to point back to. */
  function Link(h: Hash, genesisSaga: Text, events: seq<Event>, i: nat): Text
    requires i <= |events|
  {
    if i == 0 then Genesis(h, genesisSaga)
    else match events[i - 1].hash
      case Some(x) => x
      case None => EventHash(h, events[i - 1])
  }

  /** What is wrong with event i, if anything, in the order the checks are made. */
  function Fault(h: Hash, badSig: Event -> bool, genesisSaga: Text, events: seq<Event>, i: nat): Option<Reason>
    requires i < |events|
  {
    var e := events[i];
    if e.seqNo != i + 1 then Some(SeqGap)
    else if e.prevHash != Link(h, genesisSaga, events, i) then Some(PrevMismatch)
    else if e.hash != Some(EventHash(h, e)) then Some(HashMismatch)
    else if e.sig.Some? && badSig(e) then Some(BadSig)
    else None
  }

  predicate Accepts(h: Hash, badSig: Event -> bool, genesisSaga: Text, events: seq<Event>) {
    forall i :: 0 <= i < |events| ==> Fault(h, badSig, genesisSaga, events, i) == None
  }

  function GenesisSaga(given: Option<Text>, events: seq<Event>): Text
    requires events != []
  {
    match given
    case Some(x) => x
    case None => events[0].sagaId
  }

  /** `verifyChain`. `badSig` stands for the signature check under the caller's public key
      (constantly false without a key). */
  method VerifyChain(h: Hash, badSig: Event -> bool, events: seq<Event>, given: Option<Text>) returns (v: Verdict)
    ensures events == [] ==> v == Sound
    ensures v == Sound <==> events == [] || Accepts(h, badSig, GenesisSaga(given, events), events)
    ensures v.Broken? ==>
              && v.at < |events|
              && Fault(h, badSig, GenesisSaga(given, events), events, v.at) == Some(v.reason)
              && Accepts(h, badSig, GenesisSaga(given, events), events[..v.at])
  {
    if events == [] {
      return Sound;
    }
    var saga := GenesisSaga(given, events);
    var expectedPrev := Genesis(h, saga);
    var expectedSeq := 1;
    for i := 0 to |events|
      invariant expectedSeq == i + 1
      invariant expectedPrev == Link(h, saga, events, i)
      invariant forall k :: 0 <= k < i ==> Fault(h, badSig, saga, events, k) == None
    {
      var e := events[i];
      ghost var fault := Fault(h, badSig, saga, events, i);
      assert forall k :: 0 <= k < i ==> Fault(h, badSig, saga, events[..i], k) == Fault(h, badSig, saga, events, k);
      if e.seqNo != expectedSeq {
        return Broken(i, SeqGap);
      }
      if e.prevHash != expectedPrev {
        return Broken(i, PrevMismatch);
      }
      var recomputed := EventHash(h, e);
      if e.hash != Some(recomputed) {
        return Broken(i, HashMismatch);
      }
      if e.sig.Some? && badSig(e) {
        return Broken(i, BadSig);
      }
      expectedPrev := recomputed;
      expectedSeq := expectedSeq + 1;
    }
    return Sound;
  }

  // ---------------------------------------------------------------- what an accepted chain binds

  ghost predicate Payloads(events: seq<Event>) {
    forall i :: 0 <= i < |events| ==> WellFormed(events[i].payload)
  }

  /** Two different texts among those given have the same hash. */
  ghost predicate Collides(h: Hash, texts: set<Text>) {
    exists x, y :: x in texts && y in texts && x != y && h(x) == h(y)
  }

  ghost function Hashed(events: seq<Event>): set<Text> {
    set i | 0 <= i < |events| :: BodyText(events[i])
  }

  lemma PrefixedInjective(h: Hash, x: Text, y: Text)
    requires Prefixed(h, x) == Prefixed(h, y)
    ensures h(x) == h(y)
  {
    assert Prefixed(h, x)[|A("sha256:")|..] == h(x);
    assert Prefixed(h, y)[|A("sha256:")|..] == h(y);
  }

  /** Chain binding: two accepted chains that end in the same hash are the same chain, event by event
      on every hashed field, or two different bodies among theirs collide. */
  lemma {:induction false} ChainBinding(h: Hash, badA: Event -> bool, badB: Event -> bool,
                                        sagaA: Text, sagaB: Text, a: seq<Event>, b: seq<Event>)
    requires a != [] && b != [] && Payloads(a) && Payloads(b)
    requires Accepts(h, badA, sagaA, a) && Accepts(h, badB, sagaB, b)
    requires a[|a| - 1].hash == b[|b| - 1].hash
    ensures Collides(h, Hashed(a) + Hashed(b))
            || (|a| == |b| && forall i :: 0 <= i < |a| ==> SameHashed(a[i], b[i]))
  {
    hide Accepts, Collides, SameHashed, Hashed;
    var m, n := |a| - 1, |b| - 1;
    SameEnd(h, badA, badB, sagaA, sagaB, a, b);
    if !Collides(h, Hashed(a) + Hashed(b)) && m > 0 {
      PrefixAccepted(h, badA, sagaA, a, m);
      PrefixAccepted(h, badB, sagaB, b, n);
      ChainBinding(h, badA, badB, sagaA, sagaB, a[..m], b[..n]);
      HashedPrefix(h, a, m);
      HashedPrefix(h, b, n);
      if Collides(h, Hashed(a[..m]) + Hashed(b[..n])) {
        CollidesMore(h, Hashed(a[..m]) + Hashed(b[..n]), Hashed(a) + Hashed(b));
      }
      forall i | 0 <= i < |a| ensures SameHashed(a[i], b[i]) {
        if i < m { assert a[..m][i] == a[i] && b[..n][i] == b[i]; }
      }
    }
  }

  /** The last step back: equal end hashes give equal last events, equal lengths, and equal hashes one event earlier. */
  lemma SameEnd(h: Hash, badA: Event -> bool, badB: Event -> bool, sagaA: Text, sagaB: Text, a: seq<Event>, b: seq<Event>)
    requires a != [] && b != [] && Payloads(a) && Payloads(b)
    requires Accepts(h, badA, sagaA, a) && Accepts(h, badB, sagaB, b)
    requires a[|a| - 1].hash == b[|b| - 1].hash
    ensures Collides(h, Hashed(a) + Hashed(b))
            || (&& |a| == |b| && SameHashed(a[|a| - 1], b[|b| - 1])
                && (|a| > 1 ==> a[|a| - 2].hash == b[|b| - 2].hash))
  {
    LastAccepted(h, badA, sagaA, a);
    LastAccepted(h, badB, sagaB, b);
    hide Accepts, BodyText, Prefixed;
    var x, y := a[|a| - 1], b[|b| - 1];
    PrefixedInjective(h, BodyText(x), BodyText(y));
    assert BodyText(x) in Hashed(a) && BodyText(y) in Hashed(b);
    if BodyText(x) == BodyText(y) {
      BodyTextExact(x, y);
      if |a| > 1 {
        PrefixAccepted(h, badA, sagaA, a, |a| - 1);
        PrefixAccepted(h, badB, sagaB, b, |b| - 1);
        LastAccepted(h, badA, sagaA, a[..|a| - 1]);
        LastAccepted(h, badB, sagaB, b[..|b| - 1]);
      }
    }
  }

  lemma CollidesMore(h: Hash, s: set<Text>, t: set<Text>)
    requires s <= t && Collides(h, s)
    ensures Collides(h, t)
  {
    var x, y :| x in s && y in s && x != y && h(x) == h(y);
    assert x in t && y in t;
  }

  lemma LastAccepted(h: Hash, bad: Event -> bool, saga: Text, a: seq<Event>)
    requires Accepts(h, bad, saga, a) && a != []
    ensures var e := a[|a| - 1];
            && e.seqNo == |a| && e.hash == Some(EventHash(h, e))
            && e.prevHash == (if |a| == 1 then Genesis(h, saga)
                              else match a[|a| - 2].hash case Some(x) => x case None => EventHash(h, a[|a| - 2]))
  {
    assert Fault(h, bad, saga, a, |a| - 1) == None;
  }

  lemma PrefixAccepted(h: Hash, bad: Event -> bool, saga: Text, a: seq<Event>, m: nat)
    requires Accepts(h, bad, saga, a) && m <= |a|
    ensures Accepts(h, bad, saga, a[..m])
  {
    forall i | 0 <= i < m ensures Fault(h, bad, saga, a[..m], i) == None {
      assert Fault(h, bad, saga, a, i) == None;
    }
  }

  lemma HashedPrefix(h: Hash, a: seq<Event>, m: nat)
    requires m <= |a|
    ensures Hashed(a[..m]) <= Hashed(a)
  {
    forall t | t in Hashed(a[..m]) ensures t in Hashed(a) {
      var i :| 0 <= i < m && BodyText(a[..m][i]) == t;
      assert a[..m][i] == a[i];
    }
  }

  /** Tampering: replace one event of an accepted chain by one that claims the same place and the same
      hash but differs in some hashed field, and the chain is reported broken exactly there
      (or the two bodies collide). */
  lemma TamperDetected(h: Hash, bad: Event -> bool, saga: Text, a: seq<Event>, i: nat, forged: Event)
    requires Accepts(h, bad, saga, a) && i < |a|
    requires WellFormed(a[i].payload) && WellFormed(forged.payload)
    requires forged.seqNo == a[i].seqNo && forged.prevHash == a[i].prevHash && forged.hash == a[i].hash
    requires !SameHashed(forged, a[i])
    ensures Collides(h, {BodyText(forged), BodyText(a[i])})
            || (&& Fault(h, bad, saga, a[i := forged], i) == Some(HashMismatch)
                && Accepts(h, bad, saga, a[i := forged][..i]))
  {
    var t := a[i := forged];
    BodyTextExact(forged, a[i]);
    assert Fault(h, bad, saga, a, i) == None;
    assert t[..i] == a[..i];
    PrefixAccepted(h, bad, saga, a, i);
    assert Link(h, saga, t, i) == Link(h, saga, a, i);
    if forged.hash == Some(EventHash(h, forged)) {
      PrefixedInjective(h, BodyText(forged), BodyText(a[i]));
    }
  }

  /** Appending with `chainEvent` at the head of an accepted chain gives an accepted chain. */
  lemma AppendAccepted(h: Hash, bad: Event -> bool, saga: Text, a: seq<Event>, e: Event)
    requires Accepts(h, bad, saga, a)
    requires e.seqNo == |a| + 1 && e.sig == None
    ensures Accepts(h, bad, saga, a + [Chained(h, e, Link(h, saga, a, |a|))])
  {
    var b := a + [Chained(h, e, Link(h, saga, a, |a|))];
    forall i | 0 <= i < |b| ensures Fault(h, bad, saga, b, i) == None {
      if i < |a| {
        assert Fault(h, bad, saga, a, i) == None;
        assert Link(h, saga, b, i) == Link(h, saga, a, i);
      } else {
        var linked := e.(prevHash := Link(h, saga, a, |a|));
        assert Link(h, saga, b, i) == Link(h, saga, a, i);
        assert Body(b[i]) == Body(linked);
      }
    }
  }

  // ---------------------------------------------------------------- what is hashed, and what is accepted

  /** The hashed body, member by member; the effect id only if there is one. */
  lemma BodyMembers(e: Event)
    ensures Body(e) == Obj([ Entry(A("v"), Str(A("vekrevert/v1"))), Entry(A("id"), Str(e.id)), Entry(A("type"), Str(e.kind)),
                             Entry(A("ts"), Str(e.ts)), Entry(A("saga_id"), Str(e.sagaId)), Entry(A("chain_seq"), Num(Seq(e))),
                             Entry(A("actor"), Obj([Entry(A("kind"), Str(e.actorKind)), Entry(A("id"), Str(e.actorId))])),
                             Entry(A("payload"), e.payload), Entry(A("prev_hash"), Str(e.prevHash)) ]
                           + if e.effectId == None then [] else [Entry(A("effect_id"), Str(e.effectId.value))])
  {
    hide A, Decimal;
    assert ActorJson(e).members == [Entry(A("kind"), Str(e.actorKind)), Entry(A("id"), Str(e.actorId))];
  }

  function Seq(e: Event): NumText {
    NumberOf(e.seqNo).n
  }

  lemma SeqText(e: Event)
    ensures Seq(e) == Decimal(e.seqNo)
  {
  }

  /** Different sagas begin their chains differently, or two texts collide. */
  lemma GenesisBinds(h: Hash, a: Text, b: Text)
    requires Genesis(h, a) == Genesis(h, b)
    ensures a == b || Collides(h, {A("vekrevert/v1:") + a, A("vekrevert/v1:") + b})
  {
    var x, y := A("vekrevert/v1:") + a, A("vekrevert/v1:") + b;
    PrefixedInjective(h, x, y);
    assert x[|A("vekrevert/v1:")|..] == a && y[|A("vekrevert/v1:")|..] == b;
  }

  /** The hash under which an event stands. */
  function Stamp(h: Hash, e: Event): Text {
    A("sha256:") + h(BodyText(e))
  }

  /** The event is numbered, hashed, linked to the one before it or to the genesis hash of the saga, and carries
      no bad signature. */
  predicate SoundAt(h: Hash, badSig: Event -> bool, saga: Text, events: seq<Event>, i: nat)
    requires i < |events|
  {
    && events[i].seqNo == i + 1 && events[i].hash == Some(Stamp(h, events[i]))
    && Some(events[i].prevHash) == (if i == 0 then Some(A("sha256:") + h(A("vekrevert/v1:") + saga)) else events[i - 1].hash)
    && !(events[i].sig != None && badSig(events[i]))
  }

  lemma SoundExact(h: Hash, badSig: Event -> bool, saga: Text, events: seq<Event>, i: nat)
    requires i < |events| && (i > 0 ==> events[i - 1].hash != None)
    ensures Fault(h, badSig, saga, events, i) == None <==> SoundAt(h, badSig, saga, events, i)
  {
    hide BodyText, A;
  }

  /** A chain is accepted exactly if every event in it is sound. */
  lemma AcceptedExact(h: Hash, badSig: Event -> bool, saga: Text, events: seq<Event>)
    ensures Accepts(h, badSig, saga, events) <==> forall i :: 0 <= i < |events| ==> SoundAt(h, badSig, saga, events, i)
  {
    forall i | 0 <= i < |events|
      ensures Fault(h, badSig, saga, events, i) == None ==> events[i].hash != None
      ensures SoundAt(h, badSig, saga, events, i) ==> events[i].hash != None
    {
      hide BodyText, A;
    }
    hide Fault, SoundAt;
    if Accepts(h, badSig, saga, events) {
      forall i | 0 <= i < |events| ensures SoundAt(h, badSig, saga, events, i) {
        assert Fault(h, badSig, saga, events, i) == None;
        if i > 0 { assert Fault(h, badSig, saga, events, i - 1) == None; }
        SoundExact(h, badSig, saga, events, i);
      }
    }
    if forall i :: 0 <= i < |events| ==> SoundAt(h, badSig, saga, events, i) {
      forall i | 0 <= i < |events| ensures Fault(h, badSig, saga, events, i) == None {
        if i > 0 { assert SoundAt(h, badSig, saga, events, i - 1); }
        SoundExact(h, badSig, saga, events, i);
      }
    }
  }

  /** Which fault is found at an event whose predecessors are sound. */
  lemma FaultExact(h: Hash, badSig: Event -> bool, saga: Text, events: seq<Event>, i: nat)
    requires i < |events| && (i > 0 ==> events[i - 1].hash != None)
    ensures var (e, fault) := (events[i], Fault(h, badSig, saga, events, i));
            var numbered := e.seqNo == i + 1;
            var linked := e.prevHash == if i == 0 then A("sha256:") + h(A("vekrevert/v1:") + saga) else events[i - 1].hash.value;
            var hashed := e.hash == Some(Stamp(h, e));
            && (fault == Some(SeqGap) <==> !numbered)
            && (fault == Some(PrevMismatch) <==> numbered && !linked)
            && (fault == Some(HashMismatch) <==> numbered && linked && !hashed)
            && (fault == Some(BadSig) <==> numbered && linked && hashed && e.sig != None && badSig(e))
  {
    hide BodyText, A;
  }
}
