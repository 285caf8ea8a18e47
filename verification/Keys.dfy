/** Derived identifiers: what equal idempotency keys and equal effect ids say about the inputs. */
module Keys {
  import opened Base32
  import opened Bytes
  import opened Chain
  import opened Jcs
  import opened Texts

  /** A hash with 32-byte digests. */
  type Digest = Text -> seq<Byte>

  const NEWLINE: CodeUnit := 0x0a
  const BAR: CodeUnit := 0x7c

  datatype Attempt = Attempt(sagaId: Text, effectSeq: int, compensatorId: Text, planHash: Text, stepIndex: int)

  datatype Named = Named(sagaId: Text, seqNo: int, actionName: Text, argsHash: Text)

  /** The text `deriveIdempotencyKey` hashes. */
  function Material(a: Attempt): Text {
    A("vekrevert.v1") + [NEWLINE] + Tail(a)
  }

  function Tail(a: Attempt): Text {
    a.sagaId + [NEWLINE] + (Decimal(a.effectSeq) + [NEWLINE]
    + (a.compensatorId + [NEWLINE] + (a.planHash + [NEWLINE] + Decimal(a.stepIndex))))
  }

  /** The text `deriveEffectId` hashes. */
  function EffectMaterial(n: Named): Text {
    n.sagaId + [BAR] + (Decimal(n.seqNo) + [BAR] + (n.actionName + [BAR] + n.argsHash))
  }

  function Cut(text: string, k: nat): string {
    if |text| <= k then text else text[..k]
  }

  function DeriveIdempotencyKey(d: Digest, a: Attempt): string {
    "vr1_" + Cut(Crockford32(d(Material(a))), 32)
  }

  function DeriveEffectId(d: Digest, n: Named): string {
    "eff_" + Cut(Crockford32(d(EffectMaterial(n))), 26)
  }

  ghost predicate Digests32(d: Digest) {
    forall t :: |d(t)| == 32
  }

  /** Two different texts with digests that begin with the same `n` bytes. */
  ghost predicate CollideIn(d: Digest, n: nat, s: Text, t: Text)
    requires Digests32(d) && n <= 32
  {
    s != t && d(s)[..n] == d(t)[..n]
  }

  // ---------------------------------------------------------------- reading the hashed texts

  /** Up to the first separator. */
  lemma {:induction false} SplitFirst(sep: CodeUnit, x: Text, u: Text, y: Text, w: Text)
    requires sep !in x && sep !in y && x + [sep] + u == y + [sep] + w
    ensures x == y && u == w
  {
    var a, b := x + [sep] + u, y + [sep] + w;
    assert if x == [] then a[0] == sep && u == a[1..] else a[0] == x[0] && a[0] in x;
    assert if y == [] then b[0] == sep && w == b[1..] else b[0] == y[0] && b[0] in y;
    if x != [] && y != [] {
      assert x[0] == a[0] == b[0] == y[0];
      assert a[1..] == x[1..] + [sep] + u && b[1..] == y[1..] + [sep] + w;
      SplitFirst(sep, x[1..], u, y[1..], w);
      assert x == [x[0]] + x[1..] && y == [y[0]] + y[1..];
    }
  }

  /** After the last separator. */
  lemma {:induction false} SplitLast(sep: CodeUnit, x: Text, u: Text, y: Text, w: Text)
    requires sep !in u && sep !in w && x + [sep] + u == y + [sep] + w
    ensures x == y && u == w
  {
    var a, b := x + [sep] + u, y + [sep] + w;
    var last := |a| - 1;
    assert if u == [] then a[last] == sep && x == a[..last] else a[last] == u[|u| - 1] && a[last] in u;
    assert if w == [] then b[last] == sep && y == b[..last] else b[last] == w[|w| - 1] && b[last] in w;
    if u != [] && w != [] {
      assert u[|u| - 1] == a[last] == b[last] == w[|w| - 1];
      assert a[..last] == x + [sep] + u[..|u| - 1] && b[..last] == y + [sep] + w[..|w| - 1];
      SplitLast(sep, x, u[..|u| - 1], y, w[..|w| - 1]);
      assert u == u[..|u| - 1] + [u[|u| - 1]] && w == w[..|w| - 1] + [w[|w| - 1]];
    }
  }

  lemma DecimalPlain(n: int)
    ensures NEWLINE !in Decimal(n) && BAR !in Decimal(n)
  {
    var t := if n < 0 then Digits(-n) else Digits(n);
    forall c | c in Decimal(n) ensures c != NEWLINE && c != BAR {
      if c in t {
        var i :| 0 <= i < |t| && t[i] == c;
      }
    }
  }

  // ---------------------------------------------------------------- lines

  function Lines(t: Text): (r: seq<Text>)
    ensures r != []
  {
    if t == [] then [[]] else Led(t[0], Lines(t[1..]))
  }

  /** The lines with one more character in front. */
  function Led(c: CodeUnit, lines: seq<Text>): (r: seq<Text>)
    requires lines != []
    ensures r != []
  {
    if c == NEWLINE then [[]] + lines else [[c] + lines[0]] + lines[1..]
  }

  lemma LedBreak(lines: seq<Text>)
    requires lines != []
    ensures Led(NEWLINE, lines) == [[]] + lines
  {
  }

  lemma LedSplit(c: CodeUnit, x: seq<Text>, y: seq<Text>)
    requires x != []
    ensures Led(c, x + y) == Led(c, x) + y
  {
    assert (x + y)[1..] == x[1..] + y;
  }

  function Join(lines: seq<Text>): Text {
    if lines == [] then [] else if |lines| == 1 then lines[0] else lines[0] + [NEWLINE] + Join(lines[1..])
  }

  predicate OneLine(t: Text) {
    NEWLINE !in t
  }

  lemma LedJoin(c: CodeUnit, lines: seq<Text>)
    requires lines != [] && forall i :: 0 <= i < |lines| ==> OneLine(lines[i])
    ensures Join(Led(c, lines)) == [c] + Join(lines)
    ensures forall i :: 0 <= i < |Led(c, lines)| ==> OneLine(Led(c, lines)[i])
  {
    var all := Led(c, lines);
    if c == NEWLINE {
      assert all[1..] == lines;
    } else {
      assert all[1..] == lines[1..];
      if |lines| > 1 { assert [c] + lines[0] + [NEWLINE] + Join(lines[1..]) == [c] + Join(lines); }
    }
  }

  lemma {:induction false} JoinLines(t: Text)
    ensures Join(Lines(t)) == t
    ensures forall i :: 0 <= i < |Lines(t)| ==> OneLine(Lines(t)[i])
  {
    if t != [] {
      JoinLines(t[1..]);
      LedJoin(t[0], Lines(t[1..]));
      assert t == [t[0]] + t[1..];
      hide Led, Join;
    }
  }

  lemma {:induction false} LinesOne(t: Text)
    requires OneLine(t)
    ensures Lines(t) == [t]
  {
    if t != [] {
      LinesOne(t[1..]);
      assert t == [t[0]] + t[1..] && t[0] in t;
    }
  }

  lemma {:induction false} LinesSplit(x: Text, y: Text)
    ensures Lines(x + [NEWLINE] + y) == Lines(x) + Lines(y)
  {
    hide Led;
    var all := x + [NEWLINE] + y;
    if x == [] {
      assert all[0] == NEWLINE && all[1..] == y;
      assert Led(NEWLINE, Lines(y)) == [[]] + Lines(y) by { LedBreak(Lines(y)); }
    } else {
      LinesSplit(x[1..], y);
      assert all[0] == x[0] && all[1..] == x[1..] + [NEWLINE] + y;
      LedSplit(x[0], Lines(x[1..]), Lines(y));
    }
  }

  lemma {:induction false} LinesJoin(lines: seq<Text>)
    requires lines != [] && forall i :: 0 <= i < |lines| ==> OneLine(lines[i])
    ensures Lines(Join(lines)) == lines
  {
    LinesOne(lines[0]);
    if |lines| > 1 {
      LinesSplit(lines[0], Join(lines[1..]));
      LinesJoin(lines[1..]);
    }
  }

  lemma SameLines(s: Text, t: Text)
    requires Lines(s) == Lines(t)
    ensures s == t
  {
    JoinLines(s);
    JoinLines(t);
  }

  function ReadInt(t: Text): int {
    if t != [] && t[0] == 0x2d then -NatOf(t[1..]) else NatOf(t)
  }

  /** The line is what some integer prints as. */
  predicate IsDecimal(line: Text) {
    line == Decimal(ReadInt(line))
  }

  lemma ReadDecimal(n: int)
    ensures ReadInt(Decimal(n)) == n && IsDecimal(Decimal(n))
  {
    if n < 0 {
      assert Decimal(n)[1..] == Digits(-n);
      NatOfDigits(-n);
    } else {
      NatOfDigits(n);
    }
  }

  // ---------------------------------------------------------------- the hashed text of an attempt

  /** The lines of the hashed text, after the first: the saga id's, the seq, the compensator id's, the plan
      hash and the step. */
  function Fields(a: Attempt): seq<Text> {
    Lines(a.sagaId) + [Decimal(a.effectSeq)] + Lines(a.compensatorId) + [a.planHash] + [Decimal(a.stepIndex)]
  }

  lemma TailLines(a: Attempt)
    requires OneLine(a.planHash)
    ensures Lines(Tail(a)) == Fields(a)
  {
    DecimalPlain(a.effectSeq);
    DecimalPlain(a.stepIndex);
    hide Decimal, Lines;
    var a3 := a.planHash + [NEWLINE] + Decimal(a.stepIndex);
    var a2 := a.compensatorId + [NEWLINE] + a3;
    LinesSplit(a.planHash, Decimal(a.stepIndex));
    LinesSplit(a.compensatorId, a3);
    LinesSplit(Decimal(a.effectSeq), a2);
    LinesSplit(a.sagaId, Decimal(a.effectSeq) + [NEWLINE] + a2);
    LinesOne(a.planHash);
    LinesOne(Decimal(a.stepIndex));
    LinesOne(Decimal(a.effectSeq));
  }

  /** The hashed text, line by line. */
  lemma MaterialLines(a: Attempt)
    requires OneLine(a.planHash)
    ensures Lines(Material(a)) == [A("vekrevert.v1")] + Lines(a.sagaId) + [Decimal(a.effectSeq)] + Lines(a.compensatorId)
                                  + [a.planHash, Decimal(a.stepIndex)]
  {
    TailLines(a);
    VersionLine();
    hide A, Lines, Tail, Decimal;
    LinesSplit(A("vekrevert.v1"), Tail(a));
  }

  lemma VersionLine()
    ensures Lines(A("vekrevert.v1")) == [A("vekrevert.v1")]
  {
    assert OneLine(A("vekrevert.v1"));
    LinesOne(A("vekrevert.v1"));
  }

  lemma SameMaterial(a: Attempt, b: Attempt)
    requires OneLine(a.planHash) && OneLine(b.planHash)
    ensures Material(a) == Material(b) <==> Fields(a) == Fields(b)
  {
    TailLines(a);
    TailLines(b);
    hide Lines, Fields, Tail;
    var head := A("vekrevert.v1") + [NEWLINE];
    assert Material(a)[|head|..] == Tail(a) && Material(b)[|head|..] == Tail(b);
    if Lines(Tail(a)) == Lines(Tail(b)) { SameLines(Tail(a), Tail(b)); }
  }

  lemma SameParts(x: seq<Text>, p: Text, y: seq<Text>, q: Text, r: Text, x': seq<Text>, p': Text, y': seq<Text>, q': Text, r': Text)
    requires x + [p] + y + [q] + [r] == x' + [p'] + y' + [q'] + [r'] && |x| == |x'|
    ensures x == x' && p == p' && y == y' && q == q' && r == r'
  {
    var a, b := x + [p] + y + [q] + [r], x' + [p'] + y' + [q'] + [r'];
    assert |a| == |b|;
    assert x == a[..|x|] && x' == b[..|x|] && p == a[|x|] && p' == b[|x|];
    assert y == a[|x| + 1..|a| - 2] && y' == b[|x| + 1..|a| - 2];
    assert q == a[|a| - 2] && q' == b[|a| - 2] && r == a[|a| - 1] && r' == b[|a| - 1];
  }

  lemma FieldsAgree(a: Attempt, b: Attempt)
    requires Fields(a) == Fields(b) && |Lines(a.sagaId)| == |Lines(b.sagaId)|
    ensures a == b
  {
    hide Decimal, Lines;
    SameParts(Lines(a.sagaId), Decimal(a.effectSeq), Lines(a.compensatorId), a.planHash, Decimal(a.stepIndex),
              Lines(b.sagaId), Decimal(b.effectSeq), Lines(b.compensatorId), b.planHash, Decimal(b.stepIndex));
    hide Fields;
    SameLines(a.sagaId, b.sagaId);
    SameLines(a.compensatorId, b.compensatorId);
    DecimalInjective(a.effectSeq, b.effectSeq);
    DecimalInjective(a.stepIndex, b.stepIndex);
  }

  /** Of two attempts that hash one text, with one-line plan hashes, the saga ids have as many lines exactly
      when the attempts are equal. */
  lemma MaterialBinds(a: Attempt, b: Attempt)
    requires OneLine(a.planHash) && OneLine(b.planHash) && Material(a) == Material(b)
    ensures |Lines(a.sagaId)| == |Lines(b.sagaId)| <==> a == b
  {
    SameMaterial(a, b);
    if |Lines(a.sagaId)| == |Lines(b.sagaId)| { FieldsAgree(a, b); }
  }

  /** A line of the saga id after its first, or of the compensator id before its last, prints an integer. */
  predicate Ambiguous(a: Attempt) {
    var saga, compensator := Lines(a.sagaId), Lines(a.compensatorId);
    || (exists i :: 1 <= i < |saga| && IsDecimal(saga[i]))
    || (exists i :: 0 <= i < |compensator| - 1 && IsDecimal(compensator[i]))
  }

  /** Another attempt with a one-line plan hash hashes the same text. */
  ghost predicate Mistaken(a: Attempt) {
    exists b :: b != a && OneLine(b.planHash) && Material(b) == Material(a)
  }

  lemma MistakenIsAmbiguous(a: Attempt, b: Attempt)
    requires OneLine(a.planHash) && OneLine(b.planHash) && b != a && Material(b) == Material(a)
    ensures Ambiguous(a)
  {
    SameMaterial(a, b);
    MaterialBinds(a, b);
    ReadDecimal(b.effectSeq);
    hide Decimal, Lines, IsDecimal;
    var n, m := |Lines(a.sagaId)|, |Lines(b.sagaId)|;
    assert Fields(b)[m] == Decimal(b.effectSeq) && |Fields(a)| == |Fields(b)|;
    if m < n {
      assert Fields(a)[m] == Lines(a.sagaId)[m];
    } else {
      assert Fields(a)[m] == Lines(a.compensatorId)[m - n - 1];
    }
  }

  /** The attempt that reads line `i` of the fields as its seq. */
  function Reread(a: Attempt, i: nat): Attempt
    requires 1 <= i < |Fields(a)| - 3
  {
    var f := Fields(a);
    Attempt(Join(f[..i]), ReadInt(f[i]), Join(f[i + 1..|f| - 2]), a.planHash, a.stepIndex)
  }

  lemma FieldsOneLine(a: Attempt)
    requires OneLine(a.planHash)
    ensures forall k :: 0 <= k < |Fields(a)| ==> OneLine(Fields(a)[k])
  {
    JoinLines(a.sagaId);
    JoinLines(a.compensatorId);
    DecimalPlain(a.effectSeq);
    DecimalPlain(a.stepIndex);
    hide Decimal, Lines;
  }

  lemma CutParts(f: seq<Text>, i: nat)
    requires 1 <= i < |f| - 3
    ensures f == f[..i] + [f[i]] + f[i + 1..|f| - 2] + [f[|f| - 2]] + [f[|f| - 1]]
  {
  }

  lemma RereadFields(a: Attempt, i: nat)
    requires OneLine(a.planHash) && 1 <= i < |Fields(a)| - 3 && IsDecimal(Fields(a)[i])
    ensures Lines(Reread(a, i).sagaId) == Fields(a)[..i] && Fields(Reread(a, i)) == Fields(a)
  {
    var f, b := Fields(a), Reread(a, i);
    FieldsOneLine(a);
    assert f[|f| - 2] == a.planHash && f[|f| - 1] == Decimal(a.stepIndex);
    var front, back := f[..i], f[i + 1..|f| - 2];
    assert b == Attempt(Join(front), ReadInt(f[i]), Join(back), a.planHash, a.stepIndex);
    assert f[i] == Decimal(ReadInt(f[i]));
    assert front != [] && back != [];
    hide Decimal, Lines, Join, ReadInt, Reread;
    LinesJoin(front);
    LinesJoin(back);
    CutParts(f, i);
  }

  lemma RereadSame(a: Attempt, i: nat)
    requires OneLine(a.planHash) && 1 <= i < |Fields(a)| - 3 && IsDecimal(Fields(a)[i]) && i != |Lines(a.sagaId)|
    ensures Reread(a, i) != a && Material(Reread(a, i)) == Material(a)
  {
    RereadFields(a, i);
    assert Reread(a, i).planHash == a.planHash;
    hide Decimal, Lines, Reread, Fields, Material;
    SameMaterial(a, Reread(a, i));
  }

  /** Exactly which attempts share their hashed text with another. */
  lemma MaterialExact(a: Attempt)
    requires OneLine(a.planHash)
    ensures Mistaken(a) <==> Ambiguous(a)
  {
    hide Material, Decimal, Lines, IsDecimal, Reread;
    if Mistaken(a) {
      var b :| b != a && OneLine(b.planHash) && Material(b) == Material(a);
      MistakenIsAmbiguous(a, b);
    }
    if Ambiguous(a) {
      var saga, compensator := Lines(a.sagaId), Lines(a.compensatorId);
      if exists i :: 1 <= i < |saga| && IsDecimal(saga[i]) {
        var i :| 1 <= i < |saga| && IsDecimal(saga[i]);
        assert Fields(a)[i] == saga[i];
        MistakenFor(a, i);
      } else {
        var i :| 0 <= i < |compensator| - 1 && IsDecimal(compensator[i]);
        assert Fields(a)[|saga| + 1 + i] == compensator[i];
        MistakenFor(a, |saga| + 1 + i);
      }
    }
  }

  lemma MistakenFor(a: Attempt, i: nat)
    requires OneLine(a.planHash) && 1 <= i < |Fields(a)| - 3 && IsDecimal(Fields(a)[i]) && i != |Lines(a.sagaId)|
    ensures Mistaken(a)
  {
    RereadSame(a, i);
    assert Reread(a, i).planHash == a.planHash;
    hide Reread, Material, Fields;
  }

  /** Two such attempts. */
  lemma LineBreakConfuses()
    ensures var (a, b) := (Attempt(A("s") + [NEWLINE] + Decimal(1), 2, A("c"), A("p"), 0),
                           Attempt(A("s"), 1, Decimal(2) + [NEWLINE] + A("c"), A("p"), 0));
            a != b && Material(a) == Material(b)
  {
    var (a, b) := (Attempt(A("s") + [NEWLINE] + Decimal(1), 2, A("c"), A("p"), 0),
                   Attempt(A("s"), 1, Decimal(2) + [NEWLINE] + A("c"), A("p"), 0));
    var end := A("p") + [NEWLINE] + Decimal(0);
    hide Decimal;
    assert Tail(a) == A("s") + [NEWLINE] + Decimal(1) + [NEWLINE] + Decimal(2) + [NEWLINE] + A("c") + [NEWLINE] + end;
    assert Tail(b) == A("s") + [NEWLINE] + Decimal(1) + [NEWLINE] + Decimal(2) + [NEWLINE] + A("c") + [NEWLINE] + end;
  }

  lemma EffectMaterialBinds(a: Named, b: Named)
    requires BAR !in a.sagaId && BAR !in b.sagaId && BAR !in a.argsHash && BAR !in b.argsHash
    requires EffectMaterial(a) == EffectMaterial(b)
    ensures a == b
  {
    DecimalPlain(a.seqNo);
    DecimalPlain(b.seqNo);
    var a2, b2 := a.actionName + [BAR] + a.argsHash, b.actionName + [BAR] + b.argsHash;
    hide Decimal;
    SplitFirst(BAR, a.sagaId, Decimal(a.seqNo) + [BAR] + a2, b.sagaId, Decimal(b.seqNo) + [BAR] + b2);
    SplitFirst(BAR, Decimal(a.seqNo), a2, Decimal(b.seqNo), b2);
    SplitLast(BAR, a.actionName, a.argsHash, b.actionName, b.argsHash);
    DecimalInjective(a.seqNo, b.seqNo);
  }

  // ---------------------------------------------------------------- equal identifiers

  lemma DigestText(d: Digest, t: Text, k: nat)
    requires Digests32(d) && k <= 51
    ensures k <= |Crockford32(d(t))| && Cut(Crockford32(d(t)), k) == Crockford32(d(t))[..k]
  {
    DecodeEncode(Bits(d(t)));
  }

  /** The attempts table has one row per step of one plan of one effect: equal idempotency keys mean the same
      saga, effect, compensator, plan and step, or two different hashed texts agree in 20 bytes of digest.
      The saga ids need as many lines, one as a rule; line breaks in a compensator id do no harm. */
  lemma IdempotencyKeyBinds(d: Digest, a: Attempt, b: Attempt)
    requires Digests32(d) && OneLine(a.planHash) && OneLine(b.planHash)
    requires |Lines(a.sagaId)| == |Lines(b.sagaId)| || !Ambiguous(a)
    requires DeriveIdempotencyKey(d, a) == DeriveIdempotencyKey(d, b)
    ensures a == b || CollideIn(d, 20, Material(a), Material(b))
  {
    hide Crockford32, Material, Ambiguous, Lines;
    DigestText(d, Material(a), 32);
    DigestText(d, Material(b), 32);
    assert Cut(Crockford32(d(Material(a))), 32) == DeriveIdempotencyKey(d, a)[4..];
    assert Cut(Crockford32(d(Material(b))), 32) == DeriveIdempotencyKey(d, b)[4..];
    TruncatedBinds(d(Material(a)), d(Material(b)), 32);
    if Material(a) == Material(b) && a != b {
      MaterialBinds(a, b);
      MistakenIsAmbiguous(a, b);
    }
  }

  /** The shape of the identifiers. */
  lemma KeyShapes(d: Digest, a: Attempt, n: Named)
    requires Digests32(d)
    ensures var key := DeriveIdempotencyKey(d, a); |key| == 36 && key[..4] == "vr1_" && key[4..] <= Crockford32(d(Material(a)))
    ensures var id := DeriveEffectId(d, n); |id| == 30 && id[..4] == "eff_" && id[4..] <= Crockford32(d(EffectMaterial(n)))
  {
    hide Crockford32, Material, EffectMaterial;
    DigestText(d, Material(a), 32);
    DigestText(d, EffectMaterial(n), 26);
  }

  /** Equal effect ids mean the same saga, seq, action and arguments, or a collision in 16 bytes of digest. */
  lemma EffectIdBinds(d: Digest, a: Named, b: Named)
    requires Digests32(d)
    requires BAR !in a.sagaId && BAR !in b.sagaId && BAR !in a.argsHash && BAR !in b.argsHash
    requires DeriveEffectId(d, a) == DeriveEffectId(d, b)
    ensures a == b || CollideIn(d, 16, EffectMaterial(a), EffectMaterial(b))
  {
    hide Crockford32, EffectMaterial;
    DigestText(d, EffectMaterial(a), 26);
    DigestText(d, EffectMaterial(b), 26);
    assert Cut(Crockford32(d(EffectMaterial(a))), 26) == DeriveEffectId(d, a)[4..];
    assert Cut(Crockford32(d(EffectMaterial(b))), 26) == DeriveEffectId(d, b)[4..];
    TruncatedBinds(d(EffectMaterial(a)), d(EffectMaterial(b)), 26);
    if EffectMaterial(a) == EffectMaterial(b) { EffectMaterialBinds(a, b); }
  }

  // ---------------------------------------------------------------- plan hashes

  datatype PlanInput = PlanInput(effectId: Text, compensatorId: Text, origin: Text, steps: Json)

  const PLAN_NAMES: seq<string> := ["effect_id", "compensator_id", "origin", "steps"]

  function PlanValues(p: PlanInput): seq<Json> {
    [Str(p.effectId), Str(p.compensatorId), Str(p.origin), p.steps]
  }

  function PlanText(p: PlanInput): Text {
    Emit(Record(PLAN_NAMES, PlanValues(p)))
  }

  /** `derivePlanHash`. */
  function DerivePlanHash(h: Hash, p: PlanInput): Text {
    Prefixed(h, PlanText(p))
  }

  /** The same plan, steps compared as JSON values: the order of members does not count. */
  ghost predicate SamePlan(p: PlanInput, q: PlanInput) {
    p.effectId == q.effectId && p.compensatorId == q.compensatorId && p.origin == q.origin && Meaning(p.steps) == Meaning(q.steps)
  }

  lemma PlanNamesGood()
    ensures GoodNames(PLAN_NAMES) && PLAN_NAMES[..4] == PLAN_NAMES
  {
    assert |PLAN_NAMES[0]| == 9 && |PLAN_NAMES[1]| == 14 && |PLAN_NAMES[2]| == 6 && |PLAN_NAMES[3]| == 5;
  }

  lemma SameValues(p: PlanInput, q: PlanInput)
    ensures SamePlan(p, q) <==> forall i :: 0 <= i < 4 ==> Meaning(PlanValues(p)[i]) == Meaning(PlanValues(q)[i])
  {
    var xs, ys := PlanValues(p), PlanValues(q);
    assert Meaning(xs[0]) == VStr(p.effectId) && Meaning(xs[1]) == VStr(p.compensatorId) && Meaning(xs[2]) == VStr(p.origin);
    assert Meaning(ys[0]) == VStr(q.effectId) && Meaning(ys[1]) == VStr(q.compensatorId) && Meaning(ys[2]) == VStr(q.origin);
    hide Meaning;
    assert xs[3] == p.steps && ys[3] == q.steps;
  }

  lemma PlanTextExact(p: PlanInput, q: PlanInput)
    requires WellFormed(p.steps) && WellFormed(q.steps)
    ensures PlanText(p) == PlanText(q) <==> SamePlan(p, q)
  {
    PlanNamesGood();
    var xs, ys := PlanValues(p), PlanValues(q);
    SameValues(p, q);
    RecordFields(PLAN_NAMES, xs);
    RecordFields(PLAN_NAMES, ys);
    CanonicalExact(Record(PLAN_NAMES, xs), Record(PLAN_NAMES, ys));
    hide Emit, Record, WellFormed, Meaning, SamePlan, GoodNames;
    if PlanText(p) == PlanText(q) { RecordsAgree(PLAN_NAMES, xs, ys); }
    if SamePlan(p, q) { RecordsMeanSame(PLAN_NAMES, xs, ys); }
  }

  /** Equal plan hashes mean the same plan, or the two canonical texts collide; and the hash depends on
      nothing else. */
  lemma PlanHashBinds(h: Hash, p: PlanInput, q: PlanInput)
    requires WellFormed(p.steps) && WellFormed(q.steps)
    ensures DerivePlanHash(h, p) == DerivePlanHash(h, q) ==> SamePlan(p, q) || Collides(h, {PlanText(p), PlanText(q)})
    ensures SamePlan(p, q) ==> DerivePlanHash(h, p) == DerivePlanHash(h, q)
  {
    PlanTextExact(p, q);
    hide PlanText, SamePlan, Prefixed;
    if DerivePlanHash(h, p) == DerivePlanHash(h, q) {
      PrefixedInjective(h, PlanText(p), PlanText(q));
    }
  }

  /** The members of the hashed plan. */
  lemma PlanMembers(p: PlanInput)
    ensures Record(PLAN_NAMES, PlanValues(p))
            == Obj([ Entry(A("effect_id"), Str(p.effectId)), Entry(A("compensator_id"), Str(p.compensatorId)),
                     Entry(A("origin"), Str(p.origin)), Entry(A("steps"), p.steps) ])
  {
    hide A;
  }
}
