/** The canonical printer (RFC 8785, sections 3.2.2 and 3.2.3) and an inverse parser for it. */
module Jcs {
  import opened Options
  import opened Texts

  // ---------------------------------------------------------------- values

  predicate NumChar(c: CodeUnit) {
    0x30 <= c <= 0x39 || c == 0x2b || c == 0x2d || c == 0x2e || c == 0x45 || c == 0x65
  }

  predicate IsNumText(t: Text) {
    t != [] && (0x30 <= t[0] <= 0x39 || t[0] == 0x2d) && forall i :: 0 <= i < |t| ==> NumChar(t[i])
  }

  /** A finite number, given by the text ECMAScript prints for it. */
  type NumText = t: Text | IsNumText(t) witness [0x30]

  /** A JSON value as it sits in memory: object members in insertion order. */
  datatype Json =
    | Null
    | Bool(b: bool)
    | Num(n: NumText)
    | Str(s: Text)
    | Arr(items: seq<Json>)
    | Obj(members: seq<Entry<Json>>)

  /** What a JSON value means: objects are maps. */
  datatype Value =
    | VNull
    | VBool(b: bool)
    | VNum(n: NumText)
    | VStr(s: Text)
    | VArr(items: seq<Value>)
    | VObj(fields: map<Text, Value>)

  /** Objects never repeat a key, at any depth. */
  ghost predicate WellFormed(v: Json) {
    match v
    case Arr(items) => forall x :: x in items ==> WellFormed(x)
    case Obj(ms) => DistinctKeys(ms) && forall m :: m in ms ==> WellFormed(m.val)
    case _ => true
  }

  ghost function Meaning(v: Json): Value {
    match v
    case Null => VNull
    case Bool(b) => VBool(b)
    case Num(n) => VNum(n)
    case Str(s) => VStr(s)
    case Arr(items) => VArr(Meanings(v, items))
    case Obj(ms) => VObj(Fields(v, ms))
  }

  ghost function Meanings(context: Json, items: seq<Json>): (r: seq<Value>)
    requires forall i :: 0 <= i < |items| ==> items[i] < context
    ensures |r| == |items|
    decreases context, |items|
  {
    if items == [] then [] else [Meaning(items[0])] + Meanings(context, items[1..])
  }

  ghost function Fields(context: Json, ms: seq<Entry<Json>>): map<Text, Value>
    requires forall m :: m in ms ==> m.val < context
    decreases context, |ms|
  {
    if ms == [] then map[] else Fields(context, ms[1..])[ms[0].key := Meaning(ms[0].val)]
  }

  // ---------------------------------------------------------------- printing

  const NULL: Text := [0x6e, 0x75, 0x6c, 0x6c]
  const TRUE: Text := [0x74, 0x72, 0x75, 0x65]
  const FALSE: Text := [0x66, 0x61, 0x6c, 0x73, 0x65]
  const QUOTE: CodeUnit := 0x22
  const COMMA: CodeUnit := 0x2c
  const COLON: CodeUnit := 0x3a

  function HexDigit(d: nat): CodeUnit
    requires d < 16
  {
    if d < 10 then (0x30 + d) as CodeUnit else (0x57 + d) as CodeUnit
  }

  /** One code unit inside a string literal. */
  function Escape(c: CodeUnit): Text {
    if c == 0x22 then [0x5c, 0x22]
    else if c == 0x5c then [0x5c, 0x5c]
    else if c == 0x08 then [0x5c, 0x62]
    else if c == 0x0c then [0x5c, 0x66]
    else if c == 0x0a then [0x5c, 0x6e]
    else if c == 0x0d then [0x5c, 0x72]
    else if c == 0x09 then [0x5c, 0x74]
    else if c < 0x20 then [0x5c, 0x75, 0x30, 0x30, HexDigit(c as int / 16), HexDigit(c as int % 16)]
    else [c]
  }

  function EscapeAll(s: Text): Text {
    if s == [] then [] else Escape(s[0]) + EscapeAll(s[1..])
  }

  function Quoted(s: Text): Text {
    [QUOTE] + EscapeAll(s) + [QUOTE]
  }

  lemma EscapeAllAppend(s: Text, c: CodeUnit)
    ensures EscapeAll(s + [c]) == EscapeAll(s) + Escape(c)
  {
    hide Escape;
    if s == [] {
      assert [c] == [] + [c];
      assert EscapeAll([c]) == Escape(c) + EscapeAll([]);
    } else {
      EscapeAllAppend(s[1..], c);
      assert (s + [c])[1..] == s[1..] + [c];
    }
  }

  /** The loop of `jsonString`: quote, then one escape per code unit, then quote. */
  method JsonString(s: Text) returns (out: Text)
    ensures out == Quoted(s)
  {
    out := [QUOTE];
    for i := 0 to |s|
      invariant out == [QUOTE] + EscapeAll(s[..i])
    {
      out := out + Escape(s[i]);
      EscapeAllAppend(s[..i], s[i]);
      assert s[..i + 1] == s[..i] + [s[i]];
    }
    assert s[..|s|] == s;
    out := out + [QUOTE];
  }

  function Emit(v: Json): (r: Text)
    decreases v, 0
  {
    match v
    case Null => NULL
    case Bool(b) => if b then TRUE else FALSE
    case Num(n) => n
    case Str(s) => Quoted(s)
    case Arr(items) => [0x5b] + EmitItems(v, items) + [0x5d]
    case Obj(ms) => [0x7b] + EmitMembers(v, SortEntries(ms)) + [0x7d]
  }

  /** Elements joined by commas. */
  function EmitItems(ghost context: Json, items: seq<Json>): Text
    requires forall i :: 0 <= i < |items| ==> items[i] < context
    decreases context, 0, |items|
  {
    if items == [] then []
    else if |items| == 1 then Emit(items[0])
    else Emit(items[0]) + [COMMA] + EmitItems(context, items[1..])
  }

  function EmitMember(ghost context: Json, m: Entry<Json>): Text
    requires m.val < context
    decreases context, 0, 0
  {
    Quoted(m.key) + [COLON] + Emit(m.val)
  }

  /** Members joined by commas, in the order given. */
  function EmitMembers(ghost context: Json, ms: seq<Entry<Json>>): Text
    requires forall m :: m in ms ==> m.val < context
    decreases context, 0, |ms|
  {
    if ms == [] then []
    else if |ms| == 1 then EmitMember(context, ms[0])
    else EmitMember(context, ms[0]) + [COMMA] + EmitMembers(context, ms[1..])
  }

  // ---------------------------------------------------------------- parsing back

  datatype Parsed<+T> = Parsed(value: T, rest: Text)

  function HexValue(c: CodeUnit): Option<nat> {
    if 0x30 <= c <= 0x39 then Some(c as int - 0x30)
    else if 0x61 <= c <= 0x66 then Some(c as int - 0x57)
    else None
  }

  /** Reads one code unit of a string body. */
  function Unescape(s: Text): (r: Option<Parsed<CodeUnit>>)
    requires s != []
    ensures r.Some? ==> |r.value.rest| < |s|
  {
    if s[0] != 0x5c then Some(Parsed(s[0], s[1..]))
    else if |s| < 2 then None
    else if s[1] == 0x22 || s[1] == 0x5c then Some(Parsed(s[1], s[2..]))
    else if s[1] == 0x62 then Some(Parsed(0x08, s[2..]))
    else if s[1] == 0x66 then Some(Parsed(0x0c, s[2..]))
    else if s[1] == 0x6e then Some(Parsed(0x0a, s[2..]))
    else if s[1] == 0x72 then Some(Parsed(0x0d, s[2..]))
    else if s[1] == 0x74 then Some(Parsed(0x09, s[2..]))
    else if s[1] == 0x75 && |s| >= 6 then
      match (HexValue(s[2]), HexValue(s[3]), HexValue(s[4]), HexValue(s[5]))
      case (Some(a), Some(b), Some(c), Some(d)) =>
        if a < 16 && b < 16 && c < 16 && d < 16
        then Some(Parsed((((a * 16 + b) * 16 + c) * 16 + d) as CodeUnit, s[6..])) else None
      case _ => None
    else None
  }

  /** Reads a string body up to and including its closing quote. */
  function ParseChars(s: Text): (r: Option<Parsed<Text>>)
    ensures r.Some? ==> |r.value.rest| < |s|
    decreases |s|
  {
    if s == [] then None
    else if s[0] == QUOTE then Some(Parsed([], s[1..]))
    else match Unescape(s)
      case None => None
      case Some(Parsed(c, rest)) =>
        match ParseChars(rest)
        case None => None
        case Some(Parsed(cs, end)) => Some(Parsed([c] + cs, end))
  }

  /** Length of the longest prefix of number characters. */
  function NumSpan(s: Text): (n: nat)
    ensures n <= |s|
    ensures forall i :: 0 <= i < n ==> NumChar(s[i])
  {
    if s != [] && NumChar(s[0]) then 1 + NumSpan(s[1..]) else 0
  }

  function ParseValue(s: Text): (r: Option<Parsed<Value>>)
    ensures r.Some? ==> |r.value.rest| < |s|
    decreases |s|, 0
  {
    if s == [] then None
    else if NULL <= s then Some(Parsed(VNull, s[4..]))
    else if TRUE <= s then Some(Parsed(VBool(true), s[4..]))
    else if FALSE <= s then Some(Parsed(VBool(false), s[5..]))
    else if s[0] == QUOTE then
      match ParseChars(s[1..])
      case None => None
      case Some(Parsed(cs, rest)) => Some(Parsed(VStr(cs), rest))
    else if s[0] == 0x5b then
      if |s| > 1 && s[1] == 0x5d then Some(Parsed(VArr([]), s[2..]))
      else match ParseItems(s[1..])
        case None => None
        case Some(Parsed(vs, rest)) => Some(Parsed(VArr(vs), rest))
    else if s[0] == 0x7b then
      if |s| > 1 && s[1] == 0x7d then Some(Parsed(VObj(map[]), s[2..]))
      else match ParseMembers(s[1..])
        case None => None
        case Some(Parsed(fs, rest)) => Some(Parsed(VObj(fs), rest))
    else
      var n := NumSpan(s);
      if n > 0 && IsNumText(s[..n]) then Some(Parsed(VNum(s[..n]), s[n..])) else None
  }

  /** One or more elements and the closing bracket. */
  function ParseItems(s: Text): (r: Option<Parsed<seq<Value>>>)
    ensures r.Some? ==> |r.value.rest| < |s|
    decreases |s|, 1
  {
    match ParseValue(s)
    case None => None
    case Some(Parsed(v, rest)) =>
      if rest == [] then None
      else if rest[0] == 0x5d then Some(Parsed([v], rest[1..]))
      else if rest[0] == COMMA then
        match ParseItems(rest[1..])
        case None => None
        case Some(Parsed(vs, end)) => Some(Parsed([v] + vs, end))
      else None
  }

  /** One or more members and the closing brace. */
  function ParseMembers(s: Text): (r: Option<Parsed<map<Text, Value>>>)
    ensures r.Some? ==> |r.value.rest| < |s|
    decreases |s|, 1
  {
    if s == [] || s[0] != QUOTE then None
    else match ParseChars(s[1..])
      case None => None
      case Some(Parsed(k, afterKey)) =>
        if afterKey == [] || afterKey[0] != COLON then None
        else match ParseValue(afterKey[1..])
          case None => None
          case Some(Parsed(v, rest)) =>
            if rest == [] then None
            else if rest[0] == 0x7d then Some(Parsed(map[k := v], rest[1..]))
            else if rest[0] == COMMA then
              match ParseMembers(rest[1..])
              case None => None
              case Some(Parsed(fs, end)) => Some(Parsed(fs[k := v], end))
            else None
  }

  // ---------------------------------------------------------------- round trip

  lemma UnescapeEscape(c: CodeUnit, t: Text)
    ensures Escape(c) != [] && Escape(c)[0] != QUOTE
    ensures Unescape(Escape(c) + t) == Some(Parsed(c, t))
  {
    var s := Escape(c) + t;
    if c == 0x22 || c == 0x5c || c == 0x08 || c == 0x0c || c == 0x0a || c == 0x0d || c == 0x09 {
      assert s[2..] == t;
    } else if c < 0x20 {
      assert s[6..] == t;
    } else {
      assert s[1..] == t;
    }
  }

  /** String escaping is uniquely readable: the body of a printed string reads back, whatever follows. */
  lemma {:induction false} CharsRoundTrip(s: Text, t: Text)
    ensures ParseChars(EscapeAll(s) + [QUOTE] + t) == Some(Parsed(s, t))
  {
    var out := EscapeAll(s) + [QUOTE] + t;
    if s == [] {
      assert out == [QUOTE] + t;
    } else {
      var rest := EscapeAll(s[1..]) + [QUOTE] + t;
      assert out == Escape(s[0]) + rest;
      UnescapeEscape(s[0], rest);
      CharsRoundTrip(s[1..], t);
      assert [s[0]] + s[1..] == s;
    }
  }

  /** What may follow a printed value: the end, or a character no number contains. */
  predicate Delimited(t: Text) {
    t == [] || !NumChar(t[0])
  }

  lemma {:induction false} NumSpanExact(n: Text, t: Text)
    requires forall i :: 0 <= i < |n| ==> NumChar(n[i])
    requires Delimited(t)
    ensures NumSpan(n + t) == |n|
  {
    if n == [] {
      assert n + t == t;
    } else {
      var tail := n[1..];
      forall i | 0 <= i < |tail| ensures NumChar(tail[i]) { assert tail[i] == n[i + 1]; }
      NumSpanExact(tail, t);
      assert (n + t)[1..] == tail + t && (n + t)[0] == n[0];
    }
  }

  lemma EmitHead(v: Json)
    ensures Emit(v) != [] && Emit(v)[0] != 0x5d
  {
  }

  lemma ItemsHead(v: Json, items: seq<Json>)
    requires forall i :: 0 <= i < |items| ==> items[i] < v
    requires items != []
    ensures EmitItems(v, items) != [] && EmitItems(v, items)[0] != 0x5d
  {
    EmitHead(items[0]);
  }

  lemma MembersHead(v: Json, ms: seq<Entry<Json>>)
    requires forall m :: m in ms ==> m.val < v
    requires ms != []
    ensures EmitMembers(v, ms) != [] && EmitMembers(v, ms)[0] == QUOTE
  {
  }

  lemma {:induction false} FieldsEntries(v: Json, ms: seq<Entry<Json>>)
    requires forall m :: m in ms ==> m.val < v
    requires DistinctKeys(ms)
    ensures forall m :: m in ms ==> m.key in Fields(v, ms) && Fields(v, ms)[m.key] == Meaning(m.val)
    ensures forall k :: k in Fields(v, ms) ==> exists m :: m in ms && m.key == k
  {
    if ms != [] {
      FieldsEntries(v, ms[1..]);
      forall m | m in ms
        ensures m.key in Fields(v, ms) && Fields(v, ms)[m.key] == Meaning(m.val)
      {
        var i :| 0 <= i < |ms| && ms[i] == m;
        if i > 0 {
          assert ms[1..][i - 1] == m;
          assert m in ms[1..];
        }
      }
      forall k | k in Fields(v, ms)
        ensures exists m :: m in ms && m.key == k
      {
        if k == ms[0].key {
          assert ms[0] in ms;
        } else {
          var m :| m in ms[1..] && m.key == k;
          assert m in ms;
        }
      }
    }
  }

  /** Insertion order never reaches the meaning of an object. */
  lemma FieldsOrder(v: Json, a: seq<Entry<Json>>, b: seq<Entry<Json>>)
    requires forall m :: m in a ==> m.val < v
    requires DistinctKeys(a) && DistinctKeys(b)
    requires forall m :: m in a <==> m in b
    ensures Fields(v, a) == Fields(v, b)
  {
    FieldsEntries(v, a);
    FieldsEntries(v, b);
    forall k ensures k in Fields(v, a) <==> k in Fields(v, b) {
      if k in Fields(v, a) {
        var m :| m in a && m.key == k;
        assert m in b;
      }
      if k in Fields(v, b) {
        var m :| m in b && m.key == k;
        assert m in a;
      }
    }
    forall k | k in Fields(v, a) ensures Fields(v, a)[k] == Fields(v, b)[k] {
      var m :| m in a && m.key == k;
      assert m in b;
    }
  }

  lemma AscendingDistinct(es: seq<Entry<Json>>)
    requires Ascending(es)
    ensures DistinctKeys(es)
  {
    forall i, j | 0 <= i < j < |es| ensures es[i].key != es[j].key {
      LessAsymmetric(es[i].key, es[j].key);
    }
  }

  // One lemma per shape of text: what the parser does on it, given what it does on the parts.

  lemma ParseFixed(t: Text)
    ensures ParseValue(NULL + t) == Some(Parsed(VNull, t))
    ensures ParseValue([0x5b, 0x5d] + t) == Some(Parsed(VArr([]), t))
    ensures ParseValue([0x7b, 0x7d] + t) == Some(Parsed(VObj(map[]), t))
  {
    assert (NULL + t)[4..] == t && (NULL + t)[0] == 0x6e;
    assert ([0x5b, 0x5d] + t)[2..] == t;
    assert ([0x7b, 0x7d] + t)[2..] == t;
  }

  lemma ParseBool(b: bool, t: Text)
    ensures ParseValue((if b then TRUE else FALSE) + t) == Some(Parsed(VBool(b), t))
  {
    var s := (if b then TRUE else FALSE) + t;
    if b {
      assert s[4..] == t && s[0] == 0x74;
    } else {
      assert s[5..] == t && s[0] == 0x66;
    }
  }

  lemma ParseNumber(n: NumText, t: Text)
    requires Delimited(t)
    ensures ParseValue(n + t) == Some(Parsed(VNum(n), t))
  {
    NumSpanExact(n, t);
    assert (n + t)[..|n|] == n && (n + t)[|n|..] == t;
  }

  lemma ParseKey(k: Text, after: Text)
    ensures (Quoted(k) + after)[0] == QUOTE
    ensures ParseChars((Quoted(k) + after)[1..]) == Some(Parsed(k, after))
  {
    CharsRoundTrip(k, after);
    assert (Quoted(k) + after)[1..] == EscapeAll(k) + [QUOTE] + after;
  }

  lemma ParseQuoted(cs: Text, t: Text)
    ensures ParseValue(Quoted(cs) + t) == Some(Parsed(VStr(cs), t))
  {
    hide ParseChars, EscapeAll, NumSpan, ParseItems, ParseMembers;
    ParseKey(cs, t);
    var s := Quoted(cs) + t;
    assert s[0] != NULL[0] && s[0] != TRUE[0] && s[0] != FALSE[0];
  }

  lemma ParseBracketed(body: Text, vs: seq<Value>, t: Text)
    requires body != [] && body[0] != 0x5d
    requires ParseItems(body) == Some(Parsed(vs, t))
    ensures ParseValue([0x5b] + body) == Some(Parsed(VArr(vs), t))
  {
    assert ([0x5b] + body)[1..] == body;
  }

  lemma ParseBraced(body: Text, fs: map<Text, Value>, t: Text)
    requires body != [] && body[0] == QUOTE
    requires ParseMembers(body) == Some(Parsed(fs, t))
    ensures ParseValue([0x7b] + body) == Some(Parsed(VObj(fs), t))
  {
    assert ([0x7b] + body)[1..] == body;
  }

  lemma ParseLastItem(x: Text, v: Value, t: Text)
    requires ParseValue(x + ([0x5d] + t)) == Some(Parsed(v, [0x5d] + t))
    ensures ParseItems(x + ([0x5d] + t)) == Some(Parsed([v], t))
  {
    assert ([0x5d] + t)[1..] == t;
  }

  lemma ParseNextItem(x: Text, v: Value, more: Text, vs: seq<Value>, t: Text)
    requires ParseValue(x + ([COMMA] + more)) == Some(Parsed(v, [COMMA] + more))
    requires ParseItems(more) == Some(Parsed(vs, t))
    ensures ParseItems(x + ([COMMA] + more)) == Some(Parsed([v] + vs, t))
  {
    assert ([COMMA] + more)[1..] == more;
  }

  lemma ParseLastMember(k: Text, x: Text, v: Value, t: Text)
    requires ParseValue(x + ([0x7d] + t)) == Some(Parsed(v, [0x7d] + t))
    ensures ParseMembers(Quoted(k) + ([COLON] + (x + ([0x7d] + t)))) == Some(Parsed(map[k := v], t))
  {
    var after := [COLON] + (x + ([0x7d] + t));
    ParseKey(k, after);
    assert after[1..] == x + ([0x7d] + t);
    assert ([0x7d] + t)[1..] == t;
  }

  lemma ParseNextMember(k: Text, x: Text, v: Value, more: Text, fs: map<Text, Value>, t: Text)
    requires ParseValue(x + ([COMMA] + more)) == Some(Parsed(v, [COMMA] + more))
    requires ParseMembers(more) == Some(Parsed(fs, t))
    ensures ParseMembers(Quoted(k) + ([COLON] + (x + ([COMMA] + more)))) == Some(Parsed(fs[k := v], t))
  {
    var after := [COLON] + (x + ([COMMA] + more));
    ParseKey(k, after);
    assert after[1..] == x + ([COMMA] + more);
    assert ([COMMA] + more)[1..] == more;
  }

  lemma Reassociate(q: Text, c: Text, x: Text, d: Text, m: Text, e: Text)
    ensures q + (c + (x + (d + (m + e)))) == ((q + c + x) + d + m) + e
    ensures q + (c + (x + e)) == (q + c + x) + e
  {
  }

  /** Parsing what the printer wrote gives back the meaning of the value and leaves the rest untouched. */
  lemma {:induction false} RoundTrip(v: Json, t: Text)
    requires WellFormed(v) && Delimited(t)
    ensures ParseValue(Emit(v) + t) == Some(Parsed(Meaning(v), t))
    decreases v, 0
  {
    hide ParseValue, ParseItems, ParseMembers, Quoted, EmitItems, EmitMembers, Meanings, Fields;
    ParseFixed(t);
    match v
    case Null =>
    case Bool(b) => ParseBool(b, t);
    case Num(n) => ParseNumber(n, t);
    case Str(cs) => ParseQuoted(cs, t);
    case Arr(items) => ArrayRoundTrip(v, t);
    case Obj(ms) => ObjectRoundTrip(v, t);
  }

  lemma {:induction false} ArrayRoundTrip(v: Json, t: Text)
    requires v.Arr? && WellFormed(v)
    ensures ParseValue(Emit(v) + t) == Some(Parsed(Meaning(v), t))
    decreases v, 0, |v.items| + 1
  {
    hide ParseValue, ParseItems, ParseMembers;
    ParseFixed(t);
    if v.items == [] {
      assert Emit(v) == [0x5b, 0x5d];
    } else {
      var body := EmitItems(v, v.items) + ([0x5d] + t);
      ItemsRoundTrip(v, v.items, t);
      ItemsHead(v, v.items);
      ParseBracketed(body, Meanings(v, v.items), t);
      assert Emit(v) + t == [0x5b] + body;
    }
  }

  lemma {:induction false} ObjectRoundTrip(v: Json, t: Text)
    requires v.Obj? && WellFormed(v)
    ensures ParseValue(Emit(v) + t) == Some(Parsed(Meaning(v), t))
    decreases v, 0, |v.members| + 2
  {
    hide ParseValue, ParseItems, ParseMembers;
    ParseFixed(t);
    if v.members == [] {
      assert Emit(v) == [0x7b, 0x7d];
    } else {
      SortedMembersRoundTrip(v, v.members, t);
      var body := EmitMembers(v, SortEntries(v.members)) + ([0x7d] + t);
      ParseBraced(body, Fields(v, v.members), t);
      assert Emit(v) + t == [0x7b] + body;
    }
  }

  lemma {:induction false} SortedMembersRoundTrip(v: Json, ms: seq<Entry<Json>>, t: Text)
    requires forall m :: m in ms ==> m.val < v && WellFormed(m.val)
    requires ms != [] && DistinctKeys(ms)
    ensures var body := EmitMembers(v, SortEntries(ms)) + ([0x7d] + t);
            body[0] == QUOTE && ParseMembers(body) == Some(Parsed(Fields(v, ms), t))
    decreases v, 0, |ms| + 1
  {
    var sorted := SortEntries(ms);
    SortAscends(ms);
    AscendingDistinct(sorted);
    FieldsOrder(v, ms, sorted);
    MembersRoundTrip(v, sorted, t);
    MembersHead(v, sorted);
  }

  lemma {:induction false} ItemsRoundTrip(v: Json, items: seq<Json>, t: Text)
    requires forall i :: 0 <= i < |items| ==> items[i] < v && WellFormed(items[i])
    requires items != []
    ensures ParseItems(EmitItems(v, items) + ([0x5d] + t)) == Some(Parsed(Meanings(v, items), t))
    decreases v, 0, |items|
  {
    hide ParseValue, ParseItems, ParseMembers, Emit, Meaning;
    var x := Emit(items[0]);
    if |items| == 1 {
      RoundTrip(items[0], [0x5d] + t);
      ParseLastItem(x, Meaning(items[0]), t);
      assert Meanings(v, items) == [Meaning(items[0])];
    } else {
      var more := EmitItems(v, items[1..]) + ([0x5d] + t);
      RoundTrip(items[0], [COMMA] + more);
      ItemsRoundTrip(v, items[1..], t);
      ParseNextItem(x, Meaning(items[0]), more, Meanings(v, items[1..]), t);
      assert EmitItems(v, items) + ([0x5d] + t) == x + ([COMMA] + more);
    }
  }

  lemma {:induction false} MembersRoundTrip(v: Json, ms: seq<Entry<Json>>, t: Text)
    requires forall m :: m in ms ==> m.val < v && WellFormed(m.val)
    requires ms != []
    ensures ParseMembers(EmitMembers(v, ms) + ([0x7d] + t)) == Some(Parsed(Fields(v, ms), t))
    decreases v, 0, |ms|
  {
    hide ParseValue, ParseItems, ParseMembers, Emit, Meaning, Quoted;
    var k, x := ms[0].key, Emit(ms[0].val);
    if |ms| == 1 {
      RoundTrip(ms[0].val, [0x7d] + t);
      ParseLastMember(k, x, Meaning(ms[0].val), t);
      Reassociate(Quoted(k), [COLON], x, [], [], [0x7d] + t);
      assert Fields(v, ms) == map[k := Meaning(ms[0].val)];
    } else {
      var more := EmitMembers(v, ms[1..]) + ([0x7d] + t);
      RoundTrip(ms[0].val, [COMMA] + more);
      MembersRoundTrip(v, ms[1..], t);
      ParseNextMember(k, x, Meaning(ms[0].val), more, Fields(v, ms[1..]), t);
      Reassociate(Quoted(k), [COLON], x, [COMMA], EmitMembers(v, ms[1..]), [0x7d] + t);
    }
  }

  // ---------------------------------------------------------------- what the text looks like

  /** A code unit stands for itself exactly if it is no control character, quote or backslash; seven have a
      short form; the others take a number. Only printable characters come out. */
  lemma EscapeExact(c: CodeUnit)
    ensures Escape(c) == [c] <==> c >= 0x20 && c != QUOTE && c != 0x5c
    ensures |Escape(c)| == 2 <==> c in {0x08, 0x09, 0x0a, 0x0c, 0x0d, 0x22, 0x5c}
    ensures |Escape(c)| in {1, 2, 6} && forall i :: 0 <= i < |Escape(c)| ==> Escape(c)[i] >= 0x20
  {
  }

  /** The texts one after another, a comma between any two. */
  function Joined(parts: seq<Text>): Text {
    if parts == [] then []
    else if |parts| == 1 then parts[0]
    else Joined(parts[..|parts| - 1]) + [0x2c] + parts[|parts| - 1]
  }

  lemma {:induction false} JoinedFront(first: Text, rest: seq<Text>)
    requires rest != []
    ensures Joined([first] + rest) == first + [0x2c] + Joined(rest)
  {
    var last := |rest| - 1;
    var all := [first] + rest;
    if last > 0 {
      JoinedFront(first, rest[..last]);
      assert all[..|all| - 1] == [first] + rest[..last];
    } else {
      assert all[..1] == [first];
    }
  }

  lemma {:induction false} ItemsJoined(v: Json, items: seq<Json>) returns (parts: seq<Text>)
    requires forall i :: 0 <= i < |items| ==> items[i] < v
    ensures |parts| == |items| && forall i :: 0 <= i < |items| ==> parts[i] == Emit(items[i])
    ensures EmitItems(v, items) == Joined(parts)
  {
    hide Emit;
    if items == [] {
      parts := [];
    } else {
      var rest := ItemsJoined(v, items[1..]);
      parts := [Emit(items[0])] + rest;
      if rest != [] { JoinedFront(Emit(items[0]), rest); }
    }
  }

  lemma {:induction false} MembersJoined(v: Json, ms: seq<Entry<Json>>) returns (parts: seq<Text>)
    requires forall m :: m in ms ==> m.val < v
    ensures |parts| == |ms| && forall i :: 0 <= i < |ms| ==> parts[i] == Quoted(ms[i].key) + [0x3a] + Emit(ms[i].val)
    ensures EmitMembers(v, ms) == Joined(parts)
  {
    hide Emit, Quoted;
    if ms == [] {
      parts := [];
    } else {
      var rest := MembersJoined(v, ms[1..]);
      parts := [EmitMember(v, ms[0])] + rest;
      if rest != [] { JoinedFront(EmitMember(v, ms[0]), rest); }
    }
  }

  /** An array prints its elements in their order. */
  lemma ArrayText(items: seq<Json>) returns (parts: seq<Text>)
    ensures |parts| == |items| && forall i :: 0 <= i < |items| ==> parts[i] == Emit(items[i])
    ensures Emit(Arr(items)) == [0x5b] + Joined(parts) + [0x5d]
  {
    parts := ItemsJoined(Arr(items), items);
  }

  /** An object prints each member once, in the order of the first different code unit of the keys. */
  lemma ObjectText(ms: seq<Entry<Json>>) returns (order: seq<Entry<Json>>, parts: seq<Text>)
    requires DistinctKeys(ms)
    ensures |order| == |ms| && forall m :: m in order <==> m in ms
    ensures forall i, j :: 0 <= i < j < |order| ==> Below(order[i].key, order[j].key)
    ensures |parts| == |order| && forall i :: 0 <= i < |order| ==> parts[i] == Quoted(order[i].key) + [0x3a] + Emit(order[i].val)
    ensures Emit(Obj(ms)) == [0x7b] + Joined(parts) + [0x7d]
  {
    order := SortEntries(ms);
    SortExact(ms);
    hide Below, Quoted;
    parts := MembersJoined(Obj(ms), order);
  }

  lemma LiteralText(s: string, t: Text)
    requires |s| == |t| && forall i :: 0 <= i < |t| ==> s[i] as int == t[i] as int
    ensures A(s) == t
  {
  }

  /** The literals of RFC 8785, section 3.2.2.1. */
  lemma ScalarTexts(n: NumText)
    ensures Emit(Null) == A("null") && Emit(Bool(true)) == A("true") && Emit(Bool(false)) == A("false") && Emit(Num(n)) == n
  {
    LiteralText("null", NULL);
    LiteralText("true", TRUE);
    LiteralText("false", FALSE);
  }

  /** The canonical text determines the value, and the value determines the canonical text. */
  lemma CanonicalExact(a: Json, b: Json)
    requires WellFormed(a) && WellFormed(b)
    ensures Emit(a) == Emit(b) <==> Meaning(a) == Meaning(b)
  {
    if Emit(a) == Emit(b) {
      RoundTrip(a, []);
      RoundTrip(b, []);
      assert Emit(a) + [] == Emit(b) + [];
    }
    if Meaning(a) == Meaning(b) {
      SameMeaning(a, b);
    }
  }

  lemma {:induction false} SameMeaning(a: Json, b: Json)
    requires WellFormed(a) && WellFormed(b)
    requires Meaning(a) == Meaning(b)
    ensures Emit(a) == Emit(b)
    decreases a, 0
  {
    match a
    case Arr(items) => SameItems(a, items, b, b.items);
    case Obj(ms) =>
      var x, y := SortEntries(ms), SortEntries(b.members);
      SortAscends(ms);
      SortAscends(b.members);
      AscendingDistinct(x);
      AscendingDistinct(y);
      FieldsOrder(a, ms, x);
      FieldsOrder(b, b.members, y);
      SameMembers(a, x, b, y);
    case _ =>
  }

  lemma {:induction false} SameItems(a: Json, xs: seq<Json>, b: Json, ys: seq<Json>)
    requires forall i :: 0 <= i < |xs| ==> xs[i] < a && WellFormed(xs[i])
    requires forall i :: 0 <= i < |ys| ==> ys[i] < b && WellFormed(ys[i])
    requires Meanings(a, xs) == Meanings(b, ys)
    ensures EmitItems(a, xs) == EmitItems(b, ys)
    decreases a, 0, |xs|
  {
    assert |xs| == |ys|;
    if xs != [] {
      assert Meanings(a, xs)[0] == Meanings(b, ys)[0];
      assert Meanings(a, xs)[1..] == Meanings(b, ys)[1..];
      SameMeaning(xs[0], ys[0]);
      SameItems(a, xs[1..], b, ys[1..]);
    }
  }

  /** The least key of an ascending list is the least key of its map. */
  lemma SameHead(a: Json, xs: seq<Entry<Json>>, b: Json, ys: seq<Entry<Json>>)
    requires forall m :: m in xs ==> m.val < a
    requires forall m :: m in ys ==> m.val < b
    requires Ascending(xs) && Ascending(ys) && xs != []
    requires Fields(a, xs) == Fields(b, ys)
    ensures ys != [] && xs[0].key == ys[0].key && Meaning(xs[0].val) == Meaning(ys[0].val)
    ensures Fields(a, xs[1..]) == Fields(b, ys[1..])
  {
    AscendingDistinct(xs);
    AscendingDistinct(ys);
    FieldsEntries(a, xs);
    FieldsEntries(b, ys);
    assert xs[0] in xs;
    var y :| y in ys && y.key == xs[0].key;
    assert ys[0] in ys;
    var x :| x in xs && x.key == ys[0].key;
    var i :| 0 <= i < |xs| && xs[i] == x;
    var j :| 0 <= j < |ys| && ys[j] == y;
    if xs[0].key != ys[0].key {
      LessAsymmetric(xs[0].key, xs[i].key);
    }
    FieldsTail(a, xs);
    FieldsTail(b, ys);
  }

  lemma FieldsTail(a: Json, xs: seq<Entry<Json>>)
    requires forall m :: m in xs ==> m.val < a
    requires DistinctKeys(xs) && xs != []
    ensures Fields(a, xs[1..]) == Fields(a, xs) - {xs[0].key}
  {
    hide Meaning;
    var k, rest := xs[0].key, Fields(a, xs[1..]);
    assert k !in rest by { FieldsEntries(a, xs[1..]); }
    assert Fields(a, xs) == rest[k := Meaning(xs[0].val)];
    assert rest[k := Meaning(xs[0].val)] - {k} == rest;
  }

  lemma {:induction false} SameMembers(a: Json, xs: seq<Entry<Json>>, b: Json, ys: seq<Entry<Json>>)
    requires forall m :: m in xs ==> m.val < a && WellFormed(m.val)
    requires forall m :: m in ys ==> m.val < b && WellFormed(m.val)
    requires Ascending(xs) && Ascending(ys)
    requires Fields(a, xs) == Fields(b, ys)
    ensures EmitMembers(a, xs) == EmitMembers(b, ys)
    decreases a, 0, |xs|
  {
    if xs == [] {
      if ys != [] { SameHead(b, ys, a, xs); }
    } else {
      SameHead(a, xs, b, ys);
      SameMeaning(xs[0].val, ys[0].val);
      SameMembers(a, xs[1..], b, ys[1..]);
      if |xs| == 1 && |ys| > 1 { SameHead(b, ys[1..], a, xs[1..]); }
      if |ys| == 1 && |xs| > 1 { SameHead(a, xs[1..], b, ys[1..]); }
    }
  }
}
