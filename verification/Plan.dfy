/** The plan compiler over JSON trees with references, and the resolution of the same trees at run time. */
module Plan {
  import opened Options
  import opened Texts
  import opened Jcs

  datatype Result<+T> = Good(value: T) | Rejected(code: string)

  datatype Origin = Builtin | Registered | Drafted

  datatype PreimageKind = NoPreimage | FsAbsent | OtherPreimage

  /** What the compiler reads of a receipt; `pkColumns`, `tables` and `observedRows` are what `pkColumns`,
      the table names in scope, and `observedRowCount` find in it. */
  datatype Receipt = Receipt(
    bindings: map<Text, Json>, args: Json, result: Json, preimage: PreimageKind, blobId: Option<Text>,
    pkColumns: seq<Text>, tables: set<Text>, observedRows: Option<real>, until: Option<int>)

  datatype Signature = Signature(constants: map<Text, Json>, source: Origin)

  /** The parts that are text matching: JSON paths, numbers and names read out of values, the search for SQL
      text and missing preimages, the scope of http, fs and mcp steps, and the resource a step mutates. */
  datatype Env = Env(
    jsonPath: (Json, Text) -> Option<Json>,
    toNumber: Json -> Option<real>,
    tableName: Json -> Text,
    unsafe: (Json, Json) -> bool,
    outOfScope: (Json, Json) -> bool,
    mutates: (Json, Json) -> Text)

  // ---------------------------------------------------------------- trees

  function Children(v: Json): (r: seq<Json>)
    ensures forall i :: 0 <= i < |r| ==> r[i] < v
  {
    match v
    case Arr(items) => items
    case Obj(ms) => seq(|ms|, i requires 0 <= i < |ms| => ms[i].val)
    case _ => []
  }

  /** The same array or object with other children. */
  function Rebuilt(v: Json, children: seq<Json>): Json
    requires |children| == |Children(v)|
  {
    match v
    case Arr(_) => Arr(children)
    case Obj(ms) => Obj(seq(|ms|, i requires 0 <= i < |ms| => Entry(ms[i].key, children[i])))
    case _ => v
  }

  function Lookup(ms: seq<Entry<Json>>, key: Text): Option<Json> {
    if ms == [] then None else if ms[0].key == key then Some(ms[0].val) else Lookup(ms[1..], key)
  }

  function Field(v: Json, name: string): Option<Json> {
    if v.Obj? then Lookup(v.members, A(name)) else None
  }

  /** The value at a path of child positions. */
  function At(v: Json, path: seq<nat>): Option<Json> {
    if path == [] then Some(v)
    else if path[0] < |Children(v)| then At(Children(v)[path[0]], path[1..])
    else None
  }

  predicate Scalar(v: Json) {
    !v.Arr? && !v.Obj?
  }

  // ---------------------------------------------------------------- references

  const REF: Text := A("$ref")

  predicate IsRef(v: Json) {
    v.Obj? && |v.members| == 1 && v.members[0].key == REF && v.members[0].val.Str?
  }

  function Source(v: Json): Text
    requires IsRef(v)
  {
    v.members[0].val.s
  }

  const BLOB: Text := A("receipt.preimage.blob")
  const ABSENT: Text := A("receipt.preimage.absent")
  const RUNTIME: Text := A("runtime.idempotency_key")
  const BINDINGS: Text := A("receipt.bindings.")
  const ARGS: Text := A("receipt.args.")
  const RESULT: Text := A("receipt.result.")
  const CONSTANT: Text := A("const.")
  const CREDENTIAL: Text := A("credential.")

  predicate IsRefSource(s: Text) {
    s == BLOB || s == ABSENT || s == RUNTIME
    || BINDINGS <= s || ARGS <= s || RESULT <= s || CONSTANT <= s || CREDENTIAL <= s
  }

  predicate ValidRef(v: Json) {
    IsRef(v) && IsRefSource(Source(v))
  }

  predicate ConstRef(v: Json) {
    IsRef(v) && CONSTANT <= Source(v)
  }

  predicate CredentialRef(v: Json) {
    IsRef(v) && CREDENTIAL <= Source(v)
  }

  predicate RuntimeRef(v: Json) {
    IsRef(v) && Source(v) == RUNTIME
  }

  /** `resolveRef`. */
  function ResolveRef(env: Env, v: Json, r: Receipt, sig: Signature, origin: Origin): Result<Json>
    requires IsRef(v)
  {
    var src := Source(v);
    if !IsRefSource(src) then Rejected("VR3006")
    else if CREDENTIAL <= src || src == RUNTIME then Good(v)
    else if CONSTANT <= src then
      if origin == Drafted then Rejected("VR3010")
      else if src[|CONSTANT|..] in sig.constants then Good(sig.constants[src[|CONSTANT|..]])
      else Rejected("VR3006")
    else if src == BLOB then
      if r.preimage != OtherPreimage then Rejected("VR3006") else Good(Str(if r.blobId.Some? then r.blobId.value else BLOB))
    else if src == ABSENT then Good(Str(A("absent")))
    else if BINDINGS <= src then
      if src[|BINDINGS|..] in r.bindings then Good(r.bindings[src[|BINDINGS|..]]) else Rejected("VR3006")
    else
      var found := if ARGS <= src then env.jsonPath(r.args, src[|ARGS|..]) else env.jsonPath(r.result, src[|RESULT|..]);
      if found.Some? then Good(found.value) else Rejected("VR3006")
  }

  /** A tree with each reference replaced by what `onRef` makes of it; the first refusal is the answer. */
  function Deep(v: Json, onRef: Json -> Result<Json>): Result<Json>
    decreases v, 1
  {
    if IsRef(v) then onRef(v)
    else match DeepAll(v, Children(v), onRef)
      case Rejected(code) => Rejected(code)
      case Good(children) => Good(Rebuilt(v, children))
  }

  function DeepAll(context: Json, vs: seq<Json>, onRef: Json -> Result<Json>): (r: Result<seq<Json>>)
    requires forall i :: 0 <= i < |vs| ==> vs[i] < context
    ensures r.Good? ==> |r.value| == |vs|
    decreases context, 0, |vs|
  {
    if vs == [] then Good([])
    else match Deep(vs[0], onRef)
      case Rejected(code) => Rejected(code)
      case Good(first) =>
        match DeepAll(context, vs[1..], onRef)
        case Rejected(code) => Rejected(code)
        case Good(rest) => Good([first] + rest)
  }

  /** What the compiler makes of a reference. */
  function CompileRef(env: Env, r: Receipt, sig: Signature, origin: Origin): Json -> Result<Json> {
    v => if IsRef(v) then ResolveRef(env, v, r, sig, origin) else Rejected("VR3006")
  }

  /** What `executeStep` makes of a reference. */
  function RunRef(env: Env, r: Receipt, sig: Signature, attempt: Text): Json -> Result<Json> {
    v =>
      if !IsRef(v) then Rejected("VR3006")
      else if CREDENTIAL <= Source(v) then Good(v)
      else if Source(v) == RUNTIME then Good(Str(attempt))
      else ResolveRef(env, v, r, sig, sig.source)
  }

  /** Does a value of this kind stand anywhere in the tree, references being leaves? */
  predicate Contains(v: Json, p: Json -> bool)
    decreases v
  {
    p(v) || (!IsRef(v) && exists i :: 0 <= i < |Children(v)| && Contains(Children(v)[i], p))
  }

  // ---------------------------------------------------------------- the checks

  /** `assertArgValue`: the error, if any. */
  function ArgError(v: Json): Option<string>
    decreases v, 1
  {
    if Scalar(v) then Some("VR3007")
    else if v.Obj? && Lookup(v.members, REF).Some? then
      if !IsRef(v) then Some("VR3007") else if !IsRefSource(Source(v)) then Some("VR3006") else None
    else FirstArgError(v, Children(v))
  }

  function FirstArgError(context: Json, vs: seq<Json>): Option<string>
    requires forall i :: 0 <= i < |vs| ==> vs[i] < context
    decreases context, 0, |vs|
  {
    if vs == [] then None
    else if ArgError(vs[0]).Some? then ArgError(vs[0])
    else FirstArgError(context, vs[1..])
  }

  function Kind(step: Json): Text {
    match Field(step, "kind")
    case Some(Str(s)) => s
    case _ => []
  }

  const HTTP: Text := A("http_request")
  const SQL: Text := A("sql_statement")
  const FS_RESTORE: Text := A("fs_restore")
  const FS_RENAME: Text := A("fs_rename")
  const MCP: Text := A("mcp_tool_call")
  const NOOP: Text := A("noop")
  const MANUAL: Text := A("manual")

  function One(v: Option<Json>): seq<Json> {
    match v
    case None => []
    case Some(x) => [x]
  }

  /** `Object.entries`: the members of an optional record; a non-empty string stands for its characters. */
  function Entries(v: Option<Json>): seq<Json> {
    match v
    case None => []
    case Some(Str(s)) => if s == [] then [] else [Str(s)]
    case Some(x) => Children(x)
  }

  /** `argPositions`. */
  function ArgPositions(step: Json): seq<Json> {
    var kind := Kind(step);
    if kind == HTTP then One(Field(step, "url")) + Entries(Field(step, "headers")) + One(Field(step, "body"))
    else if kind == SQL then
      One(Field(step, "table")) + Entries(Field(step, "where")) + Entries(Field(step, "set")) + Entries(Field(step, "values"))
    else if kind == FS_RESTORE then One(Field(step, "path")) + One(Field(step, "source"))
    else if kind == FS_RENAME then One(Field(step, "from")) + One(Field(step, "to"))
    else if kind == MCP then One(Field(step, "tool")) + One(Field(step, "args"))
    else []
  }

  /** The positions of a step where a credential may not stand. */
  function NoCredentials(step: Json): seq<Json> {
    var kind := Kind(step);
    if kind == HTTP then One(Field(step, "url")) + One(Field(step, "body"))
    else if kind == SQL then
      One(Field(step, "table")) + One(Field(step, "where")) + One(Field(step, "set")) + One(Field(step, "values"))
    else if kind == FS_RESTORE then One(Field(step, "path")) + One(Field(step, "source"))
    else if kind == FS_RENAME then One(Field(step, "from")) + One(Field(step, "to"))
    else if kind == MCP then One(Field(step, "tool"))
    else []
  }

  predicate IsText(v: Option<Json>, choices: set<Text>) {
    v.Some? && v.value.Str? && v.value.s in choices
  }

  predicate IsThing(v: Option<Json>) {
    v.Some? && (v.value.Obj? || v.value.Arr?)
  }

  function KeysFor(kind: Text): set<Text> {
    if kind == HTTP then {A("kind"), A("method"), A("url"), A("headers"), A("body"), A("expect")}
    else if kind == SQL then
      {A("kind"), A("dialect"), A("statement"), A("table"), A("where"), A("set"), A("values"), A("expect_rowcount")}
    else if kind == FS_RESTORE then {A("kind"), A("path"), A("source"), A("restore_meta")}
    else if kind == FS_RENAME then {A("kind"), A("from"), A("to")}
    else if kind == MCP then {A("kind"), A("tool"), A("args"), A("expect")}
    else if kind == NOOP then {A("kind"), A("reason")}
    else {A("kind"), A("instructions"), A("suggested_actions")}
  }

  /** `validateClosedStepSet` on one step. */
  predicate StepClosed(step: Json) {
    var kind := Kind(step);
    && step.Obj?
    && kind in {HTTP, SQL, FS_RESTORE, FS_RENAME, MCP, NOOP, MANUAL}
    && (forall i :: 0 <= i < |step.members| ==> step.members[i].key in KeysFor(kind))
    && (kind == HTTP ==>
          && IsText(Field(step, "method"), {A("DELETE"), A("POST"), A("PATCH"), A("PUT")})
          && Field(step, "url").Some? && IsThing(Field(step, "expect")))
    && (kind == SQL ==>
          && IsText(Field(step, "dialect"), {A("sqlite"), A("postgres"), A("mysql"), A("unknown")})
          && IsText(Field(step, "statement"), {A("INSERT"), A("UPDATE"), A("DELETE")})
          && Field(step, "table").Some? && IsThing(Field(step, "expect_rowcount")))
    && (kind == FS_RESTORE ==> Field(step, "path").Some? && Field(step, "source").Some?)
    && (kind == FS_RENAME ==> Field(step, "from").Some? && Field(step, "to").Some?)
    && (kind == MCP ==> Field(step, "tool").Some? && Field(step, "args").Some?)
    && (kind == NOOP ==> Field(step, "reason").Some? && Field(step, "reason").value.Str?)
    && (kind == MANUAL ==>
          && Field(step, "instructions").Some? && Field(step, "instructions").value.Str?
          && Field(step, "suggested_actions").Some? && Field(step, "suggested_actions").value.Arr?)
  }

  predicate Scoped(step: Json) {
    Kind(step) == SQL && (Field(step, "statement") == Some(Str(A("UPDATE"))) || Field(step, "statement") == Some(Str(A("DELETE"))))
  }

  /** An UPDATE or DELETE has a record of conditions with at least one member. */
  predicate BareWhere(step: Json, resolved: Json) {
    Scoped(step) && !match Field(resolved, "where")
                     case Some(Obj(ms)) => ms != []
                     case _ => false
  }

  function RowLimit(env: Env, step: Json): Option<real> {
    match Field(step, "expect_rowcount")
    case None => None
    case Some(e) => match Field(e, "max")
                    case None => None
                    case Some(n) => env.toNumber(n)
  }

  /** `col in where`, on the record of conditions. */
  predicate InWhere(resolved: Json, column: Text) {
    match Field(resolved, "where")
    case Some(Obj(ms)) => Lookup(ms, column).Some?
    case _ => false
  }

  /** `assertSqlScope`. */
  predicate SqlInScope(env: Env, step: Json, resolved: Json, r: Receipt) {
    && (r.tables != {} ==> Field(resolved, "table").Some? && env.tableName(Field(resolved, "table").value) in r.tables)
    && (Scoped(step) ==>
          forall i :: 0 <= i < |r.pkColumns| ==> InWhere(resolved, r.pkColumns[i]))
    && (r.observedRows.Some? && RowLimit(env, step).Some? ==> RowLimit(env, step).value <= r.observedRows.value)
  }

  predicate InScope(env: Env, step: Json, resolved: Json, r: Receipt) {
    var kind := Kind(step);
    if kind == SQL then SqlInScope(env, step, resolved, r)
    else if kind == NOOP || kind == MANUAL then true
    else !env.outOfScope(step, resolved)
  }

  predicate Mutating(step: Json) {
    Kind(step) != NOOP && Kind(step) != MANUAL
  }

  // ---------------------------------------------------------------- compilePlan

  const MAX_STEPS := 8

  function FirstError(vs: seq<Json>): Option<string> {
    if vs == [] then None else if ArgError(vs[0]).Some? then ArgError(vs[0]) else FirstError(vs[1..])
  }

  /** `assertProvenance`. */
  function ProvenanceError(steps: seq<Json>): Option<string> {
    if steps == [] then None
    else
      var last := |steps| - 1;
      var before := ProvenanceError(steps[..last]);
      if before.Some? then before else FirstError(ArgPositions(steps[last]))
  }

  predicate HasConstRef(steps: seq<Json>) {
    exists i :: 0 <= i < |steps| && Contains(steps[i], ConstRef)
  }

  function ResolveSteps(steps: seq<Json>, onRef: Json -> Result<Json>): (r: Result<seq<Json>>)
    ensures r.Good? ==> |r.value| == |steps|
  {
    if steps == [] then Good([])
    else match ResolveSteps(steps[..|steps| - 1], onRef)
      case Rejected(code) => Rejected(code)
      case Good(front) =>
        match Deep(steps[|steps| - 1], onRef)
        case Rejected(code) => Rejected(code)
        case Good(last) => Good(front + [last])
  }

  predicate HasStrayCredential(steps: seq<Json>) {
    exists i :: 0 <= i < |steps| && StrayCredential(steps[i])
  }

  predicate StrayCredential(step: Json) {
    exists k :: 0 <= k < |NoCredentials(step)| && Contains(NoCredentials(step)[k], CredentialRef)
  }

  predicate UnsafeStep(env: Env, step: Json, resolved: Json) {
    BareWhere(step, resolved) || env.unsafe(step, resolved)
  }

  /** `mutatingResourceKeys`. */
  function MutatingKeys(env: Env, steps: seq<Json>, resolved: seq<Json>): seq<Text>
    requires |steps| == |resolved|
  {
    if steps == [] then []
    else
      var last := |steps| - 1;
      var front := MutatingKeys(env, steps[..last], resolved[..last]);
      if Mutating(steps[last]) then front + [env.mutates(steps[last], resolved[last])] else front
  }

  predicate Distinct(keys: seq<Text>) {
    forall i, j :: 0 <= i < j < |keys| ==> keys[i] != keys[j]
  }

  predicate InWindow(r: Receipt, now: int) {
    r.until.Some? ==> r.until.value >= now
  }

  /** `compilePlan` up to the plan record it fills in: the resolved steps, or the code of the first check
      that fails. The steps come with their header templates expanded. */
  function Compile(env: Env, r: Receipt, sig: Signature, origin: Origin, steps: seq<Json>, now: int): Result<seq<Json>> {
    var resolved := ResolveSteps(steps, CompileRef(env, r, sig, origin));
    if !InWindow(r, now) then Rejected("VR5007")
    else if steps == [] || exists i :: 0 <= i < |steps| && !StepClosed(steps[i]) then Rejected("VR3005")
    else if ProvenanceError(steps).Some? then Rejected(ProvenanceError(steps).value)
    else if origin == Drafted && HasConstRef(steps) then Rejected("VR3010")
    else if resolved.Rejected? then resolved
    else if HasStrayCredential(steps) then Rejected("VR3009")
    else if exists i :: 0 <= i < |steps| && UnsafeStep(env, steps[i], resolved.value[i]) then Rejected("VR3009")
    else if exists i :: 0 <= i < |steps| && !InScope(env, steps[i], resolved.value[i], r) then Rejected("VR3008")
    else if |steps| > MAX_STEPS || !Distinct(MutatingKeys(env, steps, resolved.value)) then Rejected("VR3011")
    else resolved
  }

  /** `compilePlan`: check by check, each a loop over the steps. */
  method CompilePlan(env: Env, r: Receipt, sig: Signature, origin: Origin, steps: seq<Json>, now: int) returns (plan: Result<seq<Json>>)
    ensures plan == Compile(env, r, sig, origin, steps, now)
  {
    hide StepClosed, ArgError, ArgPositions, InScope, UnsafeStep, StrayCredential, Contains, Deep, CompileRef;
    if r.until.Some? && r.until.value < now { return Rejected("VR5007"); }
    if |steps| == 0 { return Rejected("VR3005"); }
    for i := 0 to |steps|
      invariant forall j :: 0 <= j < i ==> StepClosed(steps[j])
    {
      if !StepClosed(steps[i]) { return Rejected("VR3005"); }
    }
    var error := AssertProvenance(steps);
    if error.Some? { return Rejected(error.value); }
    var found := FindConstRef(steps);
    if origin == Drafted && found { return Rejected("VR3010"); }
    var resolved := ResolveAll(steps, CompileRef(env, r, sig, origin));
    if resolved.Rejected? { return resolved; }
    for i := 0 to |steps|
      invariant forall j :: 0 <= j < i ==> !StrayCredential(steps[j])
    {
      if StrayCredential(steps[i]) { return Rejected("VR3009"); }
    }
    plan := CheckResolved(env, r, steps, resolved.value);
  }

  /** The checks on the resolved steps. */
  method CheckResolved(env: Env, r: Receipt, steps: seq<Json>, resolved: seq<Json>) returns (plan: Result<seq<Json>>)
    requires |resolved| == |steps|
    ensures plan == if exists i :: 0 <= i < |steps| && UnsafeStep(env, steps[i], resolved[i]) then Rejected("VR3009")
                    else if exists i :: 0 <= i < |steps| && !InScope(env, steps[i], resolved[i], r) then Rejected("VR3008")
                    else if |steps| > MAX_STEPS || !Distinct(MutatingKeys(env, steps, resolved)) then Rejected("VR3011")
                    else Good(resolved)
  {
    hide InScope, UnsafeStep;
    for i := 0 to |steps|
      invariant forall j :: 0 <= j < i ==> !UnsafeStep(env, steps[j], resolved[j])
    {
      if UnsafeStep(env, steps[i], resolved[i]) { return Rejected("VR3009"); }
    }
    for i := 0 to |steps|
      invariant forall j :: 0 <= j < i ==> InScope(env, steps[j], resolved[j], r)
    {
      if !InScope(env, steps[i], resolved[i], r) { return Rejected("VR3008"); }
    }
    if |steps| > MAX_STEPS { return Rejected("VR3011"); }
    var keys := CollectKeys(env, steps, resolved);
    var seen: set<Text> := {};
    for i := 0 to |keys|
      invariant forall k :: k in seen <==> k in keys[..i]
      invariant Distinct(keys[..i])
    {
      assert keys[..i + 1] == keys[..i] + [keys[i]];
      if keys[i] in seen {
        assert keys[i] in keys[..i];
        return Rejected("VR3011");
      }
      seen := seen + {keys[i]};
    }
    assert keys[..|keys|] == keys;
    return Good(resolved);
  }

  method CollectKeys(env: Env, steps: seq<Json>, resolved: seq<Json>) returns (keys: seq<Text>)
    requires |resolved| == |steps|
    ensures keys == MutatingKeys(env, steps, resolved)
  {
    keys := [];
    for i := 0 to |steps|
      invariant keys == MutatingKeys(env, steps[..i], resolved[..i])
    {
      assert steps[..i + 1][..i] == steps[..i] && resolved[..i + 1][..i] == resolved[..i];
      if Mutating(steps[i]) { keys := keys + [env.mutates(steps[i], resolved[i])]; }
    }
    assert steps[..|steps|] == steps && resolved[..|steps|] == resolved;
  }

  method AssertProvenance(steps: seq<Json>) returns (error: Option<string>)
    ensures error == ProvenanceError(steps)
  {
    hide ArgError, ArgPositions;
    for i := 0 to |steps|
      invariant ProvenanceError(steps[..i]) == None
    {
      assert steps[..i + 1][..i] == steps[..i];
      error := FirstError(ArgPositions(steps[i]));
      if error.Some? {
        ProvenanceStays(steps, i + 1);
        return;
      }
    }
    assert steps[..|steps|] == steps;
    return None;
  }

  method FindConstRef(steps: seq<Json>) returns (found: bool)
    ensures found == HasConstRef(steps)
  {
    found := false;
    for i := 0 to |steps|
      invariant found == HasConstRef(steps[..i])
    {
      assert steps[..i + 1] == steps[..i] + [steps[i]];
      assert HasConstRef(steps[..i + 1]) <==> HasConstRef(steps[..i]) || Contains(steps[i], ConstRef) by {
        ConstSnoc(steps[..i], steps[i]);
      }
      if Contains(steps[i], ConstRef) { found := true; }
    }
    assert steps[..|steps|] == steps;
  }

  method ResolveAll(steps: seq<Json>, onRef: Json -> Result<Json>) returns (r: Result<seq<Json>>)
    ensures r == ResolveSteps(steps, onRef)
  {
    hide Deep;
    var values: seq<Json> := [];
    for i := 0 to |steps|
      invariant ResolveSteps(steps[..i], onRef) == Good(values)
    {
      assert steps[..i + 1][..i] == steps[..i];
      var one := Deep(steps[i], onRef);
      if one.Rejected? {
        ResolveStays(steps, onRef, i + 1);
        return Rejected(one.code);
      }
      values := values + [one.value];
    }
    assert steps[..|steps|] == steps;
    return Good(values);
  }

  lemma {:induction false} ProvenanceStays(steps: seq<Json>, n: nat)
    requires n <= |steps| && ProvenanceError(steps[..n]).Some?
    ensures ProvenanceError(steps) == ProvenanceError(steps[..n])
  {
    if n == |steps| {
      assert steps[..n] == steps;
    } else {
      assert steps[..|steps| - 1][..n] == steps[..n];
      ProvenanceStays(steps[..|steps| - 1], n);
    }
  }

  lemma {:induction false} ResolveStays(steps: seq<Json>, onRef: Json -> Result<Json>, n: nat)
    requires n <= |steps| && ResolveSteps(steps[..n], onRef).Rejected?
    ensures ResolveSteps(steps, onRef) == ResolveSteps(steps[..n], onRef)
  {
    if n == |steps| {
      assert steps[..n] == steps;
    } else {
      assert steps[..|steps| - 1][..n] == steps[..n];
      ResolveStays(steps[..|steps| - 1], onRef, n);
    }
  }

  lemma ConstSnoc(front: seq<Json>, step: Json)
    ensures HasConstRef(front + [step]) <==> HasConstRef(front) || Contains(step, ConstRef)
  {
    hide Contains;
    var all := front + [step];
    if HasConstRef(front) {
      var i :| 0 <= i < |front| && Contains(front[i], ConstRef);
      assert Contains(all[i], ConstRef);
    }
    if Contains(step, ConstRef) { assert Contains(all[|front|], ConstRef); }
  }
}
