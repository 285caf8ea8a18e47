/** Which plans are accepted, and with what answer the others are refused, told from the members of the steps. */
module PlanExact {
  import opened Options
  import opened Texts
  import opened Jcs
  import opened Plan
  import opened PlanLaws

  // ---------------------------------------------------------------- references

  /** A reference is an object with the one member `$ref`, a string. */
  lemma RefShape(v: Json)
    ensures IsRef(v) <==> exists s :: v == Obj([Entry(A("$ref"), Str(s))])
  {
    if IsRef(v) { assert v == Obj([Entry(A("$ref"), Str(v.members[0].val.s))]); }
  }

  function Fixed(): set<Text> {
    {A("receipt.preimage.blob"), A("receipt.preimage.absent"), A("runtime.idempotency_key")}
  }

  function Prefixes(): set<Text> {
    {A("receipt.bindings."), A("receipt.args."), A("receipt.result."), A("const."), A("credential.")}
  }

  lemma SourceShape(s: Text)
    ensures IsRefSource(s) <==> s in Fixed() || exists p :: p in Prefixes() && p <= s
  {
  }

  // ---------------------------------------------------------------- the closed step set

  predicate KindIs(step: Json, kind: string) {
    Field(step, "kind") == Some(Str(A(kind)))
  }

  predicate Names(step: Json, names: set<Text>) {
    step.Obj? && forall i :: 0 <= i < |step.members| ==> step.members[i].key in names
  }

  predicate OneOf(v: Option<Json>, choices: set<Text>) {
    exists t :: t in choices && v == Some(Str(t))
  }

  predicate Thing(v: Option<Json>) {
    v.Some? && !Scalar(v.value)
  }

  predicate IsString(v: Option<Json>) {
    v.Some? && v.value.Str?
  }

  /** One of seven kinds, each with its members: no others, and those it needs. */
  predicate Shaped(step: Json) {
    || (&& KindIs(step, "http_request")
        && Names(step, {A("kind"), A("method"), A("url"), A("headers"), A("body"), A("expect")})
        && OneOf(Field(step, "method"), {A("DELETE"), A("POST"), A("PATCH"), A("PUT")})
        && Field(step, "url") != None && Thing(Field(step, "expect")))
    || (&& KindIs(step, "sql_statement")
        && Names(step, {A("kind"), A("dialect"), A("statement"), A("table"), A("where"), A("set"), A("values"), A("expect_rowcount")})
        && OneOf(Field(step, "dialect"), {A("sqlite"), A("postgres"), A("mysql"), A("unknown")})
        && OneOf(Field(step, "statement"), {A("INSERT"), A("UPDATE"), A("DELETE")})
        && Field(step, "table") != None && Thing(Field(step, "expect_rowcount")))
    || (&& KindIs(step, "fs_restore") && Names(step, {A("kind"), A("path"), A("source"), A("restore_meta")})
        && Field(step, "path") != None && Field(step, "source") != None)
    || (&& KindIs(step, "fs_rename") && Names(step, {A("kind"), A("from"), A("to")})
        && Field(step, "from") != None && Field(step, "to") != None)
    || (&& KindIs(step, "mcp_tool_call") && Names(step, {A("kind"), A("tool"), A("args"), A("expect")})
        && Field(step, "tool") != None && Field(step, "args") != None)
    || (&& KindIs(step, "noop") && Names(step, {A("kind"), A("reason")}) && IsString(Field(step, "reason")))
    || (&& KindIs(step, "manual") && Names(step, {A("kind"), A("instructions"), A("suggested_actions")})
        && IsString(Field(step, "instructions"))
        && Field(step, "suggested_actions") != None && Field(step, "suggested_actions").value.Arr?)
  }

  /** No two kinds are one text. */
  lemma KindsDiffer()
    ensures forall i, j :: 0 <= i < j < 7 ==> AllKinds()[i] != AllKinds()[j]
  {
    assert AllKinds()[1][0] != AllKinds()[4][0];
  }

  function AllKinds(): (r: seq<Text>)
    ensures |r| == 7
  {
    [A("http_request"), A("sql_statement"), A("fs_restore"), A("fs_rename"), A("mcp_tool_call"), A("noop"), A("manual")]
  }

  lemma KindKnown(step: Json)
    ensures forall i :: 0 <= i < 7 ==> (Kind(step) == AllKinds()[i] <==> Field(step, "kind") == Some(Str(AllKinds()[i])))
  {
  }

  lemma ClosedExact(step: Json)
    ensures StepClosed(step) <==> Shaped(step)
  {
    KindsDiffer();
    KindKnown(step);
    var all := AllKinds();
    assert all[0] == HTTP && all[1] == SQL && all[2] == FS_RESTORE && all[3] == FS_RENAME && all[4] == MCP
           && all[5] == NOOP && all[6] == MANUAL;
    hide A, Lookup, Field, Kind;
  }

  // ---------------------------------------------------------------- arguments

  ghost predicate Sourced(v: Option<Json>) {
    v.Some? ==> Provenanced(v.value)
  }

  /** Every member of the record; a text that stands for one must be empty. */
  ghost predicate MembersSourced(v: Option<Json>) {
    match v
    case Some(Obj(ms)) => forall i :: 0 <= i < |ms| ==> Provenanced(ms[i].val)
    case Some(Arr(items)) => forall i :: 0 <= i < |items| ==> Provenanced(items[i])
    case Some(Str(s)) => s == []
    case _ => true
  }

  /** Everything a step passes on comes from a known source. */
  ghost predicate ArgumentsSourced(step: Json) {
    && (KindIs(step, "http_request") ==>
          Sourced(Field(step, "url")) && MembersSourced(Field(step, "headers")) && Sourced(Field(step, "body")))
    && (KindIs(step, "sql_statement") ==>
          && Sourced(Field(step, "table")) && MembersSourced(Field(step, "where"))
          && MembersSourced(Field(step, "set")) && MembersSourced(Field(step, "values")))
    && (KindIs(step, "fs_restore") ==> Sourced(Field(step, "path")) && Sourced(Field(step, "source")))
    && (KindIs(step, "fs_rename") ==> Sourced(Field(step, "from")) && Sourced(Field(step, "to")))
    && (KindIs(step, "mcp_tool_call") ==> Sourced(Field(step, "tool")) && Sourced(Field(step, "args")))
  }

  ghost predicate AllProvenanced(vs: seq<Json>) {
    forall k :: 0 <= k < |vs| ==> Provenanced(vs[k])
  }

  lemma AllConcat(a: seq<Json>, b: seq<Json>)
    ensures AllProvenanced(a + b) <==> AllProvenanced(a) && AllProvenanced(b)
  {
    hide Provenanced;
    if AllProvenanced(a + b) {
      forall k | 0 <= k < |a| ensures Provenanced(a[k]) { assert (a + b)[k] == a[k]; }
      forall k | 0 <= k < |b| ensures Provenanced(b[k]) { assert (a + b)[|a| + k] == b[k]; }
    }
  }

  lemma OneSourced(v: Option<Json>)
    ensures AllProvenanced(One(v)) <==> Sourced(v)
  {
    hide Provenanced;
    if v.Some? { assert One(v)[0] == v.value; }
  }

  lemma EntriesSourced(v: Option<Json>)
    ensures AllProvenanced(Entries(v)) <==> MembersSourced(v)
  {
    match v
    case Some(Str(t)) =>
      ProvenancedTip(Str(t));
      hide Provenanced;
      if t != [] { assert Entries(v)[0] == Str(t); }
    case Some(Obj(ms)) =>
      hide Provenanced;
      assert |Entries(v)| == |ms| && forall i :: 0 <= i < |ms| ==> Entries(v)[i] == ms[i].val;
    case _ => hide Provenanced;
  }

  lemma ArgumentsExact(step: Json)
    ensures AllProvenanced(ArgPositions(step)) <==> ArgumentsSourced(step)
  {
    KindsDiffer();
    KindKnown(step);
    var all := AllKinds();
    assert all[0] == HTTP && all[1] == SQL && all[2] == FS_RESTORE && all[3] == FS_RENAME && all[4] == MCP;
    var f := (name: string) => Field(step, name);
    hide A, Lookup, Field, Kind, AllProvenanced, Sourced, MembersSourced, One, Entries, AllKinds;
    if Kind(step) == HTTP {
      OneSourced(f("url"));
      OneSourced(f("body"));
      EntriesSourced(f("headers"));
      AllConcat(One(f("url")), Entries(f("headers")));
      AllConcat(One(f("url")) + Entries(f("headers")), One(f("body")));
    } else if Kind(step) == SQL {
      OneSourced(f("table"));
      EntriesSourced(f("where"));
      EntriesSourced(f("set"));
      EntriesSourced(f("values"));
      AllConcat(One(f("table")), Entries(f("where")));
      AllConcat(One(f("table")) + Entries(f("where")), Entries(f("set")));
      AllConcat(One(f("table")) + Entries(f("where")) + Entries(f("set")), Entries(f("values")));
    } else if Kind(step) == FS_RESTORE {
      OneSourced(f("path"));
      OneSourced(f("source"));
      AllConcat(One(f("path")), One(f("source")));
    } else if Kind(step) == FS_RENAME {
      OneSourced(f("from"));
      OneSourced(f("to"));
      AllConcat(One(f("from")), One(f("to")));
    } else if Kind(step) == MCP {
      OneSourced(f("tool"));
      OneSourced(f("args"));
      AllConcat(One(f("tool")), One(f("args")));
    } else {
      assert AllProvenanced([]) by { NoneProvenanced(); }
    }
  }

  lemma NoneProvenanced()
    ensures AllProvenanced([])
  {
  }

  // ---------------------------------------------------------------- credentials

  /** No credential anywhere in the value. */
  ghost predicate Clean(v: Option<Json>) {
    v.Some? ==> !Somewhere(v.value, CredentialRef)
  }

  /** Credentials only in the headers of a request and the arguments of a tool. */
  ghost predicate CredentialsPlaced(step: Json) {
    && (KindIs(step, "http_request") ==> Clean(Field(step, "url")) && Clean(Field(step, "body")))
    && (KindIs(step, "sql_statement") ==>
          Clean(Field(step, "table")) && Clean(Field(step, "where")) && Clean(Field(step, "set")) && Clean(Field(step, "values")))
    && (KindIs(step, "fs_restore") ==> Clean(Field(step, "path")) && Clean(Field(step, "source")))
    && (KindIs(step, "fs_rename") ==> Clean(Field(step, "from")) && Clean(Field(step, "to")))
    && (KindIs(step, "mcp_tool_call") ==> Clean(Field(step, "tool")))
  }

  ghost predicate AllClean(vs: seq<Json>) {
    forall k :: 0 <= k < |vs| ==> !Somewhere(vs[k], CredentialRef)
  }

  lemma CleanConcat(a: seq<Json>, b: seq<Json>)
    ensures AllClean(a + b) <==> AllClean(a) && AllClean(b)
  {
    hide Somewhere;
    if AllClean(a + b) {
      forall k | 0 <= k < |a| ensures !Somewhere(a[k], CredentialRef) { assert (a + b)[k] == a[k]; }
      forall k | 0 <= k < |b| ensures !Somewhere(b[k], CredentialRef) { assert (a + b)[|a| + k] == b[k]; }
    }
  }

  lemma OneClean(v: Option<Json>)
    ensures AllClean(One(v)) <==> Clean(v)
  {
    hide Somewhere;
    if v.Some? { assert One(v)[0] == v.value; }
  }

  lemma PlacedExact(step: Json)
    ensures AllClean(NoCredentials(step)) <==> CredentialsPlaced(step)
  {
    KindsDiffer();
    KindKnown(step);
    var all := AllKinds();
    assert all[0] == HTTP && all[1] == SQL && all[2] == FS_RESTORE && all[3] == FS_RENAME && all[4] == MCP;
    var f := (name: string) => Field(step, name);
    hide A, Lookup, Field, Kind, AllClean, Clean, One, AllKinds;
    if Kind(step) == HTTP {
      OneClean(f("url"));
      OneClean(f("body"));
      CleanConcat(One(f("url")), One(f("body")));
    } else if Kind(step) == SQL {
      OneClean(f("table"));
      OneClean(f("where"));
      OneClean(f("set"));
      OneClean(f("values"));
      CleanConcat(One(f("table")), One(f("where")));
      CleanConcat(One(f("table")) + One(f("where")), One(f("set")));
      CleanConcat(One(f("table")) + One(f("where")) + One(f("set")), One(f("values")));
    } else if Kind(step) == FS_RESTORE {
      OneClean(f("path"));
      OneClean(f("source"));
      CleanConcat(One(f("path")), One(f("source")));
    } else if Kind(step) == FS_RENAME {
      OneClean(f("from"));
      OneClean(f("to"));
      CleanConcat(One(f("from")), One(f("to")));
    } else if Kind(step) == MCP {
      OneClean(f("tool"));
    } else {
      assert AllClean([]) by { NoneClean(); }
    }
  }

  lemma NoneClean()
    ensures AllClean([])
  {
  }

  // ---------------------------------------------------------------- safety, scope and resources

  /** A statement that changes or removes rows. */
  predicate ChangesRows(step: Json) {
    KindIs(step, "sql_statement") && OneOf(Field(step, "statement"), {A("UPDATE"), A("DELETE")})
  }

  /** The conditions are a record that has this column. */
  predicate HasCondition(resolved: Json, column: Text) {
    match Field(resolved, "where")
    case Some(Obj(ms)) => exists i :: 0 <= i < |ms| && ms[i].key == column
    case _ => false
  }

  predicate Safe(env: Env, step: Json, resolved: Json) {
    && !env.unsafe(step, resolved)
    && (ChangesRows(step) ==>
          match Field(resolved, "where")
          case Some(Obj(ms)) => |ms| > 0
          case _ => false)
  }

  /** The largest row count the step says it expects, if that is a number. */
  function Expected(env: Env, step: Json): Option<real> {
    match Field(step, "expect_rowcount")
    case Some(Obj(ms)) => (match Lookup(ms, A("max"))
                           case Some(v) => env.toNumber(v)
                           case None => None)
    case _ => None
  }

  /** The statement is about a table of the effect, names its key if it changes rows, and does not expect more
      rows than were observed. */
  predicate StatementInScope(env: Env, step: Json, resolved: Json, r: Receipt) {
    && (r.tables == {} || (Field(resolved, "table") != None && env.tableName(Field(resolved, "table").value) in r.tables))
    && (ChangesRows(step) ==> forall c :: c in r.pkColumns ==> HasCondition(resolved, c))
    && !(r.observedRows != None && Expected(env, step) != None && Expected(env, step).value > r.observedRows.value)
  }

  predicate InReach(env: Env, step: Json, resolved: Json, r: Receipt) {
    if KindIs(step, "sql_statement") then StatementInScope(env, step, resolved, r)
    else KindIs(step, "noop") || KindIs(step, "manual") || !env.outOfScope(step, resolved)
  }

  predicate Touches(step: Json) {
    !KindIs(step, "noop") && !KindIs(step, "manual")
  }

  /** No two steps touch one resource. */
  predicate Apart(env: Env, steps: seq<Json>, resolved: seq<Json>)
    requires |resolved| == |steps|
  {
    forall i, j :: 0 <= i < j < |steps| && Touches(steps[i]) && Touches(steps[j]) ==>
      env.mutates(steps[i], resolved[i]) != env.mutates(steps[j], resolved[j])
  }

  lemma {:induction false} LookupHas(ms: seq<Entry<Json>>, key: Text)
    ensures Lookup(ms, key).Some? <==> exists i :: 0 <= i < |ms| && ms[i].key == key
  {
    if ms != [] {
      LookupHas(ms[1..], key);
      if i :| 0 <= i < |ms| && ms[i].key == key { if i > 0 { assert ms[1..][i - 1].key == key; } }
      if i :| 0 <= i < |ms[1..]| && ms[1..][i].key == key { assert ms[i + 1].key == key; }
    }
  }

  lemma ChangesExact(step: Json)
    ensures Scoped(step) <==> ChangesRows(step)
  {
    KindKnown(step);
    assert AllKinds()[1] == SQL;
    hide A, Lookup, Field, Kind;
  }

  lemma SafeExact(env: Env, step: Json, resolved: Json)
    ensures !UnsafeStep(env, step, resolved) <==> Safe(env, step, resolved)
  {
    ChangesExact(step);
    hide A, Lookup, Field, Kind, Scoped, ChangesRows;
  }

  lemma ConditionExact(resolved: Json, c: Text)
    ensures HasCondition(resolved, c) <==> InWhere(resolved, c)
  {
    match Field(resolved, "where")
    case Some(Obj(ms)) => LookupHas(ms, c);
    case _ =>
  }

  lemma StatementExact(env: Env, step: Json, resolved: Json, r: Receipt)
    ensures SqlInScope(env, step, resolved, r) <==> StatementInScope(env, step, resolved, r)
  {
    ChangesExact(step);
    assert RowLimit(env, step) == Expected(env, step);
    hide A, Lookup, Field, Scoped, ChangesRows, HasCondition, InWhere, RowLimit, Expected;
    forall c: Text ensures HasCondition(resolved, c) <==> InWhere(resolved, c) {
      ConditionExact(resolved, c);
    }
    if StatementInScope(env, step, resolved, r) {
      forall i | 0 <= i < |r.pkColumns| && ChangesRows(step) ensures InWhere(resolved, r.pkColumns[i]) {
        assert HasCondition(resolved, r.pkColumns[i]);
      }
    }
  }

  lemma ScopeExact(env: Env, step: Json, resolved: Json, r: Receipt)
    ensures InScope(env, step, resolved, r) <==> InReach(env, step, resolved, r)
  {
    KindsDiffer();
    KindKnown(step);
    var all := AllKinds();
    assert all[1] == SQL && all[5] == NOOP && all[6] == MANUAL;
    StatementExact(env, step, resolved, r);
    hide A, Lookup, Field, Kind, SqlInScope, StatementInScope;
  }

  lemma TouchesExact(step: Json)
    ensures Mutating(step) <==> Touches(step)
  {
    KindKnown(step);
    var all := AllKinds();
    assert all[5] == NOOP && all[6] == MANUAL;
    hide A, Lookup, Field, Kind;
  }

  lemma {:induction false} KeysMembers(env: Env, steps: seq<Json>, resolved: seq<Json>, key: Text)
    requires |resolved| == |steps|
    ensures key in MutatingKeys(env, steps, resolved) <==>
              exists i :: 0 <= i < |steps| && Touches(steps[i]) && env.mutates(steps[i], resolved[i]) == key
  {
    hide Touches, Mutating;
    if steps != [] {
      var n := |steps| - 1;
      TouchesExact(steps[n]);
      KeysMembers(env, steps[..n], resolved[..n], key);
      if i :| 0 <= i < |steps| && Touches(steps[i]) && env.mutates(steps[i], resolved[i]) == key {
        if i < n { assert Touches(steps[..n][i]) && env.mutates(steps[..n][i], resolved[..n][i]) == key; }
      }
      if i :| 0 <= i < n && Touches(steps[..n][i]) && env.mutates(steps[..n][i], resolved[..n][i]) == key {
        assert Touches(steps[i]) && env.mutates(steps[i], resolved[i]) == key;
      }
    }
  }

  lemma DistinctSnoc(keys: seq<Text>, key: Text)
    ensures Distinct(keys + [key]) <==> Distinct(keys) && key !in keys
  {
    var all := keys + [key];
    if Distinct(all) {
      forall i, j | 0 <= i < j < |keys| ensures keys[i] != keys[j] { assert all[i] != all[j]; }
      forall i | 0 <= i < |keys| ensures keys[i] != key { assert all[i] != all[|keys|]; }
    }
  }

  lemma {:induction false} ApartExact(env: Env, steps: seq<Json>, resolved: seq<Json>)
    requires |resolved| == |steps|
    ensures Distinct(MutatingKeys(env, steps, resolved)) <==> Apart(env, steps, resolved)
  {
    hide Touches, Mutating, Distinct;
    if steps == [] {
      assert Distinct([]) by { DistinctNone(); }
    } else {
      var n := |steps| - 1;
      TouchesExact(steps[n]);
      ApartExact(env, steps[..n], resolved[..n]);
      var key := env.mutates(steps[n], resolved[n]);
      KeysMembers(env, steps[..n], resolved[..n], key);
      DistinctSnoc(MutatingKeys(env, steps[..n], resolved[..n]), key);
      ApartSnoc(env, steps, resolved, n);
    }
  }

  lemma DistinctNone()
    ensures Distinct([])
  {
  }

  lemma ApartSnoc(env: Env, steps: seq<Json>, resolved: seq<Json>, n: nat)
    requires |resolved| == |steps| == n + 1
    ensures Apart(env, steps, resolved) <==>
              && Apart(env, steps[..n], resolved[..n])
              && (Touches(steps[n]) ==> !exists i :: 0 <= i < n && Touches(steps[..n][i])
                                                     && env.mutates(steps[..n][i], resolved[..n][i]) == env.mutates(steps[n], resolved[n]))
  {
    hide Touches;
    if Apart(env, steps, resolved) {
      forall i, j | 0 <= i < j < n && Touches(steps[..n][i]) && Touches(steps[..n][j])
        ensures env.mutates(steps[..n][i], resolved[..n][i]) != env.mutates(steps[..n][j], resolved[..n][j])
      {
        assert steps[..n][i] == steps[i] && steps[..n][j] == steps[j];
      }
    }
    if Apart(env, steps[..n], resolved[..n])
       && (Touches(steps[n]) ==> !exists i :: 0 <= i < n && Touches(steps[..n][i])
                                              && env.mutates(steps[..n][i], resolved[..n][i]) == env.mutates(steps[n], resolved[n]))
    {
      forall i, j | 0 <= i < j < |steps| && Touches(steps[i]) && Touches(steps[j])
        ensures env.mutates(steps[i], resolved[i]) != env.mutates(steps[j], resolved[j])
      {
        assert steps[..n][i] == steps[i];
        if j < n { assert steps[..n][j] == steps[j]; }
      }
    }
  }

  // ---------------------------------------------------------------- the answer

  /** A node of the tree that would be refused with this code: a bare value or a malformed reference with
      VR3007, a reference to an unknown source with VR3006. */
  ghost predicate Refuses(v: Json, code: string) {
    exists path :: RefusesAt(v, code, path)
  }

  predicate RefusesAt(v: Json, code: string, path: seq<nat>) {
    match At(v, path)
    case None => false
    case Some(node) =>
      || (code == "VR3007" && (Scalar(node) || (node.Obj? && Lookup(node.members, A("$ref")).Some? && !IsRef(node))))
      || (code == "VR3006" && IsRef(node) && !IsRefSource(Source(node)))
  }

  lemma {:induction false} ArgErrorNamed(v: Json, code: string)
    requires ArgError(v) == Some(code)
    ensures Refuses(v, code)
    decreases v, 1
  {
    if Scalar(v) || (v.Obj? && Lookup(v.members, REF).Some?) {
      assert At(v, []) == Some(v);
      assert RefusesAt(v, code, []);
    } else {
      var i := FirstArgErrorNamed(v, Children(v), code);
      var path :| RefusesAt(Children(v)[i], code, path);
      var longer := [i] + path;
      assert longer[1..] == path && At(v, longer) == At(Children(v)[i], path);
      assert RefusesAt(v, code, longer);
    }
  }

  lemma {:induction false} FirstArgErrorNamed(context: Json, vs: seq<Json>, code: string) returns (i: nat)
    requires forall k :: 0 <= k < |vs| ==> vs[k] < context
    requires FirstArgError(context, vs) == Some(code)
    ensures i < |vs| && Refuses(vs[i], code)
    decreases context, 0, |vs|
  {
    hide Refuses, ArgError;
    if ArgError(vs[0]).Some? {
      ArgErrorNamed(vs[0], code);
      i := 0;
    } else {
      var k := FirstArgErrorNamed(context, vs[1..], code);
      i := k + 1;
    }
  }

  lemma {:induction false} ProvenanceNamed(steps: seq<Json>, code: string) returns (i: nat, k: nat)
    requires ProvenanceError(steps) == Some(code)
    ensures i < |steps| && k < |ArgPositions(steps[i])| && Refuses(ArgPositions(steps[i])[k], code)
  {
    hide Refuses, ArgPositions;
    var n := |steps| - 1;
    if ProvenanceError(steps[..n]).Some? {
      i, k := ProvenanceNamed(steps[..n], code);
    } else {
      i := n;
      k := FirstErrorNamed(ArgPositions(steps[n]), code);
    }
  }

  lemma {:induction false} FirstErrorNamed(vs: seq<Json>, code: string) returns (k: nat)
    requires FirstError(vs) == Some(code)
    ensures k < |vs| && Refuses(vs[k], code)
  {
    hide Refuses, ArgError;
    if ArgError(vs[0]).Some? {
      ArgErrorNamed(vs[0], code);
      k := 0;
    } else {
      var rest := FirstErrorNamed(vs[1..], code);
      k := rest + 1;
    }
  }

  /** A reference in the tree that is answered with this code. */
  ghost predicate Unresolved(v: Json, f: Json -> Result<Json>, code: string) {
    exists path :: UnresolvedAt(v, f, code, path)
  }

  predicate UnresolvedAt(v: Json, f: Json -> Result<Json>, code: string, path: seq<nat>) {
    At(v, path).Some? && IsRef(At(v, path).value) && f(At(v, path).value) == Rejected(code)
  }

  lemma {:induction false} DeepNamed(v: Json, f: Json -> Result<Json>, code: string)
    requires Deep(v, f) == Rejected(code)
    ensures Unresolved(v, f, code)
    decreases v, 1
  {
    hide IsRef;
    if IsRef(v) {
      assert UnresolvedAt(v, f, code, []);
    } else {
      var i := DeepAllNamed(v, Children(v), f, code);
      var path :| UnresolvedAt(Children(v)[i], f, code, path);
      var longer := [i] + path;
      assert longer[1..] == path && UnresolvedAt(v, f, code, longer);
    }
  }

  lemma {:induction false} DeepAllNamed(context: Json, vs: seq<Json>, f: Json -> Result<Json>, code: string) returns (i: nat)
    requires forall k :: 0 <= k < |vs| ==> vs[k] < context
    requires DeepAll(context, vs, f) == Rejected(code)
    ensures i < |vs| && Unresolved(vs[i], f, code)
    decreases context, 0, |vs|
  {
    hide Unresolved, Deep;
    if Deep(vs[0], f).Rejected? {
      DeepNamed(vs[0], f, code);
      i := 0;
    } else {
      var k := DeepAllNamed(context, vs[1..], f, code);
      i := k + 1;
    }
  }

  lemma {:induction false} ResolveNamed(steps: seq<Json>, f: Json -> Result<Json>, code: string) returns (i: nat)
    requires ResolveSteps(steps, f) == Rejected(code)
    ensures i < |steps| && Unresolved(steps[i], f, code)
  {
    hide Unresolved, Deep;
    var n := |steps| - 1;
    if ResolveSteps(steps[..n], f).Rejected? {
      i := ResolveNamed(steps[..n], f, code);
    } else {
      DeepNamed(steps[n], f, code);
      i := n;
    }
  }

  predicate InTime(r: Receipt, now: int) {
    r.until == None || now <= r.until.value
  }

  ghost predicate ConstantSomewhere(steps: seq<Json>) {
    exists i :: 0 <= i < |steps| && Somewhere(steps[i], ConstRef)
  }

  /** Exactly which answer `compilePlan` gives, by the first of these conditions that fails: in time; one step or
      more, all well shaped; all arguments sourced; no constant in a drafted plan; every reference resolved;
      credentials in their places; every statement safe; everything in scope; at most eight steps, no two of
      which touch one resource. */
  lemma CompileExact(env: Env, r: Receipt, sig: Signature, origin: Origin, steps: seq<Json>, now: int)
    ensures var (f, plan) := (CompileRef(env, r, sig, origin), Compile(env, r, sig, origin, steps, now));
            if !InTime(r, now) then plan == Rejected("VR5007")
            else if steps == [] || exists i :: 0 <= i < |steps| && !Shaped(steps[i]) then plan == Rejected("VR3005")
            else if exists i :: 0 <= i < |steps| && !ArgumentsSourced(steps[i]) then
              && (plan == Rejected("VR3006") || plan == Rejected("VR3007"))
              && exists i, k :: 0 <= i < |steps| && 0 <= k < |ArgPositions(steps[i])| && Refuses(ArgPositions(steps[i])[k], plan.code)
            else if origin == Drafted && ConstantSomewhere(steps) then plan == Rejected("VR3010")
            else if exists i :: 0 <= i < |steps| && Deep(steps[i], f).Rejected? then
              plan.Rejected? && exists i :: 0 <= i < |steps| && Unresolved(steps[i], f, plan.code)
            else var resolved := seq(|steps|, i requires 0 <= i < |steps| => Deep(steps[i], f).value);
                 if exists i :: 0 <= i < |steps| && !CredentialsPlaced(steps[i]) then plan == Rejected("VR3009")
                 else if exists i :: 0 <= i < |steps| && !Safe(env, steps[i], resolved[i]) then plan == Rejected("VR3009")
                 else if exists i :: 0 <= i < |steps| && !InReach(env, steps[i], resolved[i], r) then plan == Rejected("VR3008")
                 else if |steps| > 8 || !Apart(env, steps, resolved) then plan == Rejected("VR3011")
                 else plan == Good(resolved)
  {
    var f := CompileRef(env, r, sig, origin);
    ShapesExact(steps);
    SourcesExact(steps);
    ConstExact(steps);
    ResolveExact(steps, f);
    PlacesExact(steps);
    hide StepClosed, Shaped, ProvenanceError, ArgumentsSourced, HasConstRef, Somewhere, Deep, ResolveSteps, CompileRef, Refuses,
      HasStrayCredential, CredentialsPlaced, UnsafeStep, InScope, Safe, InReach, Distinct, MutatingKeys, Apart, Unresolved, ArgPositions;
    var found := ResolveSteps(steps, f);
    if found.Rejected? {
      var i := ResolveNamed(steps, f, found.code);
    } else {
      var resolved := seq(|steps|, i requires 0 <= i < |steps| => Deep(steps[i], f).value);
      assert found.value == resolved;
      ChecksExact(env, r, steps, resolved);
    }
  }

  lemma ShapesExact(steps: seq<Json>)
    ensures (exists i :: 0 <= i < |steps| && !StepClosed(steps[i])) <==> exists i :: 0 <= i < |steps| && !Shaped(steps[i])
  {
    hide StepClosed, Shaped;
    forall i | 0 <= i < |steps| ensures StepClosed(steps[i]) <==> Shaped(steps[i]) { ClosedExact(steps[i]); }
  }

  lemma SourcesExact(steps: seq<Json>)
    ensures var error := ProvenanceError(steps);
            && (error.Some? <==> exists i :: 0 <= i < |steps| && !ArgumentsSourced(steps[i]))
            && (error.Some? ==>
                  && (error.value == "VR3006" || error.value == "VR3007")
                  && exists i, k :: 0 <= i < |steps| && 0 <= k < |ArgPositions(steps[i])| && Refuses(ArgPositions(steps[i])[k], error.value))
  {
    ProvenanceExact(steps);
    hide ArgPositions, ArgumentsSourced, Provenanced, ProvenanceError;
    forall i | 0 <= i < |steps| ensures AllProvenanced(ArgPositions(steps[i])) <==> ArgumentsSourced(steps[i]) {
      ArgumentsExact(steps[i]);
    }
    if ProvenanceError(steps).Some? {
      var i, k := ProvenanceNamed(steps, ProvenanceError(steps).value);
      RefusesCode(ArgPositions(steps[i])[k], ProvenanceError(steps).value);
    }
    assert ArgumentsProvenanced(steps) <==> forall i :: 0 <= i < |steps| ==> AllProvenanced(ArgPositions(steps[i]));
  }

  lemma RefusesCode(v: Json, code: string)
    requires Refuses(v, code)
    ensures code == "VR3006" || code == "VR3007"
  {
  }

  lemma PlacesExact(steps: seq<Json>)
    ensures HasStrayCredential(steps) <==> exists i :: 0 <= i < |steps| && !CredentialsPlaced(steps[i])
  {
    CredentialExact(steps);
    hide NoCredentials, CredentialsPlaced, Somewhere, HasStrayCredential;
    forall i | 0 <= i < |steps| ensures AllClean(NoCredentials(steps[i])) <==> CredentialsPlaced(steps[i]) {
      PlacedExact(steps[i]);
    }
    assert CredentialsInPlace(steps) <==> forall i :: 0 <= i < |steps| ==> AllClean(NoCredentials(steps[i]));
  }

  lemma ChecksExact(env: Env, r: Receipt, steps: seq<Json>, resolved: seq<Json>)
    requires |resolved| == |steps|
    ensures (exists i :: 0 <= i < |steps| && UnsafeStep(env, steps[i], resolved[i])) <==>
              exists i :: 0 <= i < |steps| && !Safe(env, steps[i], resolved[i])
    ensures (exists i :: 0 <= i < |steps| && !InScope(env, steps[i], resolved[i], r)) <==>
              exists i :: 0 <= i < |steps| && !InReach(env, steps[i], resolved[i], r)
    ensures Distinct(MutatingKeys(env, steps, resolved)) <==> Apart(env, steps, resolved)
  {
    hide UnsafeStep, Safe, InScope, InReach, Distinct, MutatingKeys, Apart;
    ApartExact(env, steps, resolved);
    forall i | 0 <= i < |steps|
      ensures UnsafeStep(env, steps[i], resolved[i]) <==> !Safe(env, steps[i], resolved[i])
      ensures InScope(env, steps[i], resolved[i], r) <==> InReach(env, steps[i], resolved[i], r)
    {
      SafeExact(env, steps[i], resolved[i]);
      ScopeExact(env, steps[i], resolved[i], r);
    }
  }

  /** The compiler accepts exactly the plans for which all of this holds. */
  lemma AcceptedExactly(env: Env, r: Receipt, sig: Signature, origin: Origin, steps: seq<Json>, now: int, resolved: seq<Json>)
    ensures Compile(env, r, sig, origin, steps, now) == Good(resolved) <==>
              && InTime(r, now) && 0 < |steps| <= 8 && (origin == Drafted ==> !ConstantSomewhere(steps))
              && |resolved| == |steps|
              && (forall i :: 0 <= i < |steps| ==>
                    && Shaped(steps[i]) && ArgumentsSourced(steps[i]) && CredentialsPlaced(steps[i])
                    && Deep(steps[i], CompileRef(env, r, sig, origin)) == Good(resolved[i])
                    && Safe(env, steps[i], resolved[i]) && InReach(env, steps[i], resolved[i], r))
              && Apart(env, steps, resolved)
  {
    CompileExact(env, r, sig, origin, steps, now);
    hide Compile, Shaped, ArgumentsSourced, Somewhere, Deep, CompileRef, CredentialsPlaced, Safe, InReach, Apart, Refuses, Unresolved,
      ArgPositions, ConstantSomewhere;
    var f := CompileRef(env, r, sig, origin);
    if forall i :: 0 <= i < |steps| ==> Deep(steps[i], f).Good? {
      var all := seq(|steps|, i requires 0 <= i < |steps| => Deep(steps[i], f).value);
      if |resolved| == |steps| && forall i :: 0 <= i < |steps| ==> Deep(steps[i], f) == Good(resolved[i]) {
        assert resolved == all;
      }
    }
  }

  // ---------------------------------------------------------------- what references resolve to

  /** The tree `w` is `v` with every reference replaced by the value it is answered with. */
  predicate Replaced(v: Json, w: Json, f: Json -> Result<Json>)
    decreases v
  {
    if IsRef(v) then f(v) == Good(w)
    else match v
      case Arr(items) =>
        w.Arr? && |w.items| == |items| && forall i :: 0 <= i < |items| ==> Replaced(items[i], w.items[i], f)
      case Obj(ms) =>
        && w.Obj? && |w.members| == |ms|
        && forall i :: 0 <= i < |ms| ==> w.members[i].key == ms[i].key && Replaced(ms[i].val, w.members[i].val, f)
      case _ => w == v
  }

  lemma {:induction false} DeepExact(v: Json, w: Json, f: Json -> Result<Json>)
    ensures Deep(v, f) == Good(w) <==> Replaced(v, w, f)
    decreases v, 1
  {
    hide IsRef;
    if !IsRef(v) {
      match v
      case Arr(items) =>
        if w.Arr? { DeepAllExact(v, items, w.items, f); }
      case Obj(ms) =>
        var found := DeepAll(v, Children(v), f);
        if found.Good? { RebuiltShape(v, found.value); }
        if w.Obj? {
          DeepAllExact(v, Children(v), Children(w), f);
          assert |w.members| == |ms| ==>
              ((Rebuilt(v, Children(w)) == w) <==> forall i :: 0 <= i < |ms| ==> w.members[i].key == ms[i].key);
        }
      case _ =>
    }
  }

  lemma {:induction false} DeepAllExact(context: Json, vs: seq<Json>, ws: seq<Json>, f: Json -> Result<Json>)
    requires forall i :: 0 <= i < |vs| ==> vs[i] < context
    ensures DeepAll(context, vs, f) == Good(ws) <==>
              |ws| == |vs| && forall i :: 0 <= i < |vs| ==> Replaced(vs[i], ws[i], f)
    decreases context, 0, |vs|
  {
    hide Deep, Replaced;
    if vs != [] && ws != [] {
      DeepExact(vs[0], ws[0], f);
      DeepAllExact(context, vs[1..], ws[1..], f);
      assert ws == [ws[0]] + ws[1..];
    }
  }

  function Known(): (r: seq<Text>)
    ensures |r| == 8
  {
    [ A("receipt.preimage.blob"), A("receipt.preimage.absent"), A("runtime.idempotency_key"), A("receipt.bindings."),
      A("receipt.args."), A("receipt.result."), A("const."), A("credential.") ]
  }

  /** No text begins with two of the known sources. */
  lemma KnownApart(src: Text, i: nat, j: nat)
    requires i < 8 && j < 8 && i != j && Known()[i] <= src
    ensures !(Known()[j] <= src)
  {
    var known := Known();
    assert known[0][8] != known[3][8] && known[0][8] != known[4][8] && known[0][8] != known[5][8] && known[0][17] != known[1][17];
    assert known[1][8] != known[3][8] && known[1][8] != known[4][8] && known[1][8] != known[5][8];
    assert known[3][8] != known[4][8] && known[3][8] != known[5][8] && known[4][8] != known[5][8];
    assert forall k :: k in {0, 1, 3, 4, 5} ==> known[k][1] != known[2][1];
    assert forall k :: k in {0, 1, 2, 3, 4, 5} ==> known[k][0] != known[6][0] && known[k][0] != known[7][0];
    assert known[6][1] != known[7][1];
    var n := if i >= 6 && j >= 6 then 1 else if i >= 6 || j >= 6 then 0 else if i == 2 || j == 2 then 1 else if i + j == 1 then 17 else 8;
    assert known[i][n] != known[j][n];
    assert src[n] == known[i][n];
  }

  /** The answer to a reference to the given known source, `k` being the rest of it. */
  function Answer(env: Env, v: Json, r: Receipt, sig: Signature, origin: Origin, source: nat, k: Text): Result<Json>
    requires source < 8
  {
    if source == 0 then
      if r.preimage == OtherPreimage then Good(Str(if r.blobId == None then A("receipt.preimage.blob") else r.blobId.value))
      else Rejected("VR3006")
    else if source == 1 then Good(Str(A("absent")))
    else if source == 2 || source == 7 then Good(v)
    else if source == 3 then if k in r.bindings then Good(r.bindings[k]) else Rejected("VR3006")
    else if source == 6 then
      if origin == Drafted then Rejected("VR3010")
      else if k in sig.constants then Good(sig.constants[k]) else Rejected("VR3006")
    else
      var found := env.jsonPath(if source == 4 then r.args else r.result, k);
      if found == None then Rejected("VR3006") else Good(found.value)
  }

  /** What a reference is answered with while compiling, source by source. */
  lemma RefAnswer(env: Env, v: Json, r: Receipt, sig: Signature, origin: Origin, source: nat, k: Text)
    requires IsRef(v) && source < 8 && Source(v) == Known()[source] + k && (source < 3 ==> k == [])
    ensures CompileRef(env, r, sig, origin)(v) == Answer(env, v, r, sig, origin, source, k)
  {
    var src, known := Source(v), Known();
    assert known[0] == BLOB && known[1] == ABSENT && known[2] == RUNTIME && known[3] == BINDINGS && known[4] == ARGS
           && known[5] == RESULT && known[6] == CONSTANT && known[7] == CREDENTIAL;
    forall j | 0 <= j < 8 && j != source ensures !(known[j] <= src) { KnownApart(src, source, j); }
    assert src[|known[source]|..] == k;
    hide A, IsRef;
  }

  lemma UnknownAnswer(env: Env, v: Json, r: Receipt, sig: Signature, origin: Origin)
    requires IsRef(v) && !IsRefSource(Source(v))
    ensures CompileRef(env, r, sig, origin)(v) == Rejected("VR3006")
  {
  }
}
