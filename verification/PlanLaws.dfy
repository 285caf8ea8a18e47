/** What an accepted plan is made of, and what running it resolves to. */
module PlanLaws {
  import opened Options
  import opened Texts
  import opened Jcs
  import opened Plan

  // ---------------------------------------------------------------- provenance

  /** A bare value, or an object that carries a `$ref` member without being a reference to a known source. */
  predicate Loose(v: Json) {
    Scalar(v) || (v.Obj? && Lookup(v.members, REF).Some? && !ValidRef(v))
  }

  predicate ValidAt(v: Json, path: seq<nat>) {
    At(v, path).Some? && ValidRef(At(v, path).value)
  }

  predicate LooseAt(v: Json, path: seq<nat>) {
    At(v, path).Some? && Loose(At(v, path).value)
  }

  /** The path passes through a valid reference. */
  ghost predicate Anchored(v: Json, path: seq<nat>) {
    exists n :: 0 <= n <= |path| && ValidAt(v, path[..n])
  }

  /** Everything loose in the tree sits inside a valid reference. */
  ghost predicate Provenanced(v: Json) {
    forall path :: LooseAt(v, path) ==> Anchored(v, path)
  }

  /** What holds along a path below a child holds along the path below the parent. */
  lemma AnchoredChild(v: Json, path: seq<nat>)
    requires path != [] && path[0] < |Children(v)| && !ValidRef(v)
    ensures Anchored(v, path) <==> Anchored(Children(v)[path[0]], path[1..])
  {
    var child := Children(v)[path[0]];
    if Anchored(v, path) {
      var n :| 0 <= n <= |path| && ValidAt(v, path[..n]);
      assert n > 0;
      assert path[..n][1..] == path[1..][..n - 1];
      assert ValidAt(child, path[1..][..n - 1]);
    }
    if Anchored(child, path[1..]) {
      var n :| 0 <= n <= |path[1..]| && ValidAt(child, path[1..][..n]);
      assert path[..n + 1][1..] == path[1..][..n];
      assert ValidAt(v, path[..n + 1]);
    }
  }

  /** A member under "$ref" makes a tree loose unless it is a valid reference. */
  predicate Marked(v: Json) {
    v.Obj? && Lookup(v.members, REF).Some?
  }

  lemma ProvenancedParts(v: Json)
    requires !Scalar(v) && !Marked(v)
    ensures Provenanced(v) <==> forall i :: 0 <= i < |Children(v)| ==> Provenanced(Children(v)[i])
  {
    assert !ValidRef(v);
    if Provenanced(v) {
      forall i | 0 <= i < |Children(v)| ensures Provenanced(Children(v)[i]) {
        forall path | LooseAt(Children(v)[i], path) ensures Anchored(Children(v)[i], path) {
          var longer := [i] + path;
          assert longer[1..] == path && LooseAt(v, longer);
          AnchoredChild(v, longer);
        }
      }
    }
    if forall i :: 0 <= i < |Children(v)| ==> Provenanced(Children(v)[i]) {
      forall path | LooseAt(v, path) ensures Anchored(v, path) {
        assert path != [];
        assert LooseAt(Children(v)[path[0]], path[1..]);
        AnchoredChild(v, path);
      }
    }
  }

  lemma ProvenancedTip(v: Json)
    requires Scalar(v) || Marked(v)
    ensures Provenanced(v) <==> ValidRef(v)
  {
    assert At(v, []) == Some(v);
    if ValidRef(v) {
      forall path ensures Anchored(v, path) { assert path[..0] == [] && ValidAt(v, path[..0]); }
    } else {
      assert LooseAt(v, []);
      var root: seq<nat> := [];
      assert forall n :: 0 <= n <= |root| ==> root[..n] == root;
      assert !Anchored(v, root);
    }
  }

  /** `assertArgValue` accepts exactly the trees in which everything loose sits inside a valid reference. */
  lemma {:induction false} ArgErrorExact(v: Json)
    ensures ArgError(v) == None <==> Provenanced(v)
    decreases v, 1
  {
    hide Provenanced, IsRefSource;
    if Scalar(v) || Marked(v) {
      ProvenancedTip(v);
    } else {
      ProvenancedParts(v);
      FirstArgErrorExact(v, Children(v));
    }
  }

  lemma {:induction false} FirstArgErrorExact(context: Json, vs: seq<Json>)
    requires forall i :: 0 <= i < |vs| ==> vs[i] < context
    ensures FirstArgError(context, vs) == None <==> forall i :: 0 <= i < |vs| ==> Provenanced(vs[i])
    decreases context, 0, |vs|
  {
    hide Provenanced;
    if vs != [] {
      ArgErrorExact(vs[0]);
      FirstArgErrorExact(context, vs[1..]);
    }
  }

  // ---------------------------------------------------------------- searching

  /** Some value in the tree, at any depth, is of this kind. */
  ghost predicate Somewhere(v: Json, p: Json -> bool) {
    exists path :: PAt(v, p, path)
  }

  predicate PAt(v: Json, p: Json -> bool, path: seq<nat>) {
    At(v, path).Some? && p(At(v, path).value)
  }

  /** Stopping at references loses nothing when only references are looked for. */
  lemma {:induction false} ContainsExact(v: Json, p: Json -> bool)
    requires forall x :: p(x) ==> IsRef(x)
    ensures Contains(v, p) <==> Somewhere(v, p)
    decreases v
  {
    hide IsRef;
    forall i | 0 <= i < |Children(v)| ensures Contains(Children(v)[i], p) <==> Somewhere(Children(v)[i], p) {
      ContainsExact(Children(v)[i], p);
    }
    if p(v) {
      assert PAt(v, p, []);
    } else if IsRef(v) {
      forall path ensures !PAt(v, p, path) { InsideRef(v, p, path); }
    } else {
      SomewhereParts(v, p);
    }
  }

  lemma SomewhereParts(v: Json, p: Json -> bool)
    requires !p(v)
    ensures Somewhere(v, p) <==> exists i :: 0 <= i < |Children(v)| && Somewhere(Children(v)[i], p)
  {
    if Somewhere(v, p) {
      var path :| PAt(v, p, path);
      assert path != [];
      assert PAt(Children(v)[path[0]], p, path[1..]);
    }
    if exists i :: 0 <= i < |Children(v)| && Somewhere(Children(v)[i], p) {
      var i :| 0 <= i < |Children(v)| && Somewhere(Children(v)[i], p);
      var path :| PAt(Children(v)[i], p, path);
      var longer := [i] + path;
      assert longer[1..] == path && PAt(v, p, longer);
    }
  }

  /** A reference holds nothing but its source text. */
  lemma InsideRef(v: Json, p: Json -> bool, path: seq<nat>)
    requires IsRef(v) && !p(v) && forall x :: p(x) ==> IsRef(x)
    ensures !PAt(v, p, path)
  {
    if path != [] && path[0] < |Children(v)| {
      var leaf := Children(v)[path[0]];
      assert leaf.Str? && !p(leaf);
      assert At(v, path) == At(leaf, path[1..]);
      if path[1..] != [] { assert At(leaf, path[1..]) == None; }
    }
  }

  // ---------------------------------------------------------------- what an accepted plan is

  ghost predicate ArgumentsProvenanced(steps: seq<Json>) {
    forall i, k :: 0 <= i < |steps| && 0 <= k < |ArgPositions(steps[i])| ==> Provenanced(ArgPositions(steps[i])[k])
  }

  ghost predicate NoConstAnywhere(steps: seq<Json>) {
    forall i :: 0 <= i < |steps| ==> !Somewhere(steps[i], ConstRef)
  }

  /** Among the arguments, credentials stand only in http headers and in the arguments of an MCP call. */
  ghost predicate CredentialsInPlace(steps: seq<Json>) {
    forall i, k :: 0 <= i < |steps| && 0 <= k < |NoCredentials(steps[i])| ==> !Somewhere(NoCredentials(steps[i])[k], CredentialRef)
  }

  ghost predicate Compiles(env: Env, r: Receipt, sig: Signature, origin: Origin, steps: seq<Json>, resolved: seq<Json>) {
    |resolved| == |steps|
    && forall i :: 0 <= i < |steps| ==> Deep(steps[i], CompileRef(env, r, sig, origin)) == Good(resolved[i])
  }

  lemma {:induction false} FirstErrorExact(vs: seq<Json>)
    ensures FirstError(vs) == None <==> forall k :: 0 <= k < |vs| ==> Provenanced(vs[k])
  {
    hide Provenanced;
    if vs != [] {
      ArgErrorExact(vs[0]);
      FirstErrorExact(vs[1..]);
    }
  }

  lemma {:induction false} ProvenanceExact(steps: seq<Json>)
    ensures ProvenanceError(steps) == None <==> ArgumentsProvenanced(steps)
  {
    hide Provenanced, ArgPositions;
    if steps != [] {
      ProvenanceExact(steps[..|steps| - 1]);
      FirstErrorExact(ArgPositions(steps[|steps| - 1]));
    }
  }

  lemma ConstExact(steps: seq<Json>)
    ensures HasConstRef(steps) <==> !NoConstAnywhere(steps)
  {
    hide Contains, Somewhere;
    forall i | 0 <= i < |steps| ensures Contains(steps[i], ConstRef) <==> Somewhere(steps[i], ConstRef) {
      ContainsExact(steps[i], ConstRef);
    }
  }

  lemma CredentialExact(steps: seq<Json>)
    ensures HasStrayCredential(steps) <==> !CredentialsInPlace(steps)
  {
    hide Contains, Somewhere, NoCredentials;
    forall i, k | 0 <= i < |steps| && 0 <= k < |NoCredentials(steps[i])|
      ensures Contains(NoCredentials(steps[i])[k], CredentialRef) <==> Somewhere(NoCredentials(steps[i])[k], CredentialRef)
    {
      ContainsExact(NoCredentials(steps[i])[k], CredentialRef);
    }
    if HasStrayCredential(steps) {
      var i :| 0 <= i < |steps| && StrayCredential(steps[i]);
    }
    if !CredentialsInPlace(steps) {
      var i, k :| 0 <= i < |steps| && 0 <= k < |NoCredentials(steps[i])| && Somewhere(NoCredentials(steps[i])[k], CredentialRef);
      assert StrayCredential(steps[i]);
    }
  }

  lemma {:induction false} ResolveExact(steps: seq<Json>, onRef: Json -> Result<Json>)
    ensures ResolveSteps(steps, onRef).Good? <==> forall i :: 0 <= i < |steps| ==> Deep(steps[i], onRef).Good?
    ensures ResolveSteps(steps, onRef).Good? ==>
              forall i :: 0 <= i < |steps| ==> Deep(steps[i], onRef) == Good(ResolveSteps(steps, onRef).value[i])
  {
    hide Deep;
    if steps != [] {
      ResolveExact(steps[..|steps| - 1], onRef);
    }
  }

  /** The compiler accepts exactly the plans for which all of this holds: in time; every step of a known
      kind with no unknown member; every bare value in an argument inside a reference to a known source; no
      constant if drafted; every reference resolvable; credentials in place; no unsafe statement; each step in
      scope; at most eight steps; and no resource mutated twice. */
  lemma AcceptedByChecks(env: Env, r: Receipt, sig: Signature, origin: Origin, steps: seq<Json>, now: int, resolved: seq<Json>)
    ensures Compile(env, r, sig, origin, steps, now) == Good(resolved) <==>
              && InWindow(r, now) && 0 < |steps| <= MAX_STEPS
              && (forall i :: 0 <= i < |steps| ==> StepClosed(steps[i]))
              && ArgumentsProvenanced(steps) && (origin == Drafted ==> NoConstAnywhere(steps))
              && Compiles(env, r, sig, origin, steps, resolved) && CredentialsInPlace(steps)
              && (forall i :: 0 <= i < |steps| ==> !UnsafeStep(env, steps[i], resolved[i]) && InScope(env, steps[i], resolved[i], r))
              && Distinct(MutatingKeys(env, steps, resolved))
  {
    ProvenanceExact(steps);
    ConstExact(steps);
    CredentialExact(steps);
    ResolveExact(steps, CompileRef(env, r, sig, origin));
    hide StepClosed, ArgumentsProvenanced, NoConstAnywhere, CredentialsInPlace, HasConstRef, HasStrayCredential,
      ProvenanceError, UnsafeStep, InScope, Distinct, MutatingKeys, Deep, ResolveSteps, CompileRef, InWindow;
    var found := ResolveSteps(steps, CompileRef(env, r, sig, origin));
    if Compiles(env, r, sig, origin, steps, resolved) {
      assert found.Good?;
      forall i | 0 <= i < |steps| ensures found.value[i] == resolved[i] {
        assert Deep(steps[i], CompileRef(env, r, sig, origin)) == Good(resolved[i]);
      }
      assert found.value == resolved;
    }
  }

  /** So an accepted UPDATE or DELETE names every column of the primary key, and a row bound that is a number
      is no larger than the observed count. */
  lemma AcceptedSqlScope(env: Env, r: Receipt, sig: Signature, origin: Origin, steps: seq<Json>, now: int, i: nat)
    requires Compile(env, r, sig, origin, steps, now).Good? && i < |steps| && Kind(steps[i]) == SQL
    ensures var where := Field(Compile(env, r, sig, origin, steps, now).value[i], "where");
            Scoped(steps[i]) ==>
              && where.Some? && where.value.Obj? && where.value.members != []
              && forall c :: c in r.pkColumns ==> Lookup(where.value.members, c).Some?
    ensures r.observedRows.Some? && RowLimit(env, steps[i]).Some? ==> RowLimit(env, steps[i]).value <= r.observedRows.value
  {
    hide StepClosed, HasConstRef, HasStrayCredential, ProvenanceError, Distinct, MutatingKeys, Deep, ResolveSteps, CompileRef,
      Field, Lookup;
    var resolved := Compile(env, r, sig, origin, steps, now).value;
    assert !UnsafeStep(env, steps[i], resolved[i]) && InScope(env, steps[i], resolved[i], r);
  }

  // ---------------------------------------------------------------- the row bound

  /** The step's row bound is a number no larger than the observed count. */
  predicate RowsBounded(env: Env, step: Json, r: Receipt) {
    RowLimit(env, step).Some? && r.observedRows.Some? && RowLimit(env, step).value <= r.observedRows.value
  }

  /** Exactly which statements of an accepted plan have their rows bounded by the observed count: those whose
      bound is a number, if a count was observed. */
  lemma RowsBoundedExactly(env: Env, r: Receipt, sig: Signature, origin: Origin, steps: seq<Json>, now: int, i: nat)
    requires Compile(env, r, sig, origin, steps, now).Good? && i < |steps| && Kind(steps[i]) == SQL
    ensures RowsBounded(env, steps[i], r) <==> RowLimit(env, steps[i]).Some? && r.observedRows.Some?
  {
    hide RowLimit, Kind, Compile;
    AcceptedSqlScope(env, r, sig, origin, steps, now, i);
  }

  function BindingRef(name: string): Json {
    Obj([Entry(REF, Str(BINDINGS + A(name)))])
  }

  lemma BindingsApart(src: Text)
    requires BINDINGS <= src
    ensures !(CONSTANT <= src) && !(CREDENTIAL <= src) && src != RUNTIME && src != BLOB && src != ABSENT
  {
    assert src[0] == BINDINGS[0] && src[1] == BINDINGS[1] && src[8] == BINDINGS[8];
    assert CONSTANT[0] != BINDINGS[0] && CREDENTIAL[0] != BINDINGS[0] && RUNTIME[1] != BINDINGS[1];
    assert BLOB[8] != BINDINGS[8] && ABSENT[8] != BINDINGS[8];
  }

  lemma BindingResolves(env: Env, name: string, r: Receipt, sig: Signature, origin: Origin)
    requires A(name) in r.bindings
    ensures var v := BindingRef(name);
            && IsRef(v) && ArgError(v) == None && !Contains(v, CredentialRef)
            && Deep(v, CompileRef(env, r, sig, origin)) == Good(r.bindings[A(name)])
  {
    var v := BindingRef(name);
    assert Source(v)[|BINDINGS|..] == A(name);
    BindingsApart(Source(v));
    assert Lookup(v.members, REF).Some?;
  }

  /** A DELETE by primary key with an empty row bound, its table and key taken from the receipt. */
  const DELETE_STEP := DeleteStep(BindingRef("table"), BindingRef("id"))

  function DeleteStep(table: Json, id: Json): Json {
    Obj([ Entry(A("kind"), Str(SQL)), Entry(A("dialect"), Str(A("sqlite"))), Entry(A("statement"), Str(A("DELETE"))),
          Entry(A("table"), table), Entry(A("where"), Where(id)), Entry(A("expect_rowcount"), Obj([])) ])
  }

  function Where(id: Json): Json {
    Obj([Entry(A("id"), id)])
  }

  function DeleteReceipt(table: Json, id: Json, observed: real): Receipt {
    Receipt(map[A("table") := table, A("id") := id], Null, Null, NoPreimage, None, [A("id")], {}, Some(observed), None)
  }

  lemma {:induction false} LookupAt(ms: seq<Entry<Json>>, i: nat)
    requires i < |ms| && forall k :: 0 <= k < i ==> ms[k].key != ms[i].key
    ensures Lookup(ms, ms[i].key) == Some(ms[i].val)
  {
    if i > 0 { LookupAt(ms[1..], i - 1); }
  }

  lemma {:induction false} LookupNone(ms: seq<Entry<Json>>, key: Text)
    requires forall k :: 0 <= k < |ms| ==> ms[k].key != key
    ensures Lookup(ms, key) == None
  {
    if ms != [] { LookupNone(ms[1..], key); }
  }

  lemma DeleteKeys(table: Json, id: Json)
    ensures var ms := DeleteStep(table, id).members;
            && (forall j, k :: 0 <= j < k < |ms| ==> ms[j].key != ms[k].key)
            && (forall k :: 0 <= k < |ms| ==> |ms[k].key| !in {3, 6})
  {
    var ms := DeleteStep(table, id).members;
    assert ms[3].key[0] != ms[4].key[0];
    assert |ms[0].key| == 4 && |ms[1].key| == 7 && |ms[2].key| == 9 && |ms[3].key| == |ms[4].key| == 5 && |ms[5].key| == 15;
  }

  lemma DeleteFields(table: Json, id: Json)
    ensures var v := DeleteStep(table, id);
            && Kind(v) == SQL && Field(v, "dialect") == Some(Str(A("sqlite"))) && Field(v, "statement") == Some(Str(A("DELETE")))
            && Field(v, "table") == Some(table) && Field(v, "where") == Some(Where(id))
            && Field(v, "set") == None && Field(v, "values") == None && Field(v, "expect_rowcount") == Some(Obj([]))
  {
    var ms := DeleteStep(table, id).members;
    DeleteKeys(table, id);
    LookupAt(ms, 0);
    LookupAt(ms, 1);
    LookupAt(ms, 2);
    LookupAt(ms, 3);
    LookupAt(ms, 4);
    LookupAt(ms, 5);
    LookupNone(ms, A("set"));
    LookupNone(ms, A("values"));
    hide Lookup, A;
  }

  lemma KindsApart()
    ensures SQL !in {HTTP, FS_RESTORE, FS_RENAME, MCP, NOOP, MANUAL}
  {
    assert SQL[0] != MCP[0];
  }

  lemma DeleteClosed()
    ensures StepClosed(DELETE_STEP) && Scoped(DELETE_STEP)
  {
    var ms := DELETE_STEP.members;
    DeleteFields(BindingRef("table"), BindingRef("id"));
    KindsApart();
    assert KeysFor(SQL) == {ms[0].key, ms[1].key, ms[2].key, ms[3].key, ms[4].key, A("set"), A("values"), ms[5].key};
    hide Lookup, A, Field;
  }

  lemma {:induction false} DeepAllGood(context: Json, vs: seq<Json>, ws: seq<Json>, f: Json -> Result<Json>)
    requires |ws| == |vs| && forall i :: 0 <= i < |vs| ==> vs[i] < context && Deep(vs[i], f) == Good(ws[i])
    ensures DeepAll(context, vs, f) == Good(ws)
  {
    hide Deep;
    if vs != [] {
      DeepAllGood(context, vs[1..], ws[1..], f);
      assert ws == [ws[0]] + ws[1..];
    }
  }

  /** Objects resolve member by member. */
  lemma DeepObject(ms: seq<Entry<Json>>, rs: seq<Entry<Json>>, f: Json -> Result<Json>)
    requires !IsRef(Obj(ms)) && |rs| == |ms|
    requires forall i :: 0 <= i < |ms| ==> rs[i].key == ms[i].key && Deep(ms[i].val, f) == Good(rs[i].val)
    ensures Deep(Obj(ms), f) == Good(Obj(rs))
  {
    var children := seq(|rs|, i requires 0 <= i < |rs| => rs[i].val);
    DeepAllGood(Obj(ms), Children(Obj(ms)), children, f);
    assert Rebuilt(Obj(ms), children) == Obj(rs);
  }

  lemma DeepScalar(v: Json, f: Json -> Result<Json>)
    requires Scalar(v)
    ensures Deep(v, f) == Good(v)
  {
  }

  lemma DeleteResolves(env: Env, table: Json, id: Json, observed: real, sig: Signature)
    ensures Deep(DELETE_STEP, CompileRef(env, DeleteReceipt(table, id, observed), sig, Registered)) == Good(DeleteStep(table, id))
  {
    var f := CompileRef(env, DeleteReceipt(table, id, observed), sig, Registered);
    var ms, rs := DELETE_STEP.members, DeleteStep(table, id).members;
    assert |A("table")| != |A("id")|;
    BindingResolves(env, "table", DeleteReceipt(table, id, observed), sig, Registered);
    BindingResolves(env, "id", DeleteReceipt(table, id, observed), sig, Registered);
    assert |REF| == 4 && |A("id")| == 2;
    hide A, Deep, CompileRef, BindingRef;
    DeepObject(Where(BindingRef("id")).members, Where(id).members, f);
    DeepObject([], [], f);
    DeepScalar(ms[0].val, f);
    DeepScalar(ms[1].val, f);
    DeepScalar(ms[2].val, f);
    DeepObject(ms, rs, f);
  }

  lemma RefsSound()
    ensures forall v :: v in [BindingRef("table"), BindingRef("id")] ==> IsRef(v) && ArgError(v) == None && !Contains(v, CredentialRef)
  {
    var r := DeleteReceipt(Null, Null, 0.0);
    var env := Env((_, _) => None, _ => None, _ => [], (_, _) => false, (_, _) => false, (_, _) => []);
    assert A("table") in r.bindings && A("id") in r.bindings;
    BindingResolves(env, "table", r, Signature(map[], Registered), Registered);
    BindingResolves(env, "id", r, Signature(map[], Registered), Registered);
  }

  lemma DeleteProvenanced()
    ensures ProvenanceError([DELETE_STEP]) == None
  {
    var step, refs := DELETE_STEP, [BindingRef("table"), BindingRef("id")];
    DeleteFields(refs[0], refs[1]);
    KindsApart();
    RefsSound();
    hide A, BindingRef, Lookup, ArgError, Field;
    assert Children(Where(refs[1])) == [refs[1]];
    assert ArgPositions(step) == refs;
    assert refs[1..] == [refs[1]];
    assert FirstError([refs[1]]) == None;
    assert FirstError(refs) == None;
    hide ArgPositions, FirstError;
    assert [step][..0] == [];
    assert ProvenanceError([]) == None;
  }

  lemma DeleteBare()
    ensures !HasStrayCredential([DELETE_STEP])
  {
    var step, refs := DELETE_STEP, [BindingRef("table"), BindingRef("id")];
    DeleteFields(refs[0], refs[1]);
    KindsApart();
    RefsSound();
    assert !IsRef(Where(refs[1])) by { assert |REF| == 4 && |A("id")| == 2; }
    hide A, BindingRef, Lookup, Field, Contains;
    assert NoCredentials(step) == [refs[0], Where(refs[1])];
    hide NoCredentials;
    assert Children(Where(refs[1])) == [refs[1]];
    NotCredential(Where(refs[1]));
  }

  lemma NotCredential(v: Json)
    requires !IsRef(v) && forall i :: 0 <= i < |Children(v)| ==> !Contains(Children(v)[i], CredentialRef)
    ensures !Contains(v, CredentialRef)
  {
  }

  lemma DeleteChecked(env: Env, table: Json, id: Json, observed: real)
    requires !env.unsafe(DELETE_STEP, DeleteStep(table, id))
    ensures !UnsafeStep(env, DELETE_STEP, DeleteStep(table, id))
    ensures InScope(env, DELETE_STEP, DeleteStep(table, id), DeleteReceipt(table, id, observed))
    ensures RowLimit(env, DELETE_STEP) == None
  {
    DeleteFields(BindingRef("table"), BindingRef("id"));
    DeleteFields(table, id);
    hide A, BindingRef;
    assert Lookup(Where(id).members, A("id")) == Some(id);
    assert Lookup([], A("max")) == None;
    hide Lookup, DeleteStep;
  }

  lemma OneStepAccepted(env: Env, r: Receipt, sig: Signature, step: Json, resolved: Json, now: int)
    requires InWindow(r, now) && StepClosed(step) && ProvenanceError([step]) == None && !HasStrayCredential([step])
    requires Deep(step, CompileRef(env, r, sig, Registered)) == Good(resolved)
    requires !UnsafeStep(env, step, resolved) && InScope(env, step, resolved, r)
    ensures Compile(env, r, sig, Registered, [step], now) == Good([resolved])
  {
    var f := CompileRef(env, r, sig, Registered);
    hide StepClosed, HasStrayCredential, UnsafeStep, InScope, Deep, CompileRef, ProvenanceError, HasConstRef;
    ResolveExact([step], f);
    assert ResolveSteps([step], f).value == [resolved];
    assert |MutatingKeys(env, [step], [resolved])| <= 1 by {
      assert MutatingKeys(env, [], []) == [];
      assert [step][..0] == [] && [resolved][..0] == [];
    }
    hide ResolveSteps, MutatingKeys;
  }

  /** An accepted plan that deletes with no bound on its rows, whatever count was observed. */
  lemma DeleteAccepted(env: Env, table: Json, id: Json, observed: real, sig: Signature, now: int)
    requires !env.unsafe(DELETE_STEP, DeleteStep(table, id))
    ensures Compile(env, DeleteReceipt(table, id, observed), sig, Registered, [DELETE_STEP], now) == Good([DeleteStep(table, id)])
    ensures !RowsBounded(env, DELETE_STEP, DeleteReceipt(table, id, observed))
  {
    DeleteClosed();
    DeleteProvenanced();
    DeleteBare();
    DeleteResolves(env, table, id, observed, sig);
    DeleteChecked(env, table, id, observed);
    hide StepClosed, HasStrayCredential, UnsafeStep, InScope, RowLimit, Deep, CompileRef, ProvenanceError, DeleteStep, BindingRef,
      A, Compile;
    OneStepAccepted(env, DeleteReceipt(table, id, observed), sig, DELETE_STEP, DeleteStep(table, id), now);
  }

  // ---------------------------------------------------------------- what runs

  /** The compiled tree with the attempt's id wherever the source tree refers to it. */
  function Stamped(source: Json, compiled: Json, attempt: Text): Json
    decreases source, 1
  {
    if IsRef(source) then if RuntimeRef(source) then Str(attempt) else compiled
    else if |Children(compiled)| == |Children(source)| then
      Rebuilt(compiled, StampedAll(source, Children(source), Children(compiled), attempt))
    else compiled
  }

  function StampedAll(context: Json, sources: seq<Json>, compiled: seq<Json>, attempt: Text): (r: seq<Json>)
    requires |sources| == |compiled| && forall i :: 0 <= i < |sources| ==> sources[i] < context
    ensures |r| == |sources|
    decreases context, 0, |sources|
  {
    if sources == [] then []
    else [Stamped(sources[0], compiled[0], attempt)] + StampedAll(context, sources[1..], compiled[1..], attempt)
  }

  /** The prefixes of the reference sources exclude one another where it matters. */
  lemma PrefixesApart(src: Text)
    ensures CONSTANT <= src ==> !(CREDENTIAL <= src) && src != RUNTIME
  {
    if CONSTANT <= src {
      assert src[1] == CONSTANT[1] && CREDENTIAL[1] != CONSTANT[1];
      assert src[0] == CONSTANT[0] && RUNTIME[0] != CONSTANT[0];
    }
  }

  /** One reference: what the compiler resolves, a run resolves alike, save for the attempt's id, and save
      for a constant under a signature that is drafted. */
  lemma RunRefSame(env: Env, v: Json, r: Receipt, sig: Signature, origin: Origin, attempt: Text)
    requires IsRef(v) && CompileRef(env, r, sig, origin)(v).Good?
    ensures RunRef(env, r, sig, attempt)(v)
            == if RuntimeRef(v) then Good(Str(attempt))
               else if sig.source == Drafted && ConstRef(v) then Rejected("VR3010")
               else CompileRef(env, r, sig, origin)(v)
  {
    PrefixesApart(Source(v));
    hide IsRef;
  }

  lemma RebuiltShape(v: Json, children: seq<Json>)
    requires |children| == |Children(v)|
    ensures Children(Rebuilt(v, children)) == children
    ensures forall others: seq<Json> :: |others| == |children| ==> Rebuilt(Rebuilt(v, children), others) == Rebuilt(v, others)
  {
  }

  /** What a run makes of a tree that compiled: it fails exactly when the signature is drafted and the tree
      holds a constant, and otherwise gives the compiled tree stamped with the attempt's id. */
  lemma {:induction false} RunDeep(env: Env, v: Json, r: Receipt, sig: Signature, origin: Origin, attempt: Text)
    requires Deep(v, CompileRef(env, r, sig, origin)).Good?
    ensures Deep(v, RunRef(env, r, sig, attempt))
            == if sig.source == Drafted && Contains(v, ConstRef) then Rejected("VR3010")
               else Good(Stamped(v, Deep(v, CompileRef(env, r, sig, origin)).value, attempt))
    decreases v, 1
  {
    hide CompileRef, RunRef, IsRef;
    if IsRef(v) {
      RunRefSame(env, v, r, sig, origin, attempt);
      ConstFirst(v);
    } else {
      RunDeepAll(env, v, Children(v), r, sig, origin, attempt);
      NotConst(v);
      var compiled := DeepAll(v, Children(v), CompileRef(env, r, sig, origin)).value;
      RebuiltShape(v, compiled);
    }
  }

  lemma ConstFirst(v: Json)
    requires IsRef(v)
    ensures Contains(v, ConstRef) == ConstRef(v)
    ensures RuntimeRef(v) ==> !ConstRef(v)
  {
    PrefixesApart(Source(v));
  }

  lemma NotConst(v: Json)
    requires !IsRef(v)
    ensures !ConstRef(v)
  {
  }

  lemma {:induction false} RunDeepAll(env: Env, context: Json, vs: seq<Json>, r: Receipt, sig: Signature, origin: Origin, attempt: Text)
    requires forall i :: 0 <= i < |vs| ==> vs[i] < context
    requires DeepAll(context, vs, CompileRef(env, r, sig, origin)).Good?
    ensures DeepAll(context, vs, RunRef(env, r, sig, attempt))
            == if sig.source == Drafted && exists i :: 0 <= i < |vs| && Contains(vs[i], ConstRef) then Rejected("VR3010")
               else Good(StampedAll(context, vs, DeepAll(context, vs, CompileRef(env, r, sig, origin)).value, attempt))
    decreases context, 0, |vs|
  {
    hide CompileRef, RunRef, Deep, Contains, Stamped;
    if vs != [] {
      RunDeep(env, vs[0], r, sig, origin, attempt);
      RunDeepAll(env, context, vs[1..], r, sig, origin, attempt);
      if exists i :: 0 <= i < |vs| && Contains(vs[i], ConstRef) {
        var i :| 0 <= i < |vs| && Contains(vs[i], ConstRef);
        assert i > 0 ==> Contains(vs[1..][i - 1], ConstRef);
      }
      if exists i :: 0 <= i < |vs[1..]| && Contains(vs[1..][i], ConstRef) {
        var i :| 0 <= i < |vs[1..]| && Contains(vs[1..][i], ConstRef);
        assert Contains(vs[i + 1], ConstRef);
      }
    }
  }

  /** What runs is what was checked. Of an accepted plan, with the same receipt and signature, each step
      resolves at run time to the tree the checks saw, the attempt's id in its places; it can fail only, and
      then does, when the signature is drafted, the plan was compiled under another origin, and the step holds
      a constant. */
  lemma RunsAsChecked(env: Env, r: Receipt, sig: Signature, origin: Origin, steps: seq<Json>, now: int, i: nat, attempt: Text)
    requires Compile(env, r, sig, origin, steps, now).Good? && i < |steps|
    ensures |Compile(env, r, sig, origin, steps, now).value| == |steps|
    ensures Deep(steps[i], RunRef(env, r, sig, attempt))
            == if sig.source == Drafted && Somewhere(steps[i], ConstRef) then Rejected("VR3010")
               else Good(Stamped(steps[i], Compile(env, r, sig, origin, steps, now).value[i], attempt))
    ensures sig.source == origin ==> Deep(steps[i], RunRef(env, r, sig, attempt)).Good?
  {
    var resolved := Compile(env, r, sig, origin, steps, now).value;
    AcceptedByChecks(env, r, sig, origin, steps, now, resolved);
    RunDeep(env, steps[i], r, sig, origin, attempt);
    ContainsExact(steps[i], ConstRef);
    hide Compile, Deep, CompileRef, RunRef, Contains, Stamped, Somewhere;
  }

  /** Without a reference to the attempt's id the two trees are the same. */
  lemma {:induction false} NothingToStamp(v: Json, onRef: Json -> Result<Json>, attempt: Text)
    requires Deep(v, onRef).Good? && !Contains(v, RuntimeRef)
    ensures Stamped(v, Deep(v, onRef).value, attempt) == Deep(v, onRef).value
    decreases v, 1
  {
    hide IsRef, RuntimeRef;
    if !IsRef(v) {
      NothingToStampAll(v, Children(v), onRef, attempt);
      RebuiltShape(v, DeepAll(v, Children(v), onRef).value);
    }
  }

  lemma {:induction false} NothingToStampAll(context: Json, vs: seq<Json>, onRef: Json -> Result<Json>, attempt: Text)
    requires forall i :: 0 <= i < |vs| ==> vs[i] < context
    requires DeepAll(context, vs, onRef).Good? && forall i :: 0 <= i < |vs| ==> !Contains(vs[i], RuntimeRef)
    ensures StampedAll(context, vs, DeepAll(context, vs, onRef).value, attempt) == DeepAll(context, vs, onRef).value
    decreases context, 0, |vs|
  {
    hide Deep, Contains, Stamped;
    if vs != [] {
      NothingToStamp(vs[0], onRef, attempt);
      NothingToStampAll(context, vs[1..], onRef, attempt);
    }
  }
}
