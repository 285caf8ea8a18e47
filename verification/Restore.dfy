/** What `world_restored` says about the world. */
module Restore {
  import opened Options
  import opened Projections
  import opened Undo
  import opened UndoEngine
  import opened UndoLaws
  import opened UndoReport
  import opened World

  /** The same files with the same bytes and modes, and the same remote resources; inodes aside. */
  ghost predicate SameWorld(a: World, b: World) {
    && a.files.Keys == b.files.Keys
    && (forall p :: p in a.files ==> a.files[p].bytes == b.files[p].bytes && a.files[p].mode == b.files[p].mode)
    && a.remote == b.remote
  }

  /** The world now, when `e` is about to be undone: it landed or it did not. */
  ghost predicate Facing(u: World, w: World, e: Effect)
    requires CanLand(w, e)
  {
    SameWorld(u, Land(w, e)) || SameWorld(u, w)
  }

  /** What the step that undoes a change of a file does, and when it works in the open. */
  lemma FileStep(w: World, e: Effect, u: World, env: Env)
    requires CanLand(w, e) && !e.Create? && !e.Rename?
    ensures var (u', t) := TryStep(u, Captured(w, e), PlanFor(Captured(w, e)), env);
            var refused := e.path in w.files && e.path in u.files && u.files[e.path].ino != w.files[e.path].ino;
            && (t.Worked? ==> u' == u.(files := if e.path in w.files then u.files[e.path := w.files[e.path].(ino := env.inode)]
                                                else u.files - {e.path}))
            && (refused ==> t == Try.Failed(Some("VR5009")))
            && (!refused && env.breaks == Nowhere && env.tmp !in u.files ==> t.Worked?)
            && t != Try.Failed(Some("VR5001"))
  {
    assert Resolve(Captured(w, e), PlanFor(Captured(w, e)).path) == e.path;
  }

  lemma FileRestores(w: World, u: World, e: Effect, env: Env)
    requires CanLand(w, e) && Facing(u, w, e) && !e.Create? && !e.Rename?
    ensures var (u', t) := TryStep(u, Captured(w, e), PlanFor(Captured(w, e)), env);
            (t.Worked? ==> SameWorld(u', w)) && t != Try.Failed(Some("VR5001"))
  {
    hide TryStep, Captured, PlanFor;
    FileStep(w, e, u, env);
  }

  lemma RenameRestores(w: World, u: World, e: Effect, env: Env)
    requires CanLand(w, e) && Facing(u, w, e) && e.Rename?
    ensures var (u', t) := TryStep(u, Captured(w, e), PlanFor(Captured(w, e)), env);
            (t.Worked? ==> SameWorld(u', w)) && t != Try.Failed(Some("VR5001"))
  {
    var r := Captured(w, e);
    assert Resolve(r, PlanFor(r).from) == e.to && Resolve(r, PlanFor(r).to) == e.from;
  }

  lemma CreateRestores(w: World, u: World, e: Effect, env: Env)
    requires CanLand(w, e) && Facing(u, w, e) && e.Create?
    ensures var (u', t) := TryStep(u, Captured(w, e), PlanFor(Captured(w, e)), env);
            (t.Worked? ==> SameWorld(u', w)) && Facing(u', w, e)
  {
    assert (w.remote + {e.url}) - {e.url} == w.remote == w.remote - {e.url};
  }

  /** A step that works puts back the world before the effect, whether or not the effect had landed; a try
      that will be repeated leaves one of these two worlds behind. */
  lemma TryRestores(w: World, u: World, e: Effect, env: Env)
    requires CanLand(w, e) && Facing(u, w, e)
    ensures var (u', t) := TryStep(u, Captured(w, e), PlanFor(Captured(w, e)), env);
            (t.Worked? ==> SameWorld(u', w)) && (t == Try.Failed(Some("VR5001")) ==> Facing(u', w, e))
  {
    hide TryStep, Captured, PlanFor, Facing, SameWorld, Land;
    match e
    case Create(_) => CreateRestores(w, u, e, env);
    case Rename(_, _) => RenameRestores(w, u, e, env);
    case _ => FileRestores(w, u, e, env);
  }

  lemma {:induction false} RetryRestores(w: World, u: World, e: Effect, envs: nat -> Env, n: nat, maxRetries: nat)
    requires CanLand(w, e) && Facing(u, w, e) && n <= maxRetries
    ensures var (u', lastErr) := Retry(u, Captured(w, e), envs, n, maxRetries);
            lastErr == None ==> SameWorld(u', w)
    decreases maxRetries - n
  {
    hide TryStep, Captured, PlanFor, Facing, SameWorld, CanLand, Land;
    TryRestores(w, u, e, envs(n));
    var (u', t) := TryStep(u, Captured(w, e), PlanFor(Captured(w, e)), envs(n));
    if t == Try.Failed(Some("VR5001")) && n < maxRetries {
      RetryRestores(w, u', e, envs, n + 1, maxRetries);
    }
  }

  /** The world before each effect and after the last. An effect recorded as in doubt, or even as landed,
      may or may not have taken place. */
  ghost predicate History(ws: seq<World>, es: seq<Effect>) {
    && |ws| == |es| + 1
    && forall i :: 0 <= i < |es| ==> CanLand(ws[i], es[i]) && After(ws, i) in {ws[i], Land(ws[i], es[i])}
  }

  function After(ws: seq<World>, i: nat): World
    requires i + 1 < |ws|
  {
    ws[i + 1]
  }

  /** A run that ends well is a run of the step that undoes the effect, under some surroundings; a run that
      ends badly may do anything at all. */
  ghost predicate RunsPlan(script: string -> Script<World>, rows: seq<Row>, ws: seq<World>, es: seq<Effect>, maxRetries: nat) {
    && |rows| == |es| == |ws| - 1
    && forall i, u :: 0 <= i < |rows| && script(rows[i].id).execute(u).1.end.Done? ==>
         exists envs :: Dispatch(u, Captured(ws[i], es[i]), envs, maxRetries) == (script(rows[i].id).execute(u).0, None)
  }

  /** One visit of a pass that restores: the world goes back by one effect. */
  lemma VisitRestores(o: Opts, script: string -> Script<World>, b: Books<World>, ws: seq<World>, es: seq<Effect>,
                      maxRetries: nat, i: nat)
    requires History(ws, es) && RunsPlan(script, b.rows, ws, es, maxRetries) && maxRetries > 0
    requires i < |es| && InWork(o, b.rows[i]) && RestoredAt(o, script, b, i)
    requires SameWorld(Before(o, script, b, i).books.world, After(ws, i))
    ensures var v := Visit(o, script(b.rows[i].id), Before(o, script, b, i), b.rows[i]);
            SameWorld(v.books.world, ws[i])
  {
    hide Settle, SameWorld, CanLand, Land, Retry, Upto, Dispatches, Captured;
    var sc, u := script(b.rows[i].id), Before(o, script, b, i).books.world;
    SettleWorld(o, sc, Before(o, script, b, i).books, b.rows[i]);
    var envs :| Dispatch(u, Captured(ws[i], es[i]), envs, maxRetries) == (sc.execute(u).0, None);
    RetryRestores(ws[i], u, es[i], envs, 1, maxRetries);
  }

  lemma {:induction false} PassRestores(o: Opts, script: string -> Script<World>, b: Books<World>, ws: seq<World>,
                                        es: seq<Effect>, maxRetries: nat, n: nat)
    requires History(ws, es) && RunsPlan(script, b.rows, ws, es, maxRetries) && maxRetries > 0 && n <= |es|
    requires forall i :: 0 <= i < |es| ==> InWork(o, b.rows[i]) && RestoredAt(o, script, b, i)
    requires SameWorld(b.world, ws[|es|])
    ensures SameWorld(Upto(o, script, Begin(o, b), Reverse(b.rows), n).books.world, ws[|es| - n])
  {
    hide SameWorld, Visit, RestoredAt, InWork, History, RunsPlan;
    if n > 0 {
      Lengths(script, b.rows, ws, es, maxRetries);
      PassRestores(o, script, b, ws, es, maxRetries, n - 1);
      VisitRestores(o, script, b, ws, es, maxRetries, |es| - n);
    }
  }

  lemma Lengths(script: string -> Script<World>, rows: seq<Row>, ws: seq<World>, es: seq<Effect>, maxRetries: nat)
    requires RunsPlan(script, rows, ws, es, maxRetries)
    ensures |rows| == |es| == |ws| - 1
  {
  }

  /** If an undo of a saga whose effects are all eligible reports `world_restored`, the files and the remote
      resources are those before the first effect, also when many effects touch one path, when some had not
      taken place, and when tries failed or were repeated on the way. It needs a positive retry limit. */
  lemma RestoredIsRestored(o: Opts, script: string -> Script<World>, b: Books<World>, ws: seq<World>, es: seq<Effect>,
                           maxRetries: nat)
    requires History(ws, es) && RunsPlan(script, b.rows, ws, es, maxRetries) && SameWorld(b.world, ws[|es|])
    requires Ascending(b.rows) && forall i :: 0 <= i < |es| ==> Eligible(b.rows[i])
    requires !UndoSaga(o, script, b).1.Failure? && UndoSaga(o, script, b).1.report.worldRestored
    requires maxRetries > 0
    ensures SameWorld(UndoSaga(o, script, b).0.world, ws[0])
  {
    hide SameWorld, Visit, RestoredAt, Upto, CountOf, Eligible, AtOrAbove, History, RunsPlan;
    Lengths(script, b.rows, ws, es, maxRetries);
    RestoredMeansAll(o, script, b);
    PassRestores(o, script, b, ws, es, maxRetries, |es|);
  }

  /** With a retry limit of zero the report says `world_restored` all the same, and nothing was undone. */
  lemma NoRetriesNothingUndone(o: Opts, script: string -> Script<World>, b: Books<World>, ws: seq<World>, es: seq<Effect>)
    requires RunsPlan(script, b.rows, ws, es, 0) && Ascending(b.rows)
    requires !UndoSaga(o, script, b).1.Failure? && UndoSaga(o, script, b).1.report.worldRestored
    ensures UndoSaga(o, script, b).0.world == b.world
  {
    hide Visit, RestoredAt, Upto, CountOf, Eligible, AtOrAbove, RunsPlan;
    RestoredMeansAll(o, script, b);
    PassStands(o, script, b, ws, es, |b.rows|);
  }

  lemma VisitStands(o: Opts, script: string -> Script<World>, b: Books<World>, ws: seq<World>, es: seq<Effect>, i: nat)
    requires RunsPlan(script, b.rows, ws, es, 0) && i < |b.rows|
    requires Eligible(b.rows[i]) ==> AtOrAbove(o, b.rows[i]) && RestoredAt(o, script, b, i)
    requires Before(o, script, b, i).books.world == b.world
    ensures Visit(o, script(b.rows[i].id), Before(o, script, b, i), b.rows[i]).books.world == b.world
  {
    hide Settle, Dispatches, Eligible, AtOrAbove, Captured, Upto;
    var r, sc := Before(o, script, b, i), script(b.rows[i].id);
    SettleWorld(o, sc, r.books, b.rows[i]);
    if Eligible(b.rows[i]) {
      var envs :| Dispatch(b.world, Captured(ws[i], es[i]), envs, 0) == (sc.execute(b.world).0, None);
    }
  }

  lemma {:induction false} PassStands(o: Opts, script: string -> Script<World>, b: Books<World>, ws: seq<World>,
                                      es: seq<Effect>, n: nat)
    requires RunsPlan(script, b.rows, ws, es, 0) && n <= |b.rows|
    requires forall i :: 0 <= i < |b.rows| && Eligible(b.rows[i]) ==> AtOrAbove(o, b.rows[i]) && RestoredAt(o, script, b, i)
    ensures Upto(o, script, Begin(o, b), Reverse(b.rows), n).books.world == b.world
  {
    hide Visit, RestoredAt, Eligible, AtOrAbove, RunsPlan;
    if n > 0 {
      PassStands(o, script, b, ws, es, n - 1);
      VisitStands(o, script, b, ws, es, |b.rows| - n);
    }
  }
}
