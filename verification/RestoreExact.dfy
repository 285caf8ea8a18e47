/** When nothing goes wrong outside: exactly which sagas an undo restores. A restore puts a new file under
    the path, so a guard on the old inode, further down the pass, refuses. */
module RestoreExact {
  import opened Bytes
  import opened Options
  import opened Projections
  import opened Undo
  import opened UndoEngine
  import opened UndoLaws
  import opened UndoReport
  import opened World
  import opened Restore

  /** Every effect took place. */
  ghost predicate AllLanded(ws: seq<World>, es: seq<Effect>) {
    && |ws| == |es| + 1
    && forall i :: 0 <= i < |es| ==> CanLand(ws[i], es[i]) && After(ws, i) == Land(ws[i], es[i])
  }

  /** The file an effect works on. */
  function Subject(e: Effect): Path
    requires !e.Create?
  {
    if e.Rename? then e.from else e.path
  }

  predicate OnFile(w: World, e: Effect, ino: nat) {
    !e.Create? && Subject(e) in w.files && w.files[Subject(e)].ino == ino
  }

  /** Undoing the effect checks the inode of the file in the way. */
  predicate Guarded(e: Effect) {
    !e.Create? && !e.Unlink?
  }

  /** Undoing the effect puts a new file under the path. */
  predicate Replaces(e: Effect) {
    !e.Create? && !e.Rename?
  }

  /** Undoing some effect from index `m` up replaces the file with this inode. */
  ghost predicate ReplacedFrom(ws: seq<World>, es: seq<Effect>, m: nat, ino: nat) {
    exists k :: m <= k < |es| && k < |ws| && Replaces(es[k]) && OnFile(ws[k], es[k], ino)
  }

  ghost function Later(ws: seq<World>, es: seq<Effect>, m: nat): nat -> bool {
    (ino: nat) => ReplacedFrom(ws, es, m, ino)
  }

  ghost function KnownTo(ws: seq<World>): nat -> bool {
    (ino: nat) => Known(ws, ino)
  }

  /** Undoing effect `i` is refused: its step is guarded, and undoing a later effect on the same file will
      have replaced the file. */
  ghost predicate Refused(ws: seq<World>, es: seq<Effect>, i: nat)
    requires i < |es| && i < |ws|
  {
    RefusedNow(Later(ws, es, i + 1), ws[i], es[i])
  }

  ghost predicate Distinct(w: World) {
    forall p, q :: p in w.files && q in w.files && w.files[p].ino == w.files[q].ino ==> p == q
  }

  /** No break, an obliging server, a temporary name and an inode that the saga never used. */
  ghost predicate Calm(ws: seq<World>, env: Env) {
    && env.breaks == Nowhere && env.server == Serves && !Known(ws, env.inode)
    && forall i :: 0 <= i < |ws| ==> env.tmp !in ws[i].files
  }

  ghost predicate Known(ws: seq<World>, ino: nat) {
    exists i, p :: 0 <= i < |ws| && p in ws[i].files && ws[i].files[p].ino == ino
  }

  /** The inodes of `u` on the way back are those of `w`, but for files already replaced by new ones. */
  ghost predicate Inodes(replaced: nat -> bool, known: nat -> bool, w: World, u: World) {
    forall p :: p in u.files && p in w.files ==>
      if replaced(w.files[p].ino) then !known(u.files[p].ino) else u.files[p].ino == w.files[p].ino
  }

  ghost function ReplacedNow(replaced: nat -> bool, w: World, e: Effect): nat -> bool {
    (ino: nat) => replaced(ino) || (Replaces(e) && OnFile(w, e, ino))
  }

  ghost predicate RefusedNow(replaced: nat -> bool, w: World, e: Effect)
  {
    Guarded(e) && Subject(e) in w.files && replaced(w.files[Subject(e)].ino)
  }

  ghost predicate StepReady(replaced: nat -> bool, known: nat -> bool, w: World, e: Effect, u: World, env: Env) {
    && CanLand(w, e) && Distinct(w) && SameWorld(u, Land(w, e)) && Inodes(replaced, known, Land(w, e), u)
    && (forall p :: p in w.files ==> known(w.files[p].ino)) && !known(env.inode)
    && env.breaks == Nowhere && env.server == Serves && env.tmp !in u.files
    && (e.Create? ==> e.url != "")
  }

  lemma CalmWrite(replaced: nat -> bool, known: nat -> bool, w: World, e: Effect, u: World, env: Env)
    requires StepReady(replaced, known, w, e, u, env) && !e.Create? && !e.Rename?
    ensures var (u', t) := TryStep(u, Captured(w, e), PlanFor(Captured(w, e)), env);
            && (if RefusedNow(replaced, w, e) then t == Try.Failed(Some("VR5009")) else t.Worked?)
            && (t.Worked? ==> Inodes(ReplacedNow(replaced, w, e), known, w, u'))
  {
    hide TryStep, Captured, PlanFor;
    FileStep(w, e, u, env);
    var (u', t) := TryStep(u, Captured(w, e), PlanFor(Captured(w, e)), env);
    var now := ReplacedNow(replaced, w, e);
    forall p | t.Worked? && p in u'.files && p in w.files
      ensures if now(w.files[p].ino) then !known(u'.files[p].ino) else u'.files[p].ino == w.files[p].ino
    {
      if p != e.path {
        assert p in Land(w, e).files && Land(w, e).files[p] == w.files[p] && u'.files[p] == u.files[p];
        assert e.path in w.files ==> w.files[p].ino != w.files[e.path].ino;
        assert p in u.files;
        assert now(w.files[p].ino) == replaced(Land(w, e).files[p].ino);
        assert !replaced(Land(w, e).files[p].ino) ==> u.files[p].ino == Land(w, e).files[p].ino;
      } else {
        assert OnFile(w, e, w.files[p].ino);
        assert Replaces(e);
        assert now(w.files[p].ino);
      }
    }
  }

  lemma CalmRename(replaced: nat -> bool, known: nat -> bool, w: World, e: Effect, u: World, env: Env)
    requires StepReady(replaced, known, w, e, u, env) && e.Rename?
    ensures var (u', t) := TryStep(u, Captured(w, e), PlanFor(Captured(w, e)), env);
            && (if RefusedNow(replaced, w, e) then t == Try.Failed(Some("VR5009")) else t.Worked?)
            && (t.Worked? ==> Inodes(ReplacedNow(replaced, w, e), known, w, u'))
  {
    var r := Captured(w, e);
    assert Resolve(r, PlanFor(r).from) == e.to && Resolve(r, PlanFor(r).to) == e.from;
  }

  lemma {:induction false} StaysDistinct(ws: seq<World>, es: seq<Effect>, i: nat)
    requires AllLanded(ws, es) && Distinct(ws[0]) && i <= |es|
    ensures Distinct(ws[i])
  {
    if i > 0 {
      StaysDistinct(ws, es, i - 1);
      assert After(ws, i - 1) == ws[i];
    }
  }

  /** The state of the pass when every effect from index `m` up has been undone. */
  ghost predicate BackAt(ws: seq<World>, es: seq<Effect>, m: nat, u: World)
    requires m < |ws|
  {
    SameWorld(u, ws[m]) && Inodes(Later(ws, es, m), KnownTo(ws), ws[m], u)
  }

  lemma BackOneMore(ws: seq<World>, es: seq<Effect>, i: nat, u: World)
    requires |ws| == |es| + 1 && i < |es|
    requires Inodes(ReplacedNow(Later(ws, es, i + 1), ws[i], es[i]), KnownTo(ws), ws[i], u)
    requires SameWorld(u, ws[i])
    ensures BackAt(ws, es, i, u)
  {
    forall ino ensures ReplacedFrom(ws, es, i, ino) <==> ReplacedNow(Later(ws, es, i + 1), ws[i], es[i])(ino) {
      if ReplacedNow(Later(ws, es, i + 1), ws[i], es[i])(ino) && !ReplacedFrom(ws, es, i + 1, ino) {
        assert Replaces(es[i]) && OnFile(ws[i], es[i], ino);
      }
    }
  }

  /** One undisturbed run: it ends well exactly when its step is not refused, and then keeps the account. */
  lemma CalmStep(ws: seq<World>, es: seq<Effect>, i: nat, u: World, envs: nat -> Env, maxRetries: nat)
    requires AllLanded(ws, es) && Distinct(ws[0]) && i < |es| && maxRetries > 0 && Calm(ws, envs(1))
    requires es[i].Create? ==> es[i].url != ""
    requires BackAt(ws, es, i + 1, u)
    ensures var (u', lastErr) := Dispatch(u, Captured(ws[i], es[i]), envs, maxRetries);
            && (lastErr == None <==> !Refused(ws, es, i))
            && (lastErr == None ==> BackAt(ws, es, i, u'))
    ensures InFileScope(u, Captured(ws[i], es[i])) <==> !Refused(ws, es, i)
  {
    hide TryStep, Captured, PlanFor, SameWorld, Land, Inodes, RefusedNow, ReplacedNow, CanLand, BackAt, InFileScope;
    var w, e, env := ws[i], es[i], envs(1);
    var replaced, known := Later(ws, es, i + 1), KnownTo(ws);
    StaysDistinct(ws, es, i);
    assert After(ws, i) == ws[i + 1];
    StepIsReady(ws, es, i, u, env);
    TryRestores(w, u, e, env);
    if e.Create? {
      CalmCreate(replaced, known, w, e, u, env);
    } else if e.Rename? {
      CalmRename(replaced, known, w, e, u, env);
    } else {
      CalmWrite(replaced, known, w, e, u, env);
    }
    var (u', t) := TryStep(u, Captured(w, e), PlanFor(Captured(w, e)), env);
    SameGuard(u, w, e, env);
    assert Dispatch(u, Captured(w, e), envs, maxRetries) == (u', if t.Worked? then None else Some("VR5009"));
    if t.Worked? {
      BackOneMore(ws, es, i, u');
    }
  }

  lemma CalmCreate(replaced: nat -> bool, known: nat -> bool, w: World, e: Effect, u: World, env: Env)
    requires StepReady(replaced, known, w, e, u, env) && e.Create?
    ensures var (u', t) := TryStep(u, Captured(w, e), PlanFor(Captured(w, e)), env);
            t.Worked? && !RefusedNow(replaced, w, e) && Inodes(ReplacedNow(replaced, w, e), known, w, u')
  {
  }

  lemma StepIsReady(ws: seq<World>, es: seq<Effect>, i: nat, u: World, env: Env)
    requires AllLanded(ws, es) && i < |es| && Distinct(ws[i]) && Calm(ws, env) && BackAt(ws, es, i + 1, u)
    requires es[i].Create? ==> es[i].url != ""
    ensures StepReady(Later(ws, es, i + 1), KnownTo(ws), ws[i], es[i], u, env)
    ensures Facing(u, ws[i], es[i])
  {
    hide CanLand, Land, Inodes, Later;
    assert After(ws, i) == ws[i + 1];
    assert env.tmp !in ws[i + 1].files;
  }

  // ---------------------------------------------------------------- the whole pass

  function RunOf(d: (World, Option<string>)): (World, Exec) {
    (d.0, Exec([], if d.1 == None then Done else Broke(d.1.value, false)))
  }

  ghost predicate CalmRun(sc: Script<World>, u: World, r: Receipt, ws: seq<World>, maxRetries: nat) {
    exists envs: nat -> Env :: Calm(ws, envs(1)) && sc.execute(u) == RunOf(Dispatch(u, r, envs, maxRetries))
  }

  /** What compiling answers when the pass comes to the effect: in scope but for the identity of its file. */
  function CompiledFor(u: World, r: Receipt): Compiled {
    if InFileScope(u, r) then Plan(false, false, Full) else Rejected("VR3008")
  }

  /** Compiling refuses only a file that is not the captured one, and a run is an undisturbed run of the step
      that undoes the effect. */
  ghost predicate CalmScript(script: string -> Script<World>, rows: seq<Row>, ws: seq<World>, es: seq<Effect>, maxRetries: nat) {
    && |rows| == |es| == |ws| - 1
    && (forall i, u :: 0 <= i < |rows| ==> script(rows[i].id).compiled(u) == CompiledFor(u, Captured(ws[i], es[i])))
    && forall i, u :: 0 <= i < |rows| ==> CalmRun(script(rows[i].id), u, Captured(ws[i], es[i]), ws, maxRetries)
  }

  /** An effect as a fresh saga has it, or as an interrupted undo leaves it. */
  predicate Fresh(o: Opts, row: Row) {
    && row.status == Status.Landed && !row.t4 && AtOrAbove(o, row)
    && (row.comp == Available || row.comp == Planned || row.comp == Verified || row.comp == Executing)
  }

  ghost predicate CalmSaga(o: Opts, script: string -> Script<World>, b: Books<World>, ws: seq<World>, es: seq<Effect>,
                           maxRetries: nat) {
    && AllLanded(ws, es) && Distinct(ws[0]) && CalmScript(script, b.rows, ws, es, maxRetries) && maxRetries > 0
    && !o.dryRun && b.world == ws[|es|]
    && (forall i :: 0 <= i < |es| ==> Fresh(o, b.rows[i]) && (es[i].Create? ==> es[i].url != ""))
  }

  lemma DoneLine<W>(o: Opts, sc: Script<W>, b: Books<W>, row: Row)
    requires Dispatches(o, sc, b.world, row) && row.status == Status.Landed && sc.compiled(b.world).completeness == Full
    requires sc.execute(b.world).1.end.Done?
    ensures Settle(o, sc, b, row).move == Settled(Line(row.seqNo, row.id, WasCompensated, Some(Full), ""), Go)
  {
    hide Upsert, ApplyEvent, AppendAll, Logged;
  }

  /** A file step is refused by its guard exactly when compiling refuses it. */
  lemma SameGuard(u: World, w: World, e: Effect, env: Env)
    ensures var r := Captured(w, e);
            TryStep(u, r, PlanFor(r), env).1 == Try.Failed(Some("VR5009")) <==> !InFileScope(u, r)
  {
  }

  /** An effect that does not compile is escalated; no step of its plan runs. */
  lemma RejectedLine<W>(o: Opts, sc: Script<W>, b: Books<W>, row: Row)
    requires Fresh(o, row) && !o.dryRun && sc.compiled(b.world) == Rejected("VR3008")
    ensures Settle(o, sc, b, row).move == Settled(Plain(row, WasEscalated, "VR3008"), StopsAt(o, sc))
    ensures Settle(o, sc, b, row).books.world == b.world
  {
    hide Upsert, ApplyEvent, AppendAll, Logged;
  }

  /** The pass has restored every effect from index `m` up. */
  ghost predicate OnTrack(b: Books<World>, ws: seq<World>, es: seq<Effect>, m: nat, r: Run<World>)
    requires m < |ws|
  {
    && r.threw == None && r.halt == Go && |r.lines| + m == |es| && BackAt(ws, es, m, r.books.world)
    && (|r.lines| > 0 ==> WorldRestored(r.lines))
  }

  /** One visit, the pass having restored all above: the run ends well exactly when it is not refused. */
  lemma VisitCalm(o: Opts, script: string -> Script<World>, b: Books<World>, ws: seq<World>, es: seq<Effect>,
                  maxRetries: nat, i: nat)
    requires CalmSaga(o, script, b, ws, es, maxRetries) && i < |es|
    requires OnTrack(b, ws, es, i + 1, Before(o, script, b, i))
    ensures RestoredAt(o, script, b, i) <==> !Refused(ws, es, i)
    ensures !Refused(ws, es, i) ==>
              OnTrack(b, ws, es, i, Visit(o, script(b.rows[i].id), Before(o, script, b, i), b.rows[i]))
    ensures Refused(ws, es, i) ==>
              var r := Before(o, script, b, i);
              var v := Visit(o, script(b.rows[i].id), r, b.rows[i]);
              && v.lines == r.lines + [Plain(b.rows[i], WasEscalated, "VR3008")] && v.books.world == r.books.world
  {
    hide Settle, Upto, Dispatch, Captured, BackAt, Refused, Calm, AllLanded, Distinct, InFileScope;
    var r, sc, row := Before(o, script, b, i), script(b.rows[i].id), b.rows[i];
    var u := r.books.world;
    assert CalmRun(sc, u, Captured(ws[i], es[i]), ws, maxRetries);
    var envs: nat -> Env :| Calm(ws, envs(1)) && sc.execute(u) == RunOf(Dispatch(u, Captured(ws[i], es[i]), envs, maxRetries));
    CalmStep(ws, es, i, u, envs, maxRetries);
    assert sc.compiled(u) == CompiledFor(u, Captured(ws[i], es[i]));
    if Refused(ws, es, i) {
      RejectedLine(o, sc, r.books, row);
    } else {
      assert Dispatches(o, sc, u, row);
      DoneLine(o, sc, r.books, row);
      SettleWorld(o, sc, r.books, row);
    }
  }

  lemma {:induction false} CalmPass(o: Opts, script: string -> Script<World>, b: Books<World>, ws: seq<World>,
                                    es: seq<Effect>, maxRetries: nat, n: nat)
    requires CalmSaga(o, script, b, ws, es, maxRetries) && n <= |es| == |b.rows|
    requires forall i :: |es| - n <= i < |es| ==> !Refused(ws, es, i)
    ensures OnTrack(b, ws, es, |es| - n, Upto(o, script, Begin(o, b), Reverse(b.rows), n))
  {
    hide Visit, OnTrack, Refused, CalmScript, Fresh, AllLanded;
    if n == 0 {
      BackAtEnd(o, script, b, ws, es, maxRetries);
    } else {
      CalmPass(o, script, b, ws, es, maxRetries, n - 1);
      VisitCalm(o, script, b, ws, es, maxRetries, |es| - n);
    }
  }

  lemma BackAtEnd(o: Opts, script: string -> Script<World>, b: Books<World>, ws: seq<World>, es: seq<Effect>, maxRetries: nat)
    requires CalmSaga(o, script, b, ws, es, maxRetries)
    ensures OnTrack(b, ws, es, |es|, Upto(o, script, Begin(o, b), Reverse(b.rows), 0))
  {
  }

  lemma {:induction false} NoneRefused(o: Opts, script: string -> Script<World>, b: Books<World>, ws: seq<World>,
                                       es: seq<Effect>, maxRetries: nat, n: nat)
    requires CalmSaga(o, script, b, ws, es, maxRetries) && n <= |es| == |b.rows|
    requires forall i :: 0 <= i < |es| ==> RestoredAt(o, script, b, i)
    ensures forall i :: |es| - n <= i < |es| ==> !Refused(ws, es, i)
  {
    hide Upto, OnTrack, Refused, CalmSaga, RestoredAt, Visit;
    if n > 0 {
      NoneRefused(o, script, b, ws, es, maxRetries, n - 1);
      CalmPass(o, script, b, ws, es, maxRetries, n - 1);
      VisitCalm(o, script, b, ws, es, maxRetries, |es| - n);
    }
  }

  /** With nothing going wrong, an undo reports `world_restored` exactly when there is an effect and no
      guarded effect is followed by one whose undoing replaces the same file. */
  lemma RestoredExactly(o: Opts, script: string -> Script<World>, b: Books<World>, ws: seq<World>, es: seq<Effect>,
                        maxRetries: nat)
    requires CalmSaga(o, script, b, ws, es, maxRetries) && Ascending(b.rows)
    ensures var result := UndoSaga(o, script, b).1;
            !result.Failure? && result.report.worldRestored <==>
              |es| > 0 && forall i :: 0 <= i < |es| ==> !Refused(ws, es, i)
  {
    hide UndoSaga, Refused, CalmSaga, Ascending;
    var result := UndoSaga(o, script, b).1;
    Sizes(o, script, b, ws, es, maxRetries);
    if !result.Failure? && result.report.worldRestored {
      AllRestored(o, script, b, ws, es, maxRetries);
      NoneRefused(o, script, b, ws, es, maxRetries, |es|);
    }
    if |es| > 0 && forall i :: 0 <= i < |es| ==> !Refused(ws, es, i) {
      CalmReport(o, script, b, ws, es, maxRetries);
    }
  }

  lemma Sizes(o: Opts, script: string -> Script<World>, b: Books<World>, ws: seq<World>, es: seq<Effect>, maxRetries: nat)
    requires CalmSaga(o, script, b, ws, es, maxRetries)
    ensures |b.rows| == |es| == |ws| - 1 && forall i :: 0 <= i < |es| ==> Eligible(b.rows[i])
  {
  }

  lemma AllRestored(o: Opts, script: string -> Script<World>, b: Books<World>, ws: seq<World>, es: seq<Effect>, maxRetries: nat)
    requires CalmSaga(o, script, b, ws, es, maxRetries) && Ascending(b.rows)
    requires !UndoSaga(o, script, b).1.Failure? && UndoSaga(o, script, b).1.report.worldRestored
    ensures |b.rows| == |es| > 0 && forall i :: 0 <= i < |es| ==> RestoredAt(o, script, b, i)
  {
    Sizes(o, script, b, ws, es, maxRetries);
    hide UndoSaga, CalmSaga, RestoredAt, Ascending, Eligible;
    RestoredMeansAll(o, script, b);
  }

  lemma CalmReport(o: Opts, script: string -> Script<World>, b: Books<World>, ws: seq<World>, es: seq<Effect>, maxRetries: nat)
    requires CalmSaga(o, script, b, ws, es, maxRetries) && |b.rows| == |es| > 0
    requires |ws| == |es| + 1 && forall i :: 0 <= i < |es| ==> !Refused(ws, es, i)
    ensures !UndoSaga(o, script, b).1.Failure? && UndoSaga(o, script, b).1.report.worldRestored
  {
    CalmPass(o, script, b, ws, es, maxRetries, |es|);
    hide Upto, BackAt, Refused, CalmSaga, CountOf, FinalStatus, WorldRestored;
  }

  /** So two writes to one existing file are never both restored, and the report says so. */
  lemma TwoWritesRefused(w: World, path: Path, first: seq<Byte>, second: seq<Byte>)
    requires path in w.files
    ensures var e, f := Write(path, first, 0, 0), Write(path, second, 0, 0);
            var w1 := Land(w, e);
            AllLanded([w, w1, Land(w1, f)], [e, f]) && Refused([w, w1, Land(w1, f)], [e, f], 0)
  {
    var e, f := Write(path, first, 0, 0), Write(path, second, 0, 0);
    var w1 := Land(w, e);
    var ws, es := [w, w1, Land(w1, f)], [e, f];
    forall i | 0 <= i < 2 ensures CanLand(ws[i], es[i]) && After(ws, i) == Land(ws[i], es[i]) {
    }
    assert Replaces(es[1]) && OnFile(ws[1], es[1], w.files[path].ino);
  }

  /** The first refused effect the pass comes to is escalated with VR3008, when compiling finds the file to be
      another one; the effects above it are restored, and nothing else changes. */
  lemma FirstRefused(o: Opts, script: string -> Script<World>, b: Books<World>, ws: seq<World>, es: seq<Effect>,
                     maxRetries: nat, i: nat)
    requires CalmSaga(o, script, b, ws, es, maxRetries) && i < |es| == |b.rows| == |ws| - 1
    requires Refused(ws, es, i) && forall k :: i < k < |es| ==> !Refused(ws, es, k)
    ensures var r := Upto(o, script, Begin(o, b), Reverse(b.rows), |es| - i);
            && |r.lines| == |es| - i && r.lines[|r.lines| - 1] == Plain(b.rows[i], WasEscalated, "VR3008")
            && BackAt(ws, es, i + 1, r.books.world)
  {
    hide BackAt, Refused, CalmSaga, RestoredAt, Visit;
    CalmPass(o, script, b, ws, es, maxRetries, |es| - 1 - i);
    VisitCalm(o, script, b, ws, es, maxRetries, i);
  }

  /** The surroundings of every run in the example below. */
  function Quiet(n: nat): Env {
    Env(2, "t", Nowhere, Serves)
  }

  /** An effect compiled and run with nothing going wrong. */
  function Undisturbed(r: Receipt): Script<World> {
    Script(true, _ => DidLand, u => CompiledFor(u, r), u => RunOf(Dispatch(u, r, Quiet, 1)))
  }

  lemma UndisturbedRuns(r: Receipt, ws: seq<World>)
    requires Calm(ws, Quiet(1))
    ensures forall u :: Undisturbed(r).compiled(u) == CompiledFor(u, r) && CalmRun(Undisturbed(r), u, r, ws, 1)
  {
    hide Calm;
    forall u ensures CalmRun(Undisturbed(r), u, r, ws, 1) {
      assert Undisturbed(r).execute(u) == RunOf(Dispatch(u, r, Quiet, 1));
    }
  }

  function TwoScripts(first: Receipt, second: Receipt): string -> Script<World> {
    id => if id == "e" then Undisturbed(first) else Undisturbed(second)
  }

  lemma TwoRun(ws: seq<World>, es: seq<Effect>, rows: seq<Row>)
    requires |es| == 2 && |ws| == 3 && Calm(ws, Quiet(1)) && |rows| == 2 && rows[0].id == "e" && rows[1].id == "f"
    ensures CalmScript(TwoScripts(Captured(ws[0], es[0]), Captured(ws[1], es[1])), rows, ws, es, 1)
  {
    hide Calm, CalmRun, Undisturbed, CompiledFor, Captured, TwoScripts;
    var first, second := Captured(ws[0], es[0]), Captured(ws[1], es[1]);
    var script := TwoScripts(first, second);
    UndisturbedRuns(first, ws);
    UndisturbedRuns(second, ws);
    TwoScriptsAt(first, second);
    forall i, u | 0 <= i < 2
      ensures script(rows[i].id).compiled(u) == CompiledFor(u, Captured(ws[i], es[i]))
      ensures CalmRun(script(rows[i].id), u, Captured(ws[i], es[i]), ws, 1)
    {
      if i == 0 { assert script(rows[0].id) == Undisturbed(first); } else { assert script(rows[1].id) == Undisturbed(second); }
    }
  }

  lemma TwoScriptsAt(first: Receipt, second: Receipt)
    ensures TwoScripts(first, second)("e") == Undisturbed(first) && TwoScripts(first, second)("f") == Undisturbed(second)
  {
    hide Undisturbed;
  }

  /** There is such a saga: two writes to one file. */
  lemma TwoWritesSaga() returns (o: Opts, script: string -> Script<World>, b: Books<World>, ws: seq<World>, es: seq<Effect>)
    ensures CalmSaga(o, script, b, ws, es, 1) && |es| == 2 && |ws| == 3
    ensures Refused(ws, es, 0) && !Refused(ws, es, 1)
  {
    hide Land, Captured, Calm, CalmRun, AllLanded, Refused, Undisturbed, CompiledFor, CalmScript, CanLand, TwoScripts;
    var e, f := Write("p", [1], 0, 0), Write("p", [2], 0, 0);
    var w := World(map["p" := File(1, [], 0)], {});
    TwoWritesRefused(w, "p", [1], [2]);
    MayWrite(w, e, f);
    var w1 := Land(w, e);
    var w2 := Land(w1, f);
    ws, es := [w, w1, w2], [e, f];
    LastNotRefused(ws, es);
    TwoWritesCalm(w, w1, w2, e, f);
    o := Opts(false, None, None, None);
    b := Books([Row("e", 1, false, Status.Landed, Available), Row("f", 2, false, Status.Landed, Available)], [], Open, w2);
    script := TwoScripts(Captured(ws[0], es[0]), Captured(ws[1], es[1]));
    TwoRun(ws, es, b.rows);
  }

  lemma MayWrite(w: World, e: Effect, f: Effect)
    requires w == World(map["p" := File(1, [], 0)], {}) && e == Write("p", [1], 0, 0) && f == Write("p", [2], 0, 0)
    ensures CanLand(w, e) && CanLand(Land(w, e), f)
  {
  }

  lemma TwoWritesCalm(w: World, w1: World, w2: World, e: Effect, f: Effect)
    requires w == World(map["p" := File(1, [], 0)], {}) && e == Write("p", [1], 0, 0) && f == Write("p", [2], 0, 0)
    requires w1 == Land(w, e) && w2 == Land(w1, f)
    ensures Calm([w, w1, w2], Env(2, "t", Nowhere, Serves))
  {
    assert w1.files == map["p" := File(1, [1], 0)] && w2.files == map["p" := File(1, [2], 0)];
  }

  lemma LastNotRefused(ws: seq<World>, es: seq<Effect>)
    requires |es| == 2 && |ws| == 3
    ensures !Refused(ws, es, 1)
  {
  }

  /** A saga of one created file, undone in full. */
  lemma OneFileRestored() returns (o: Opts, script: string -> Script<World>, b: Books<World>)
    ensures !UndoSaga(o, script, b).1.Failure? && UndoSaga(o, script, b).1.report.worldRestored
    ensures b.world.files.Keys == {"p"}
  {
    var e := Write("p", [], 1, 0);
    var w := World(map[], {});
    var ws, es := [w, Land(w, e)], [e];
    var r := Captured(w, e);
    o, script := Opts(false, None, None, None), _ => Undisturbed(r);
    b := Books([Row("e", 1, false, Status.Landed, Available)], [], Open, Land(w, e));
    assert AllLanded(ws, es) by { assert After(ws, 0) == Land(w, e); }
    CalmExample(w, e, ws);
    UndisturbedRuns(r, ws);
    NotRefused(ws, es);
    hide Land, Captured, Calm, CalmRun, AllLanded, UndoSaga, Refused, Undisturbed, CompiledFor;
    assert CalmSaga(o, script, b, ws, es, 1);
    RestoredExactly(o, script, b, ws, es, 1);
  }

  lemma CalmExample(w: World, e: Effect, ws: seq<World>)
    requires w == World(map[], {}) && e == Write("p", [], 1, 0) && ws == [w, Land(w, e)]
    ensures Calm(ws, Env(2, "t", Nowhere, Serves))
  {
    assert Land(w, e).files == map["p" := File(1, [], 0)];
  }

  lemma NotRefused(ws: seq<World>, es: seq<Effect>)
    requires |es| == 1 && |ws| == 2
    ensures !Refused(ws, es, 0)
  {
  }
}
