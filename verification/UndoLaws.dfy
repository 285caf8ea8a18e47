/** What one undo pass keeps: the stored rows against the log, the order and the accounting of the report. */
module UndoLaws {
  import opened Options
  import opened Projections
  import opened Undo
  import opened UndoEngine

  // ---------------------------------------------------------------- stored rows against the log

  /** The stored rows and the rows folded from the log name the same effects in the same places. */
  ghost predicate Matched<W>(b: Books<W>) {
    && DistinctIds(b.rows)
    && |b.rows| == |Fold(b.log)|
    && forall i :: 0 <= i < |b.rows| ==> b.rows[i].id == Fold(b.log)[i].id
  }

  ghost predicate CompAgrees<W>(b: Books<W>) {
    Matched(b) && forall i :: 0 <= i < |b.rows| ==> b.rows[i].comp == Fold(b.log)[i].comp
  }

  ghost predicate StatusAgrees<W>(b: Books<W>) {
    Matched(b) && forall i :: 0 <= i < |b.rows| ==> b.rows[i].status == Fold(b.log)[i].status
  }

  /** `b` and `b0` differ in row `k` only, now stored as `s` and folded as `f`. */
  ghost predicate Tracks<W>(b0: Books<W>, b: Books<W>, k: nat, s: Row, f: Row) {
    && k < |b0.rows| == |b.rows| == |Fold(b.log)| == |Fold(b0.log)|
    && s.id == f.id == b0.rows[k].id
    && b.rows[k] == s && Fold(b.log)[k] == f
    && forall i :: 0 <= i < |b.rows| && i != k ==> b.rows[i] == b0.rows[i] && Fold(b.log)[i] == Fold(b0.log)[i]
  }

  lemma TrackAppend<W>(b0: Books<W>, b: Books<W>, k: nat, s: Row, f: Row, kind: Kind)
    requires Matched(b0) && Tracks(b0, b, k, s, f) && !kind.EffectOpened?
    ensures Tracks(b0, Append(b, Event(s.id, kind)), k, Effected(s, kind), Effected(f, kind))
  {
    FoldSnoc(b.log, Event(s.id, kind));
  }

  lemma TrackPersist<W>(b0: Books<W>, b: Books<W>, k: nat, s: Row, f: Row, row: Row)
    requires Matched(b0) && Tracks(b0, b, k, s, f) && row.id == s.id
    ensures Tracks(b0, Persist(b, row), k, row, f)
  {
    assert b.rows[k].id == row.id;
  }

  lemma TrackWorld<W>(b0: Books<W>, b: Books<W>, k: nat, s: Row, f: Row, w: W)
    requires Tracks(b0, b, k, s, f)
    ensures Tracks(b0, b.(world := w), k, s, f)
  {
  }

  function EffectedAll(row: Row, kinds: seq<Kind>): (r: Row)
    ensures r.id == row.id
  {
    if kinds == [] then row else Effected(EffectedAll(row, kinds[..|kinds| - 1]), kinds[|kinds| - 1])
  }

  lemma {:induction false} TrackAll<W>(b0: Books<W>, b: Books<W>, k: nat, s: Row, f: Row, kinds: seq<Kind>)
    requires Matched(b0) && Tracks(b0, b, k, s, f) && forall kind :: kind in kinds ==> !kind.EffectOpened?
    ensures Tracks(b0, AppendAll(b, s.id, kinds), k, EffectedAll(s, kinds), EffectedAll(f, kinds))
  {
    if kinds != [] {
      var front := kinds[..|kinds| - 1];
      TrackAll(b0, b, k, s, f, front);
      TrackAppend(b0, AppendAll(b, s.id, front), k, EffectedAll(s, front), EffectedAll(f, front), kinds[|kinds| - 1]);
    }
  }

  lemma EffectedSnoc(row: Row, kinds: seq<Kind>, kind: Kind)
    ensures EffectedAll(row, kinds + [kind]) == Effected(EffectedAll(row, kinds), kind)
  {
    assert (kinds + [kind])[..|kinds|] == kinds;
  }

  /** Probes sent while executing decide the folded status, and move the folded state only when the
      effect is found not to have landed. */
  lemma {:induction false} ProbesEffect(row: Row, answers: seq<bool>)
    ensures forall kind :: kind in Probes(answers) ==> kind.EffectInDoubt? || kind.EffectProbed?
    ensures EffectedAll(row, Probes(answers)).status
            == if answers == [] then row.status else if answers[|answers| - 1] then Landed else Abandoned
  {
    if answers != [] {
      var front, probed := Probes(answers[..|answers| - 1]), if answers[|answers| - 1] then DidLand else DidNotLand;
      ProbesEffect(row, answers[..|answers| - 1]);
      EffectedSnoc(row, front, EffectInDoubt);
      EffectedSnoc(row, front + [EffectInDoubt], EffectProbed(probed));
      assert front + [EffectInDoubt] + [EffectProbed(probed)] == Probes(answers);
    }
  }

  /** The run of `executePlan` leaves the effect's status where the row copy has it. */
  predicate StaysLanded(x: Exec) {
    match x.end
    case NotOk(_) => true
    case Early(_, _) => true
    case Unresolved => false
    case _ => x.probes == [] || x.probes[|x.probes| - 1]
  }

  /** The last compensation state a run of `executePlan` logs; probes aside, it logs none only when it
      throws before its main block without escalating, or throws VR4005 or VR2020 out of it. */
  function CompLogged(x: Exec): Option<Comp> {
    match x.end
    case NotOk(_) => Some(Escalated)
    case Early(_, raised) => if raised then Some(Escalated) else None
    case Done => Some(Compensated)
    case Unresolved => Some(Escalated)
    case Broke(code, raised) =>
      if code != "VR4005" && code != "VR2020" then Some(Failed) else if raised then Some(Escalated) else None
  }

  lemma {:induction false} EffectedConcat(row: Row, a: seq<Kind>, b: seq<Kind>)
    ensures EffectedAll(row, a + b) == EffectedAll(EffectedAll(row, a), b)
  {
    if b == [] {
      assert a + b == a;
    } else {
      EffectedConcat(row, a, b[..|b| - 1]);
      assert (a + b)[..|a + b| - 1] == a + b[..|b| - 1];
    }
  }

  /** The status after some events depends on the status before, not on the compensation state. */
  lemma {:induction false} StatusAlone(s: Row, f: Row, kinds: seq<Kind>)
    requires s.status == f.status
    ensures EffectedAll(s, kinds).status == EffectedAll(f, kinds).status
  {
    if kinds != [] { StatusAlone(s, f, kinds[..|kinds| - 1]); }
  }

  lemma EffectedOne(row: Row, kind: Kind)
    ensures EffectedAll(row, []) == row && EffectedAll(row, [kind]) == Effected(row, kind)
  {
    assert [kind][..0] == [];
  }

  lemma ClosingEffect(row: Row, x: Exec)
    ensures forall kind :: kind in Closing(x) ==> !kind.EffectOpened?
    ensures EffectedAll(row, Closing(x))
            == row.(comp := if CompLogged(x).Some? then CompLogged(x).value else row.comp,
                    status := if x.end.Unresolved? then InDoubt else row.status)
  {
    hide EffectedAll;
    EffectedOne(row, EscalationRaised);
    match x.end
    case Unresolved =>
      var two := [EffectInDoubt, EffectProbed(Unknown)];
      assert two == [EffectInDoubt] + [EffectProbed(Unknown)] && Closing(x) == two + [EscalationRaised];
      EffectedOne(row, EffectInDoubt);
      EffectedSnoc(row, [EffectInDoubt], EffectProbed(Unknown));
      EffectedSnoc(row, two, EscalationRaised);
    case Broke(code, raised) =>
      EffectedOne(row, CompensationFailed);
      EffectedSnoc(row, [EscalationRaised], CompensationFailed);
      assert [EscalationRaised] + [] == [EscalationRaised] && [] + [CompensationFailed] == [CompensationFailed];
    case Done => EffectedOne(row, CompensationExecuted);
    case _ =>
  }

  lemma LoggedEffect(row: Row, x: Exec)
    ensures forall kind :: kind in Logged(x) ==> !kind.EffectOpened?
    ensures CompLogged(x).Some? ==> EffectedAll(row, Logged(x)).comp == CompLogged(x).value
    ensures x.end.Early? && !x.end.raised ==> EffectedAll(row, Logged(x)) == row
    ensures row.status == Landed ==> (EffectedAll(row, Logged(x)).status == Landed <==> StaysLanded(x))
  {
    hide Closing, Probes, EffectedAll;
    ProbesEffect(row, x.probes);
    if x.end.NotOk? || x.end.Early? {
      assert Logged(x) == Closing(x);
      ClosingEffect(row, x);
    } else {
      EffectedConcat(row, Probes(x.probes), Closing(x));
      ClosingEffect(EffectedAll(row, Probes(x.probes)), x);
    }
  }

  /** The state in which an effect reaches the run. */
  function Ready(c: Comp): Comp {
    if c == Available then Planned else c
  }

  /** The effect compiles to a plan that is neither manual nor of high cascade risk. */
  predicate Runnable<W>(sc: Script<W>, w: W, row: Row) {
    sc.compiled(w).Plan? && !sc.compiled(w).manual && !row.t4 && !sc.compiled(w).highCascade
  }

  /** Does the engine run the plan of this effect? */
  predicate Dispatches<W>(o: Opts, sc: Script<W>, w: W, row: Row) {
    && !o.dryRun
    && (row.status == InDoubt ==> sc.probe(w) == DidLand)
    && row.comp != Unavailable
    && Runnable(sc, w, row)
    && MayMove(Ready(row.comp), Executing)
  }

  lemma {:induction false} AppendAllKeeps<W>(b: Books<W>, id: string, kinds: seq<Kind>)
    ensures AppendAll(b, id, kinds).world == b.world
  {
    if kinds != [] { AppendAllKeeps(b, id, kinds[..|kinds| - 1]); }
  }

  /** The world changes exactly by the run, when there is one. */
  lemma SettleWorld<W>(o: Opts, sc: Script<W>, b: Books<W>, row: Row)
    ensures Settle(o, sc, b, row).books.world
            == if Dispatches(o, sc, b.world, row) then sc.execute(b.world).0 else b.world
  {
    hide Upsert, ApplyEvent, Logged;
    var (w, x) := sc.execute(b.world);
    forall b': Books<W> ensures AppendAll(b', row.id, Logged(x)).world == b'.world {
      AppendAllKeeps(b', row.id, Logged(x));
    }
  }

  /** The run threw VR5010 or VR5012 before its main block, logging nothing. */
  predicate Silent(x: Exec) {
    x.end == Early("VR5010", false) || x.end == Early("VR5012", false)
  }

  lemma ConcludeTracks<W>(o: Opts, sc: Script<W>, b0: Books<W>, b: Books<W>, k: nat, running: Row, f: Row, x: Exec, c: Completeness)
    returns (s': Row, f': Row)
    requires Matched(b0) && Tracks(b0, b, k, running, f) && running.comp == Executing != f.comp
    requires running.status == Landed
    ensures var turn := Conclude(o, sc, AppendAll(b, running.id, Logged(x)), running, x, c);
            && Tracks(b0, turn.books, k, s', f')
            && (turn.move.Settled? ==>
                  && s'.comp == f'.comp == (if x.end.Done? then Compensated else Escalated)
                  && s'.status == Landed && (f.status == Landed ==> (f'.status == Landed <==> StaysLanded(x))))
            && (turn.move.Threw? ==>
                  && (f.status == Landed ==> s'.status == f'.status)
                  && (s'.comp == f'.comp <==> !Silent(x)))
  {
    hide Append, Persist, AppendAll, Logged, ApplyEvent, Upsert, EffectedAll, Fold, Matched, Tracks, StaysLanded, FailedBefore, Raise;
    var b1 := AppendAll(b, running.id, Logged(x));
    s', f' := EffectedAll(running, Logged(x)), EffectedAll(f, Logged(x));
    TracksSame(b0, b, k, running, f);
    LoggedEffect(running, x);
    LoggedEffect(f, x);
    if f.status == Landed { StatusAlone(running, f, Logged(x)); }
    TrackAll(b0, b, k, running, f, Logged(x));
    if Thrown(x) == None {
      var kept := running.(comp := if x.end.NotOk? then Escalated else Compensated);
      TrackPersist(b0, b1, k, s', f', kept);
      s' := kept;
    } else if Thrown(x) == Some("VR2020") {
      s', f' := RaiseAndPersist(b0, b1, k, s', f', running);
    } else if Thrown(x) != Some("VR5010") && Thrown(x) != Some("VR5012") {
      s', f' := FailTracks(b0, b1, k, s', f', running);
    }
  }

  /** A failed run is stored as failed, logged as failed if it has not been, and escalated. */
  lemma FailTracks<W>(b0: Books<W>, b: Books<W>, k: nat, s: Row, f: Row, running: Row) returns (s': Row, f': Row)
    requires Matched(b0) && Tracks(b0, b, k, s, f) && running.id == s.id
    ensures s' == running.(comp := Escalated) && f' == f.(comp := Escalated)
    ensures var b1 := Persist(b, running.(comp := Failed));
            var b2 := if FailedBefore(b1.log, running.id) then b1 else Append(b1, Event(running.id, CompensationFailed));
            Tracks(b0, Persist(Raise(b2, running), running.(comp := Escalated)), k, s', f')
  {
    hide Append, Persist, Raise, Matched, FailedBefore;
    var b2, failed := Persist(b, running.(comp := Failed)), running.(comp := Failed);
    TrackPersist(b0, b, k, s, f, failed);
    hide Tracks;
    if FailedBefore(b2.log, running.id) {
      s', f' := RaiseAndPersist(b0, b2, k, failed, f, running);
    } else {
      TrackAppend(b0, b2, k, failed, f, CompensationFailed);
      s', f' := RaiseAndPersist(b0, Append(b2, Event(running.id, CompensationFailed)), k,
                                Effected(failed, CompensationFailed), Effected(f, CompensationFailed), running);
    }
  }

  lemma TracksSame<W>(b0: Books<W>, b: Books<W>, k: nat, s: Row, f: Row)
    requires Tracks(b0, b, k, s, f)
    ensures s.id == f.id
  {
  }

  /** `raise`, then a row persisted as escalated: both sides agree on the state, whatever came before. */
  lemma RaiseAndPersist<W>(b0: Books<W>, b: Books<W>, k: nat, s: Row, f: Row, row: Row) returns (s': Row, f': Row)
    requires Matched(b0) && Tracks(b0, b, k, s, f) && row.id == s.id
    ensures s' == row.(comp := Escalated) && f' == f.(comp := Escalated)
    ensures Tracks(b0, Persist(Raise(b, row), row.(comp := Escalated)), k, s', f')
  {
    hide Append, Persist, Matched, Tracks;
    TrackAppend(b0, b, k, s, f, EscalationRaised);
    s', f' := row.(comp := Escalated), Effected(f, EscalationRaised);
    TrackPersist(b0, Raise(b, row), k, Effected(s, EscalationRaised), f', s');
  }

  // ---------------------------------------------------------------- one effect

  /** Did the run, if there was one, leave the effect's status where the engine's copy of the row has it? */
  predicate Strays<W>(o: Opts, sc: Script<W>, w: W, row: Row) {
    Dispatches(o, sc, w, row) && !StaysLanded(sc.execute(w).1)
  }

  /** The run, if there was one, threw VR5010 or VR5012 before its main block, logging nothing. */
  predicate Vanishes<W>(o: Opts, sc: Script<W>, w: W, row: Row) {
    Dispatches(o, sc, w, row) && Silent(sc.execute(w).1)
  }

  lemma VanishingThrows<W>(o: Opts, sc: Script<W>, b: Books<W>, row: Row)
    requires Vanishes(o, sc, b.world, row) && Eligible(row)
    ensures Settle(o, sc, b, row).move.Threw?
  {
    hide Upsert, ApplyEvent, AppendAll;
  }

  lemma AttemptTracks<W>(o: Opts, sc: Script<W>, b0: Books<W>, b: Books<W>, k: nat, row: Row, f: Row)
    returns (s': Row, f': Row)
    requires Matched(b0) && Tracks(b0, b, k, row, f) && row.status == Landed
    requires row.comp == f.comp && row.comp != Available && row.comp != Unavailable && !TerminalSkip(row.comp) && !o.dryRun
    ensures var turn := Attempt(o, sc, b, row);
            && Tracks(b0, turn.books, k, s', f')
            && (turn.move.Settled? ==>
                  && s'.comp == f'.comp && s'.status == Landed
                  && (f.status == Landed ==> (f'.status == Landed <==> !Strays(o, sc, b.world, row))))
            && (turn.move.Threw? ==>
                  && (f.status == Landed ==> s'.status == f'.status)
                  && (s'.comp == f'.comp <==> !Vanishes(o, sc, b.world, row)))
  {
    hide AppendAll, Logged, ApplyEvent, Upsert, EffectedAll, Fold, Matched, Tracks, StaysLanded, Conclude, Silent, Raise;
    TracksSame(b0, b, k, row, f);
    match sc.compiled(b.world)
    case Rejected(code) =>
      s', f' := RaiseAndPersist(b0, b, k, row, f, row);
    case Plan(manual, highCascade, c) =>
      TrackAppend(b0, b, k, row, f, CompensationPlanned);
      var b1 := Append(b, Event(row.id, CompensationPlanned));
      var s1, f1 := Effected(row, CompensationPlanned), Effected(f, CompensationPlanned);
      if manual || row.t4 || highCascade {
        s', f' := RaiseAndPersist(b0, b1, k, s1, f1, row);
      } else if !MayMove(row.comp, Executing) {
        s', f' := s1, f1;
      } else {
        var running := row.(comp := Executing);
        TrackPersist(b0, b1, k, s1, f1, running);
        var (w, x) := sc.execute(b.world);
        var b2 := Persist(b1, running).(world := w);
        TrackWorld(b0, Persist(b1, running), k, running, f1, w);
        s', f' := ConcludeTracks(o, sc, b0, b2, k, running, f1, x, c);
      }
  }

  /** Stored and folded, after one effect: the states agree unless an exception left the run before it
      logged anything; the statuses agree exactly when the run did not end on a probe that failed to land. */
  lemma SettleTracks<W>(o: Opts, sc: Script<W>, b: Books<W>, k: nat, row: Row) returns (s': Row, f': Row)
    requires Matched(b) && k < |b.rows| && b.rows[k] == row && Eligible(row)
    requires row.comp == Fold(b.log)[k].comp
    ensures var turn := Settle(o, sc, b, row);
            && Tracks(b, turn.books, k, s', f')
            && (turn.move.Settled? ==>
                  && s'.comp == f'.comp
                  && (row.status == Fold(b.log)[k].status ==> (s'.status == f'.status <==> !Strays(o, sc, b.world, row))))
            && (turn.move.Threw? ==>
                  && (row.status == Fold(b.log)[k].status ==> s'.status == f'.status)
                  && (s'.comp == f'.comp <==> !Vanishes(o, sc, b.world, row)))
  {
    hide ApplyEvent, Upsert, Fold, Matched, Tracks, StaysLanded, Attempt;
    TrackStart(b, k);
    var f := Fold(b.log)[k];
    if row.status == Landed {
      s', f' := CompensateTracks(o, sc, b, b, k, row, f);
    } else {
      var answer := sc.probe(b.world);
      TrackAppend(b, b, k, row, f, EffectProbed(answer));
      var b1 := Append(b, Event(row.id, EffectProbed(answer)));
      var s1, f1 := Effected(row, EffectProbed(answer)), Effected(f, EffectProbed(answer));
      match answer
      case DidLand =>
        TrackPersist(b, b1, k, s1, f1, s1);
        s', f' := CompensateTracks(o, sc, b, Persist(b1, s1), k, s1, f1);
      case DidNotLand =>
        TrackPersist(b, b1, k, s1, f1, s1);
        TrackAppend(b, Persist(b1, s1), k, s1, f1, CompensationSkipped("abandoned"));
        s', f' := Effected(s1, CompensationSkipped("abandoned")), Effected(f1, CompensationSkipped("abandoned"));
      case Unknown =>
        TrackAppend(b, b1, k, s1, f1, EscalationRaised);
        s', f' := Effected(s1, EscalationRaised), Effected(f1, EscalationRaised);
        TrackAppend(b, Raise(b1, row), k, s', f', EscalationRaised);
    }
  }

  lemma TrackStart<W>(b: Books<W>, k: nat)
    requires Matched(b) && k < |b.rows|
    ensures Tracks(b, b, k, b.rows[k], Fold(b.log)[k])
    ensures k < |Fold(b.log)|
  {
  }

  lemma CompensateTracks<W>(o: Opts, sc: Script<W>, b0: Books<W>, b: Books<W>, k: nat, row: Row, f: Row)
    returns (s': Row, f': Row)
    requires Matched(b0) && Tracks(b0, b, k, row, f) && row.status == Landed
    requires row.comp == f.comp && !TerminalSkip(row.comp)
    ensures var turn := Compensate(o, sc, b, row);
            && Tracks(b0, turn.books, k, s', f')
            && (turn.move.Settled? ==>
                  && s'.comp == f'.comp && s'.status == Landed
                  && (f.status == Landed ==> (f'.status == Landed <==> !Strays(o, sc, b.world, row))))
            && (turn.move.Threw? ==>
                  && (f.status == Landed ==> s'.status == f'.status)
                  && (s'.comp == f'.comp <==> !Vanishes(o, sc, b.world, row)))
  {
    hide ApplyEvent, Upsert, Fold, Matched, Tracks, StaysLanded, Attempt;
    TracksSame(b0, b, k, row, f);
    if o.dryRun {
      s', f' := row, f;
    } else if row.comp == Unavailable {
      s', f' := RaiseAndPersist(b0, b, k, row, f, row);
    } else if row.comp == Available {
      var planned := row.(comp := Planned);
      TrackPersist(b0, b, k, row, f, planned);
      TrackAppend(b0, Persist(b, planned), k, planned, f, CompensationPlanned);
      s', f' := AttemptTracks(o, sc, b0, Append(Persist(b, planned), Event(row.id, CompensationPlanned)), k,
                              planned, Effected(f, CompensationPlanned));
    } else {
      s', f' := AttemptTracks(o, sc, b0, b, k, row, f);
    }
  }

  // ---------------------------------------------------------------- the whole pass

  /** The pass as it comes to row `i`, counted from the lowest seq. */
  function Before<W>(o: Opts, script: string -> Script<W>, b: Books<W>, i: nat): Run<W>
    requires i < |b.rows|
  {
    Upto(o, script, Begin(o, b), Reverse(b.rows), |b.rows| - 1 - i)
  }

  /** The pass comes to row `i`, has it in its work list, and has not been stopped. */
  predicate Reaches<W>(o: Opts, script: string -> Script<W>, b: Books<W>, i: nat)
    requires i < |b.rows|
  {
    var r := Before(o, script, b, i);
    r.threw == None && r.halt == Go && InWork(o, b.rows[i])
  }

  /** Row `i` is settled, not thrown out of, after a run that left its status elsewhere. */
  predicate StrayedAt<W>(o: Opts, script: string -> Script<W>, b: Books<W>, i: nat)
    requires i < |b.rows|
  {
    var (r, sc) := (Before(o, script, b, i), script(b.rows[i].id));
    Reaches(o, script, b, i) && Settle(o, sc, r.books, b.rows[i]).move.Settled? && Strays(o, sc, r.books.world, b.rows[i])
  }

  /** The pass ends at row `i` with an exception that left its run before anything was logged. */
  predicate VanishedAt<W>(o: Opts, script: string -> Script<W>, b: Books<W>, i: nat)
    requires i < |b.rows|
  {
    Reaches(o, script, b, i) && Vanishes(o, script(b.rows[i].id), Before(o, script, b, i).books.world, b.rows[i])
  }

  /** After the rows from `m` up have been visited: lower rows are untouched, and the rows above agree
      with the log, save where an exception left none. */
  ghost predicate Settling<W>(o: Opts, script: string -> Script<W>, b0: Books<W>, m: nat, r: Run<W>)
    requires m <= |b0.rows| == |Fold(b0.log)|
  {
    var b := r.books;
    && Matched(b) && |b.rows| == |b0.rows|
    && (forall i :: 0 <= i < m ==> b.rows[i] == b0.rows[i] && Fold(b.log)[i] == Fold(b0.log)[i])
    && (forall i :: m <= i < |b.rows| ==> (b.rows[i].comp == Fold(b.log)[i].comp <==> !VanishedAt(o, script, b0, i)))
    && (r.threw == None ==> forall i :: m <= i < |b.rows| ==> !VanishedAt(o, script, b0, i))
    && (StatusAgrees(b0) ==>
          forall i :: m <= i < |b.rows| ==> (b.rows[i].status == Fold(b.log)[i].status <==> !StrayedAt(o, script, b0, i)))
  }

  lemma TracksMatched<W>(b0: Books<W>, b: Books<W>, k: nat, s: Row, f: Row)
    requires Matched(b0) && Tracks(b0, b, k, s, f)
    ensures Matched(b) && |b.rows| == |b0.rows| == |Fold(b.log)| == |Fold(b0.log)|
  {
    hide Fold;
  }

  lemma SettlingStep<W>(o: Opts, script: string -> Script<W>, b0: Books<W>, k: nat, r: Run<W>)
    requires CompAgrees(b0) && k < |b0.rows|
    requires r == Before(o, script, b0, k)
    requires Settling(o, script, b0, k + 1, r)
    ensures Settling(o, script, b0, k, Visit(o, script(b0.rows[k].id), r, b0.rows[k]))
  {
    hide Fold, Settle, ApplyEvent, Upto, Strays, Reverse, Vanishes, Before, DistinctIds;
    var row, sc := b0.rows[k], script(b0.rows[k].id);
    if r.threw == None && r.halt == Go && InWork(o, row) {
      var s', f' := SettleTracks(o, sc, r.books, k, row);
      TracksMatched(r.books, Settle(o, sc, r.books, row).books, k, s', f');
      if Vanishes(o, sc, r.books.world, row) { VanishingThrows(o, sc, r.books, row); }
    }
  }

  lemma {:induction false} SettlingUpto<W>(o: Opts, script: string -> Script<W>, b0: Books<W>, n: nat)
    requires CompAgrees(b0) && n <= |b0.rows|
    ensures Settling(o, script, b0, |b0.rows| - n, Upto(o, script, Begin(o, b0), Reverse(b0.rows), n))
  {
    hide Visit, Fold, Settling, Reverse, StatusAgrees, DistinctIds;
    if n == 0 {
      SettlingStart(o, script, b0);
    } else {
      SettlingUpto(o, script, b0, n - 1);
      SettlingStep(o, script, b0, |b0.rows| - n, Upto(o, script, Begin(o, b0), Reverse(b0.rows), n - 1));
    }
  }

  lemma SettlingStart<W>(o: Opts, script: string -> Script<W>, b0: Books<W>)
    requires CompAgrees(b0)
    ensures Settling(o, script, b0, |b0.rows|, Upto(o, script, Begin(o, b0), Reverse(b0.rows), 0))
  {
    hide Fold;
  }

  lemma ThrewStays<W>(o: Opts, sc: Script<W>, r: Run<W>, row: Row)
    requires r.threw.Some?
    ensures Visit(o, sc, r, row) == r
  {
  }

  /** On every exit of `undoSaga`, whatever the options and whatever probes, compilation and runs answer:
      every effect's stored compensation state is the one folded from the log, if it was so before, except at
      an effect whose run threw VR5010 or VR5012 out of the pass before it logged anything. The stored status
      is the folded one too, exactly for the effects that were not settled after a run that ended on a probe
      that failed to land. */
  lemma StoredIsFolded<W>(o: Opts, script: string -> Script<W>, b: Books<W>)
    requires CompAgrees(b)
    ensures var (b', result) := UndoSaga(o, script, b);
            && Matched(b') && |b'.rows| == |b.rows|
            && (forall i :: 0 <= i < |b.rows| ==> (b'.rows[i].comp == Fold(b'.log)[i].comp <==> !VanishedAt(o, script, b, i)))
            && (!result.Failure? ==> CompAgrees(b'))
            && (StatusAgrees(b) ==> forall i :: 0 <= i < |b.rows| ==>
                  (b'.rows[i].status == Fold(b'.log)[i].status <==> !StrayedAt(o, script, b, i)))
  {
    hide Upto, Fold, ReportOf, FinalStatus, StrayedAt, VanishedAt;
    var r := Upto(o, script, Begin(o, b), Reverse(b.rows), |b.rows|);
    SettlingUpto(o, script, b, |b.rows|);
    if r.threw == None && !o.dryRun {
      var ev := Event("", SagaUndone(FinalStatus(ReportOf(r.lines, r.haltedAt))));
      FoldSnoc(r.books.log, ev);
    }
  }
}
