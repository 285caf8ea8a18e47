/** What an undo pass does with each effect, and when it stops, told from its surroundings and its report. */
module UndoOutcome {
  import opened Options
  import opened Projections
  import opened Undo
  import opened UndoEngine
  import opened UndoLaws
  import opened UndoReport

  /** The effect of the line could not be told to have landed or not. */
  predicate Unresolved(line: Line) {
    line.outcome == WasEscalated && line.completeness == None && line.code == "VR5011"
  }

  /** The line stops the pass: its effect is unresolved, or it failed, was escalated or needs a hand, the
      options do not say to go on, and no compensator declares the effect independent. */
  predicate Stops<W(!new)>(o: Opts, script: string -> Script<W>, line: Line) {
    || Unresolved(line)
    || (&& (line.outcome == WasFailed || line.outcome == WasEscalated || line.outcome == ManualRequired)
        && o.haltOnFailure != Some(false) && o.continueOnFailure != Some(true) && !script(line.id).independent)
  }

  /** Compiling never answers with the code of an unresolved effect. */
  ghost predicate CompilesApart<W(!new)>(script: string -> Script<W>) {
    forall id, w :: script(id).compiled(w) != Rejected("VR5011")
  }

  /** What a move says about stopping. */
  ghost predicate Tells<W(!new)>(o: Opts, script: string -> Script<W>, row: Row, move: Move) {
    move.Settled? ==>
      && move.line.outcome != NotAttempted && LineFor(move.line, row)
      && (move.halt != Go <==> Stops(o, script, move.line))
      && (move.halt == Blocked <==> Unresolved(move.line))
  }

  lemma ConcludeTells<W(!new)>(o: Opts, script: string -> Script<W>, b: Books<W>, row: Row, x: Exec, c: Completeness)
    ensures Tells(o, script, row, Conclude(o, script(row.id), b, row, x, c).move)
  {
    hide Persist, Append, FailedBefore;
  }

  lemma AttemptTells<W(!new)>(o: Opts, script: string -> Script<W>, b: Books<W>, row: Row)
    requires CompilesApart(script)
    ensures Tells(o, script, row, Attempt(o, script(row.id), b, row).move)
  {
    hide Persist, Append, AppendAll, Logged, Conclude, AllowedFrom;
    var sc := script(row.id);
    match sc.compiled(b.world)
    case Rejected(code) => assert code != "VR5011";
    case Plan(manual, highCascade, c) =>
      var b1 := Append(b, Event(row.id, CompensationPlanned));
      var running := row.(comp := Executing);
      var (world, x) := sc.execute(b1.world);
      ConcludeTells(o, script, AppendAll(Persist(b1, running).(world := world), row.id, Logged(x)), running, x, c);
  }

  lemma CompensateTells<W(!new)>(o: Opts, script: string -> Script<W>, b: Books<W>, row: Row)
    requires CompilesApart(script)
    ensures Tells(o, script, row, Compensate(o, script(row.id), b, row).move)
  {
    hide Persist, Append, Attempt, CompilesApart;
    AttemptTells(o, script, b, row);
    var planned := row.(comp := Planned);
    AttemptTells(o, script, Append(Persist(b, planned), Event(row.id, CompensationPlanned)), planned);
  }

  /** Exactly when one effect stops the pass, and how. */
  lemma SettleTells<W(!new)>(o: Opts, script: string -> Script<W>, b: Books<W>, row: Row)
    requires CompilesApart(script)
    ensures Tells(o, script, row, Settle(o, script(row.id), b, row).move)
  {
    hide Persist, Append, Compensate, CompilesApart;
    CompensateTells(o, script, b, row);
    var sure := row.(status := Landed);
    CompensateTells(o, script, Persist(Append(b, Event(row.id, EffectProbed(DidLand))), sure), sure);
  }

  /** At or above `toSeq`. */
  predicate Wanted(o: Opts, seqNo: int) {
    o.toSeq.Some? ==> seqNo >= o.toSeq.value
  }

  ghost predicate StandsFor(line: Line, rows: seq<Row>, m: nat) {
    exists i :: m <= i < |rows| && LineFor(line, rows[i])
  }

  /** How the lines of a pass relate to where it stopped, after the rows from index `m` up. */
  ghost predicate StopsWell<W(!new)>(o: Opts, script: string -> Script<W>, rows: seq<Row>, m: nat, r: Run<W>) {
    && m <= |rows|
    && (forall a :: 0 <= a < |r.lines| ==> StandsFor(r.lines[a], rows, m))
    && (forall a :: 0 <= a < |r.lines| ==>
          && (Stops(o, script, r.lines[a]) <==> r.haltedAt == Some(r.lines[a].seqNo))
          && (r.lines[a].outcome == NotAttempted <==>
                !Wanted(o, r.lines[a].seqNo) || (r.haltedAt.Some? && r.lines[a].seqNo < r.haltedAt.value)))
    && (r.haltedAt.Some? ==> Wanted(o, r.haltedAt.value) && exists a :: 0 <= a < |r.lines| && Stops(o, script, r.lines[a]))
    && (r.halt == Go <==> r.haltedAt == None)
    && (r.halt == Blocked <==> exists a :: 0 <= a < |r.lines| && Unresolved(r.lines[a]))
    && (forall i :: m <= i < |rows| && Eligible(rows[i]) && !Wanted(o, rows[i].seqNo) ==>
          (Reports(r.lines, rows[i]) <==> r.haltedAt == None))
  }

  /** A line more: either not attempted, below `toSeq` before any stop or at or above it after, or attempted. */
  ghost predicate Extends<W(!new)>(o: Opts, script: string -> Script<W>, r: Run<W>, row: Row, v: Run<W>, line: Line) {
    && v.lines == r.lines + [line] && LineFor(line, row)
    && if line.outcome == NotAttempted then
         v.halt == r.halt && v.haltedAt == r.haltedAt && (r.halt == Go <==> !Wanted(o, row.seqNo))
       else
         && r.halt == Go && Wanted(o, row.seqNo)
         && (v.halt != Go <==> Stops(o, script, line)) && (v.halt == Blocked <==> Unresolved(line))
         && v.haltedAt == if Stops(o, script, line) then Some(row.seqNo) else r.haltedAt
  }

  lemma VisitExtends<W(!new)>(o: Opts, script: string -> Script<W>, r: Run<W>, row: Row)
    requires CompilesApart(script) && r.threw == None && Visit(o, script(row.id), r, row).threw == None
    ensures var v := Visit(o, script(row.id), r, row);
            if v.lines == r.lines then
              v.halt == r.halt && v.haltedAt == r.haltedAt && (Eligible(row) && !Wanted(o, row.seqNo) ==> r.halt != Go)
            else |v.lines| > 0 && Extends(o, script, r, row, v, v.lines[|v.lines| - 1])
  {
    SettleTells(o, script, r.books, row);
    hide Settle, Eligible, Stops, CompilesApart;
  }

  lemma StopsStep<W(!new)>(o: Opts, script: string -> Script<W>, rows: seq<Row>, k: nat, r: Run<W>)
    requires Ascending(rows) && CompilesApart(script) && k < |rows| && StopsWell(o, script, rows, k + 1, r)
    requires r.threw == None && Visit(o, script(rows[k].id), r, rows[k]).threw == None
    ensures StopsWell(o, script, rows, k, Visit(o, script(rows[k].id), r, rows[k]))
  {
    VisitExtends(o, script, r, rows[k]);
    var row, v := rows[k], Visit(o, script(rows[k].id), r, rows[k]);
    if v.lines != r.lines {
      var line := v.lines[|v.lines| - 1];
      assert line.outcome == NotAttempted ==> !Stops(o, script, line) && !Unresolved(line);
      hide Visit, StopsWell, CompilesApart, Eligible;
      LineStops(o, script, rows, k, r, v, line);
    } else {
      hide Visit, Stops, Unresolved, CompilesApart, Reports, Eligible;
    }
  }

  lemma LinesAbove<W(!new)>(o: Opts, script: string -> Script<W>, rows: seq<Row>, k: nat, r: Run<W>)
    requires Ascending(rows) && k < |rows| && StopsWell(o, script, rows, k + 1, r)
    ensures forall a :: 0 <= a < |r.lines| ==> r.lines[a].seqNo > rows[k].seqNo && StandsFor(r.lines[a], rows, k)
  {
    hide Stops, Unresolved, Eligible, Wanted, Reports;
    forall a | 0 <= a < |r.lines| ensures r.lines[a].seqNo > rows[k].seqNo && StandsFor(r.lines[a], rows, k) {
      StandsAbove(r.lines[a], rows, k);
    }
  }

  lemma StandsAbove(line: Line, rows: seq<Row>, k: nat)
    requires Ascending(rows) && k < |rows| && StandsFor(line, rows, k + 1)
    ensures line.seqNo > rows[k].seqNo && StandsFor(line, rows, k)
  {
  }

  lemma LineStops<W(!new)>(o: Opts, script: string -> Script<W>, rows: seq<Row>, k: nat, r: Run<W>, v: Run<W>, line: Line)
    requires Ascending(rows) && k < |rows| && StopsWell(o, script, rows, k + 1, r) && Extends(o, script, r, rows[k], v, line)
    requires line.outcome == NotAttempted ==> !Stops(o, script, line) && !Unresolved(line)
    ensures StopsWell(o, script, rows, k, v)
  {
    LinesAbove(o, script, rows, k, r);
    assert forall a :: 0 <= a < |r.lines| ==> v.lines[a] == r.lines[a];
    assert LineFor(line, rows[k]) && StandsFor(line, rows, k);
    hide StandsFor, Stops, Unresolved, Reports, Wanted, Eligible;
    StopsLines(o, script, rows, k, r, v, line);
    StopsRows(o, script, rows, k, r, v, line);
    StopsBlocked(o, script, rows, k, r, v, line);
    hide Extends;
  }

  lemma StopsLines<W(!new)>(o: Opts, script: string -> Script<W>, rows: seq<Row>, k: nat, r: Run<W>, v: Run<W>, line: Line)
    requires Ascending(rows) && k < |rows| && StopsWell(o, script, rows, k + 1, r) && Extends(o, script, r, rows[k], v, line)
    requires forall a :: 0 <= a < |r.lines| ==> r.lines[a].seqNo > rows[k].seqNo && v.lines[a] == r.lines[a]
    requires line.outcome == NotAttempted ==> !Stops(o, script, line) && !Unresolved(line)
    ensures forall a :: 0 <= a < |v.lines| ==>
              && (Stops(o, script, v.lines[a]) <==> v.haltedAt == Some(v.lines[a].seqNo))
              && (v.lines[a].outcome == NotAttempted <==>
                    !Wanted(o, v.lines[a].seqNo) || (v.haltedAt.Some? && v.lines[a].seqNo < v.haltedAt.value))
    ensures v.haltedAt.Some? ==> Wanted(o, v.haltedAt.value) && exists a :: 0 <= a < |v.lines| && Stops(o, script, v.lines[a])
  {
    hide Stops, Unresolved;
    if r.haltedAt.Some? {
      var a :| 0 <= a < |r.lines| && Stops(o, script, r.lines[a]);
      assert Stops(o, script, v.lines[a]) && r.lines[a].seqNo == r.haltedAt.value;
    }
    assert v.lines[|r.lines|] == line;
  }

  lemma ReportsMore(rows: seq<Row>, k: nat, lines: seq<Line>, line: Line, i: nat)
    requires Ascending(rows) && k <= i < |rows| && LineFor(line, rows[k])
    ensures Reports(lines + [line], rows[i]) <==> (i == k || Reports(lines, rows[i]))
  {
    assert (lines + [line])[|lines|] == line;
    if a :| 0 <= a < |lines| && LineFor(lines[a], rows[i]) { assert LineFor((lines + [line])[a], rows[i]); }
  }

  lemma StopsRows<W(!new)>(o: Opts, script: string -> Script<W>, rows: seq<Row>, k: nat, r: Run<W>, v: Run<W>, line: Line)
    requires Ascending(rows) && k < |rows| && StopsWell(o, script, rows, k + 1, r) && Extends(o, script, r, rows[k], v, line)
    ensures forall i :: k <= i < |rows| && Eligible(rows[i]) && !Wanted(o, rows[i].seqNo) ==>
              (Reports(v.lines, rows[i]) <==> v.haltedAt == None)
  {
    hide Stops, Unresolved, Eligible, Reports;
    forall i | k <= i < |rows| ensures Reports(v.lines, rows[i]) <==> (i == k || Reports(r.lines, rows[i])) {
      ReportsMore(rows, k, r.lines, line, i);
    }
  }

  lemma StopsBlocked<W(!new)>(o: Opts, script: string -> Script<W>, rows: seq<Row>, k: nat, r: Run<W>, v: Run<W>, line: Line)
    requires k < |rows| && StopsWell(o, script, rows, k + 1, r) && Extends(o, script, r, rows[k], v, line)
    requires line.outcome == NotAttempted ==> !Unresolved(line)
    ensures v.halt == Go <==> v.haltedAt == None
    ensures v.halt == Blocked <==> exists a :: 0 <= a < |v.lines| && Unresolved(v.lines[a])
  {
    hide Stops, Unresolved, Eligible, Reports;
    assert v.lines[|r.lines|] == line;
    if a :| 0 <= a < |r.lines| && Unresolved(r.lines[a]) { assert Unresolved(v.lines[a]); }
  }

  lemma NothingStopped<W(!new)>(o: Opts, script: string -> Script<W>, b: Books<W>, rows: seq<Row>)
    ensures StopsWell(o, script, rows, |rows|, Upto(o, script, b, Reverse(rows), 0))
  {
  }

  lemma {:induction false} StopsUpto<W(!new)>(o: Opts, script: string -> Script<W>, b: Books<W>, rows: seq<Row>, n: nat)
    requires Ascending(rows) && CompilesApart(script) && n <= |rows|
    ensures var r := Upto(o, script, b, Reverse(rows), n);
            r.threw == None ==> StopsWell(o, script, rows, |rows| - n, r)
  {
    var all := Reverse(rows);
    hide Visit, StopsWell, CompilesApart;
    if n == 0 {
      NothingStopped(o, script, b, rows);
    } else {
      StopsUpto(o, script, b, rows, n - 1);
      var r := Upto(o, script, b, all, n - 1);
      if r.threw.Some? {
        ThrewStays(o, script(all[n - 1].id), r, all[n - 1]);
      } else if Visit(o, script(all[n - 1].id), r, all[n - 1]).threw == None {
        StopsStep(o, script, rows, |rows| - n, r);
      }
    }
  }

  /** The pass halts at the effect whose line stops it, of which there is at most one, and is blocked exactly by
      an unresolved one. The effects of the work list below it, and no others, are not attempted; those below
      `toSeq` are listed, not attempted, exactly if nothing halted. */
  ghost predicate HaltedRight<W(!new)>(o: Opts, script: string -> Script<W>, rows: seq<Row>, lines: seq<Line>, haltedAt: Option<int>,
                                       blocked: bool) {
    && (forall a :: 0 <= a < |lines| ==> (Stops(o, script, lines[a]) <==> haltedAt == Some(lines[a].seqNo)))
    && (haltedAt.Some? <==> exists a :: 0 <= a < |lines| && Stops(o, script, lines[a]))
    && (blocked <==> exists a :: 0 <= a < |lines| && Unresolved(lines[a]))
    && (forall a :: 0 <= a < |lines| ==>
          (lines[a].outcome == NotAttempted <==>
           !Wanted(o, lines[a].seqNo) || (haltedAt.Some? && lines[a].seqNo < haltedAt.value)))
    && (forall i :: 0 <= i < |rows| && InWork(o, rows[i]) ==> Reports(lines, rows[i]))
    && (forall i :: 0 <= i < |rows| && Eligible(rows[i]) && !Wanted(o, rows[i].seqNo) ==>
          (Reports(lines, rows[i]) <==> haltedAt == None))
  }

  lemma RunHaltedRight<W(!new)>(o: Opts, script: string -> Script<W>, rows: seq<Row>, r: Run<W>)
    requires StopsWell(o, script, rows, 0, r)
    requires forall i :: 0 <= i < |rows| && InWork(o, rows[i]) ==> Reports(r.lines, rows[i])
    ensures HaltedRight(o, script, rows, r.lines, r.haltedAt, r.halt == Blocked)
  {
    hide Stops, Unresolved, Eligible, Reports, Wanted, InWork;
    assert r.haltedAt.Some? ==> exists a :: 0 <= a < |r.lines| && Stops(o, script, r.lines[a]);
  }

  /** On the report and the options alone: when a pass halts, and what it then leaves. */
  lemma HaltsExactly<W(!new)>(o: Opts, script: string -> Script<W>, b: Books<W>)
    requires Ascending(b.rows) && DistinctIds(b.rows) && CompilesApart(script) && !UndoSaga(o, script, b).1.Failure?
    ensures var result := UndoSaga(o, script, b).1;
            HaltedRight(o, script, b.rows, result.report.lines, result.report.haltedAt, result.BlockedBy?)
  {
    StopsUpto(o, script, Begin(o, b), b.rows, |b.rows|);
    ReportOrder(o, script, b);
    var r := Upto(o, script, Begin(o, b), Reverse(b.rows), |b.rows|);
    FinishTells(o, r);
    hide Upto, Finish, StopsWell, HaltedRight, Reports, InWork;
    RunHaltedRight(o, script, b.rows, r);
  }

  lemma FinishTells<W>(o: Opts, r: Run<W>)
    requires !Finish(o, r).1.Failure?
    ensures r.threw == None && Finish(o, r).1.report.lines == r.lines && Finish(o, r).1.report.haltedAt == r.haltedAt
    ensures Finish(o, r).1.BlockedBy? <==> r.halt == Blocked
  {
  }

  // ---------------------------------------------------------------- lines, log and final status

  /** The pass comes to compiling the effect. */
  predicate Compiles<W>(o: Opts, sc: Script<W>, w: W, row: Row) {
    !o.dryRun && (row.status == InDoubt ==> sc.probe(w) == DidLand) && row.comp != Unavailable
  }

  /** What the line of an effect says, told from the surroundings, and when there is none. */
  ghost predicate LineExact<W>(o: Opts, sc: Script<W>, w: W, row: Row, move: Move) {
    var (plan, x) := (sc.compiled(w), sc.execute(w).1);
    var runs := Compiles(o, sc, w, row) && Runnable(sc, w, row);
    var stuck := row.comp == Failed || row.comp == Escalated;
    && (move.Threw? <==> runs && (stuck || Thrown(x) == Some("VR5010") || Thrown(x) == Some("VR5012")))
    && (move.Threw? ==> move.code == if stuck then "VR5012" else Thrown(x).value)
    && (move.Settled? ==>
          var line := move.line;
          && (line.outcome == WasSkipped <==>
                (row.status == InDoubt && sc.probe(w) == DidNotLand)
                || (o.dryRun && (row.status == InDoubt ==> sc.probe(w) == DidLand)))
          && (line.outcome == WasCompensated <==> runs && x.end.Done?)
          && (line.outcome == WasFailed <==> runs && Thrown(x).Some? && Thrown(x) != Some("VR2020"))
          && (line.outcome == ManualRequired <==> Compiles(o, sc, w, row) && plan.Plan? && (plan.manual || row.t4))
          && (line.outcome == WasSkipped ==> line.completeness == Some(Full) && line.code == "")
          && (line.outcome == WasCompensated ==> line.completeness == Some(plan.completeness) && line.code == "")
          && (line.outcome == WasFailed ==> line.completeness == Some(plan.completeness) && line.code == Thrown(x).value)
          && (line.outcome == ManualRequired ==> line.completeness == Some(plan.completeness) && line.code == "VR1010")
          && (line.outcome == WasEscalated ==>
                if row.status == InDoubt && sc.probe(w) == Projections.Unknown then line.completeness == None && line.code == "VR5011"
                else if row.comp == Unavailable then
                  line.completeness == None && line.code == if row.t4 then "VR1010" else "VR3001"
                else if plan.Rejected? then line.completeness == None && line.code == plan.code
                else if plan.highCascade then line.completeness == Some(plan.completeness) && line.code == "VR1010"
                else if x.end.NotOk? then line.completeness == Some(plan.completeness) && line.code == x.end.code
                else line.completeness == None && line.code == "VR5011"))
  }

  lemma CompensateExact<W>(o: Opts, sc: Script<W>, b: Books<W>, row: Row)
    requires Eligible(row) && row.status == Landed
    ensures LineExact(o, sc, b.world, row, Compensate(o, sc, b, row).move)
  {
    hide Upsert, ApplyEvent, SagaAfter, AppendAll, Logged, FailedBefore, StopsAt;
  }

  lemma OutcomeExact<W>(o: Opts, sc: Script<W>, b: Books<W>, row: Row)
    requires Eligible(row)
    ensures LineExact(o, sc, b.world, row, Settle(o, sc, b, row).move)
  {
    hide Upsert, ApplyEvent, SagaAfter, Compensate;
    if row.status != InDoubt {
      CompensateExact(o, sc, b, row);
    } else if sc.probe(b.world) == DidLand {
      var sure := row.(status := Landed);
      CompensateExact(o, sc, Persist(Append(b, Event(row.id, EffectProbed(DidLand))), sure), sure);
      SameLine(o, sc, b.world, row, Settle(o, sc, b, row).move);
    }
  }

  lemma SameLine<W>(o: Opts, sc: Script<W>, w: W, row: Row, move: Move)
    requires row.status == InDoubt && sc.probe(w) == DidLand
    ensures LineExact(o, sc, w, row.(status := Landed), move) == LineExact(o, sc, w, row, move)
  {
  }

  /** The events of one effect, from its probe to its settlement, told from the surroundings; `failed` says
      that a failure of its compensation was logged before. */
  function Story<W>(o: Opts, sc: Script<W>, w: W, row: Row, failed: bool): seq<Kind> {
    if row.status != InDoubt then MiddleStory(o, sc, w, row, failed)
    else [EffectProbed(sc.probe(w))]
         + match sc.probe(w)
           case DidLand => MiddleStory(o, sc, w, row, failed)
           case DidNotLand => [CompensationSkipped("abandoned")]
           case Unknown => [EscalationRaised, EscalationRaised]
  }

  function MiddleStory<W>(o: Opts, sc: Script<W>, w: W, row: Row, failed: bool): seq<Kind> {
    if o.dryRun then []
    else if row.comp == Unavailable then [EscalationRaised]
    else (if row.comp == Available then [CompensationPlanned] else []) + LateStory(sc, w, row, failed)
  }

  /** From compiling on. */
  function LateStory<W>(sc: Script<W>, w: W, row: Row, failed: bool): seq<Kind> {
    if sc.compiled(w).Rejected? then [EscalationRaised]
    else if !Runnable(sc, w, row) then [CompensationPlanned, EscalationRaised]
    else if row.comp == Failed || row.comp == Escalated then [CompensationPlanned]
    else [CompensationPlanned] + RunStory(sc.execute(w).1, failed)
  }

  /** The events of a run and of its settlement. */
  function RunStory(x: Exec, failed: bool): seq<Kind> {
    match x.end
    case Done => ProbeStory(x.probes) + [CompensationExecuted]
    case NotOk(_) => [EscalationRaised]
    case Unresolved =>
      ProbeStory(x.probes) + [EffectInDoubt, EffectProbed(Projections.Unknown), EscalationRaised, EscalationRaised]
    case Early(code, raised) =>
      (if raised then [EscalationRaised] else [])
      + if code == "VR5010" || code == "VR5012" then [] else if code == "VR2020" || failed then [EscalationRaised]
        else [CompensationFailed, EscalationRaised]
    case Broke(code, raised) =>
      ProbeStory(x.probes) + (if raised then [EscalationRaised] else [])
      + if code == "VR5010" || code == "VR5012" then [CompensationFailed]
        else if code == "VR2020" then [EscalationRaised]
        else if code == "VR4005" && failed then [EscalationRaised]
        else [CompensationFailed, EscalationRaised]
  }

  /** Two events for every probe. */
  function ProbeStory(answers: seq<bool>): seq<Kind> {
    if answers == [] then []
    else [EffectInDoubt, EffectProbed(if answers[0] then DidLand else DidNotLand)] + ProbeStory(answers[1..])
  }

  function EventsOf(id: string, kinds: seq<Kind>): seq<Event> {
    seq(|kinds|, i requires 0 <= i < |kinds| => Event(id, kinds[i]))
  }

  lemma {:induction false} ProbeStorySnoc(answers: seq<bool>, last: bool)
    ensures ProbeStory(answers + [last]) == ProbeStory(answers) + [EffectInDoubt, EffectProbed(if last then DidLand else DidNotLand)]
  {
    if answers == [] {
      assert ([] + [last])[1..] == [];
    } else {
      ProbeStorySnoc(answers[1..], last);
      assert (answers + [last])[1..] == answers[1..] + [last];
    }
  }

  lemma {:induction false} ProbesTold(answers: seq<bool>)
    ensures Probes(answers) == ProbeStory(answers)
  {
    if answers != [] {
      var n := |answers| - 1;
      ProbesTold(answers[..n]);
      ProbeStorySnoc(answers[..n], answers[n]);
      assert answers == answers[..n] + [answers[n]];
    }
  }

  lemma {:induction false} AppendAllLog<W>(b: Books<W>, id: string, kinds: seq<Kind>)
    ensures AppendAll(b, id, kinds).log == b.log + EventsOf(id, kinds)
  {
    if kinds != [] { AppendAllLog(b, id, kinds[..|kinds| - 1]); }
  }

  lemma EventsConcat(id: string, a: seq<Kind>, b: seq<Kind>)
    ensures EventsOf(id, a + b) == EventsOf(id, a) + EventsOf(id, b)
  {
  }

  lemma FailedConcat(log: seq<Event>, id: string, kinds: seq<Kind>)
    ensures FailedBefore(log + EventsOf(id, kinds), id) <==> FailedBefore(log, id) || CompensationFailed in kinds
  {
    var all := log + EventsOf(id, kinds);
    if i :| 0 <= i < |log| && log[i] == Event(id, CompensationFailed) { assert all[i] == log[i]; }
    if i :| 0 <= i < |kinds| && kinds[i] == CompensationFailed { assert all[|log| + i] == Event(id, CompensationFailed); }
    if i :| 0 <= i < |all| && all[i] == Event(id, CompensationFailed) {
      if i < |log| { assert log[i] == all[i]; } else { assert kinds[i - |log|] == CompensationFailed; }
    }
  }

  /** What is logged once the run has ended. */
  function After(x: Exec, failed: bool): seq<Kind> {
    match Thrown(x)
    case None => []
    case Some(code) =>
      if code == "VR5010" || code == "VR5012" then []
      else if code == "VR2020" || failed then [EscalationRaised] else [CompensationFailed, EscalationRaised]
  }

  lemma ConcludeLog<W>(o: Opts, sc: Script<W>, b: Books<W>, row: Row, x: Exec, c: Completeness)
    ensures Conclude(o, sc, b, row, x, c).books.log == b.log + EventsOf(row.id, After(x, FailedBefore(b.log, row.id)))
  {
    hide Upsert, ApplyEvent, SagaAfter, FailedBefore;
  }

  lemma RunStoryTold(x: Exec, failed: bool)
    ensures RunStory(x, failed) == Logged(x) + After(x, failed || CompensationFailed in Logged(x))
  {
    ProbesTold(x.probes);
    ProbesPlain(x.probes);
    hide ProbeStory, Probes;
    var told, closing := ProbeStory(x.probes), Closing(x);
    assert CompensationFailed in told + closing <==> CompensationFailed in closing;
    match x.end
    case Broke(code, raised) => assert code != "VR4005" && code != "VR2020" ==> closing[|closing| - 1] == CompensationFailed;
    case _ =>
  }

  lemma {:induction false} ProbesPlain(answers: seq<bool>)
    ensures CompensationFailed !in ProbeStory(answers)
  {
    if answers != [] { ProbesPlain(answers[1..]); }
  }

  lemma RunLog<W>(o: Opts, sc: Script<W>, b: Books<W>, row: Row, x: Exec, c: Completeness)
    ensures Conclude(o, sc, AppendAll(b, row.id, Logged(x)), row, x, c).books.log
            == b.log + EventsOf(row.id, RunStory(x, FailedBefore(b.log, row.id)))
  {
    hide Conclude, Logged, FailedBefore, AppendAll, After, RunStory;
    var failed, b1 := FailedBefore(b.log, row.id), AppendAll(b, row.id, Logged(x));
    AppendAllLog(b, row.id, Logged(x));
    FailedConcat(b.log, row.id, Logged(x));
    ConcludeLog(o, sc, b1, row, x, c);
    RunStoryTold(x, failed);
    EventsConcat(row.id, Logged(x), After(x, failed || CompensationFailed in Logged(x)));
  }

  lemma AttemptLog<W>(o: Opts, sc: Script<W>, b: Books<W>, row: Row)
    requires !TerminalSkip(row.comp) && row.comp != Available && row.comp != Unavailable
    ensures Attempt(o, sc, b, row).books.log == b.log + EventsOf(row.id, LateStory(sc, b.world, row, FailedBefore(b.log, row.id)))
  {
    hide Conclude, Logged, FailedBefore, AppendAll, RunStory, Upsert, ApplyEvent, SagaAfter;
    if Runnable(sc, b.world, row) && MayMove(row.comp, Executing) {
      RunningLog(o, sc, b, row);
    } else {
      hide LateStory;
      var late := LateStory(sc, b.world, row, FailedBefore(b.log, row.id));
      assert late == if sc.compiled(b.world).Rejected? then [EscalationRaised]
                     else if !Runnable(sc, b.world, row) then [CompensationPlanned, EscalationRaised] else [CompensationPlanned]
        by { LateTold(sc, b.world, row, FailedBefore(b.log, row.id)); }
    }
  }

  lemma LateTold<W>(sc: Script<W>, w: W, row: Row, failed: bool)
    requires !TerminalSkip(row.comp) && row.comp != Available && row.comp != Unavailable
    requires !(Runnable(sc, w, row) && MayMove(row.comp, Executing))
    ensures LateStory(sc, w, row, failed)
            == if sc.compiled(w).Rejected? then [EscalationRaised]
               else if !Runnable(sc, w, row) then [CompensationPlanned, EscalationRaised] else [CompensationPlanned]
  {
    hide RunStory;
  }

  lemma RunningLog<W>(o: Opts, sc: Script<W>, b: Books<W>, row: Row)
    requires !TerminalSkip(row.comp) && row.comp != Available && row.comp != Unavailable
    requires Runnable(sc, b.world, row) && MayMove(row.comp, Executing)
    ensures Attempt(o, sc, b, row).books.log
            == b.log + EventsOf(row.id, [CompensationPlanned] + RunStory(sc.execute(b.world).1, FailedBefore(b.log, row.id)))
    ensures row.comp != Failed && row.comp != Escalated
  {
    hide Conclude, Logged, FailedBefore, AppendAll, RunStory, Upsert, ApplyEvent, SagaAfter;
    var b1 := Append(b, Event(row.id, CompensationPlanned));
    var running, x := row.(comp := Executing), sc.execute(b.world).1;
    var b2 := Persist(b1, running).(world := sc.execute(b.world).0);
    RunLog(o, sc, b2, running, x, sc.compiled(b.world).completeness);
    assert [Event(row.id, CompensationPlanned)] == EventsOf(row.id, [CompensationPlanned]);
    FailedConcat(b.log, row.id, [CompensationPlanned]);
    EventsConcat(row.id, [CompensationPlanned], RunStory(x, FailedBefore(b.log, row.id)));
  }

  lemma CompensateLog<W>(o: Opts, sc: Script<W>, b: Books<W>, row: Row)
    requires !TerminalSkip(row.comp)
    ensures Compensate(o, sc, b, row).books.log
            == b.log + EventsOf(row.id, MiddleStory(o, sc, b.world, row, FailedBefore(b.log, row.id)))
  {
    hide Attempt, FailedBefore, RunStory, Upsert, ApplyEvent, SagaAfter;
    if !o.dryRun && row.comp == Available {
      var planned := row.(comp := Planned);
      var b1 := Append(Persist(b, planned), Event(row.id, CompensationPlanned));
      AttemptLog(o, sc, b1, planned);
      assert [Event(row.id, CompensationPlanned)] == EventsOf(row.id, [CompensationPlanned]);
      FailedConcat(b.log, row.id, [CompensationPlanned]);
      EventsConcat(row.id, [CompensationPlanned], LateStory(sc, b.world, row, FailedBefore(b.log, row.id)));
    } else if !o.dryRun && row.comp != Unavailable {
      AttemptLog(o, sc, b, row);
    }
  }

  /** The log grows by exactly the events of the effect. */
  lemma LogExact<W>(o: Opts, sc: Script<W>, b: Books<W>, row: Row)
    requires Eligible(row)
    ensures Settle(o, sc, b, row).books.log == b.log + EventsOf(row.id, Story(o, sc, b.world, row, FailedBefore(b.log, row.id)))
  {
    hide Compensate, FailedBefore, Upsert, ApplyEvent, SagaAfter, MiddleStory;
    if row.status != InDoubt {
      CompensateLog(o, sc, b, row);
    } else if sc.probe(b.world) == DidLand {
      LandedLog(o, sc, b, row);
    } else {
      var rest := if sc.probe(b.world) == DidNotLand then [CompensationSkipped("abandoned")] else [EscalationRaised, EscalationRaised];
      assert EventsOf(row.id, [EffectProbed(sc.probe(b.world))] + rest)
             == [Event(row.id, EffectProbed(sc.probe(b.world)))] + EventsOf(row.id, rest);
    }
  }

  lemma LandedLog<W>(o: Opts, sc: Script<W>, b: Books<W>, row: Row)
    requires Eligible(row) && row.status == InDoubt && sc.probe(b.world) == DidLand
    ensures Settle(o, sc, b, row).books.log
            == b.log + EventsOf(row.id, [EffectProbed(DidLand)]
                                        + MiddleStory(o, sc, b.world, row, FailedBefore(b.log, row.id)))
  {
    hide Compensate, FailedBefore, Upsert, ApplyEvent, SagaAfter, MiddleStory;
    var b1 := Append(b, Event(row.id, EffectProbed(DidLand)));
    var sure := row.(status := Landed);
    CompensateLog(o, sc, Persist(b1, sure), sure);
    FailedConcat(b.log, row.id, [EffectProbed(DidLand)]);
    assert [Event(row.id, EffectProbed(DidLand))] == EventsOf(row.id, [EffectProbed(DidLand)]);
    EventsConcat(row.id, [EffectProbed(DidLand)], MiddleStory(o, sc, b.world, sure, FailedBefore(b.log, row.id)));
    SameMiddle(o, sc, b.world, row, FailedBefore(b.log, row.id));
  }

  lemma SameMiddle<W>(o: Opts, sc: Script<W>, w: W, row: Row, failed: bool)
    ensures MiddleStory(o, sc, w, row.(status := Landed), failed) == MiddleStory(o, sc, w, row, failed)
  {
  }

  /** The status an undo records, told from the lines: undone if all are compensated or skipped; failed if the
      others were all not attempted and none compensated; and partially undone otherwise. */
  lemma FinalStatusExact(lines: seq<Line>, haltedAt: Option<int>)
    ensures var status := FinalStatus(ReportOf(lines, haltedAt));
            && (status == Undone <==> forall a :: 0 <= a < |lines| ==> lines[a].outcome in {WasCompensated, WasSkipped})
            && (status == UndoFailed <==>
                  && (forall a :: 0 <= a < |lines| ==> lines[a].outcome in {WasSkipped, NotAttempted})
                  && exists a :: 0 <= a < |lines| && lines[a].outcome == NotAttempted)
            && (status == PartiallyUndone <==>
                  && (exists a :: 0 <= a < |lines| && lines[a].outcome !in {WasSkipped, NotAttempted})
                  && exists a :: 0 <= a < |lines| && lines[a].outcome !in {WasCompensated, WasSkipped})
  {
    CountNone(lines, {WasCompensated});
    CountNone(lines, {WasFailed});
    CountNone(lines, {WasEscalated, ManualRequired});
  }

  lemma {:induction false} CountNone(lines: seq<Line>, wanted: set<Outcome>)
    ensures CountOf(lines, wanted) == 0 <==> forall a :: 0 <= a < |lines| ==> lines[a].outcome !in wanted
  {
    if lines != [] {
      CountNone(lines[..|lines| - 1], wanted);
    }
  }

  /** The transitions of a compensation state. */
  lemma TransitionsExact(from: Comp, to: Comp)
    ensures MayMove(from, to) <==> from == to || (from, to) in {
      (Available, Planned), (Available, Escalated), (Available, NoneRequired), (Available, Unavailable),
      (Planned, Verified), (Planned, Executing), (Planned, Escalated), (Verified, Executing), (Verified, Escalated),
      (Executing, Compensated), (Executing, Comp.Failed), (Executing, Escalated),
      (Comp.Failed, Escalated), (Unavailable, Escalated), (Escalated, ManuallyResolved) }
  {
  }

  /** The lines, by place, with one of these outcomes. */
  function Places(lines: seq<Line>, wanted: set<Outcome>): set<nat> {
    set a: nat | a < |lines| && lines[a].outcome in wanted
  }

  lemma {:induction false} CountPlaces(lines: seq<Line>, wanted: set<Outcome>)
    ensures CountOf(lines, wanted) == |Places(lines, wanted)|
  {
    if lines != [] {
      var n := |lines| - 1;
      CountPlaces(lines[..n], wanted);
      assert Places(lines, wanted) == Places(lines[..n], wanted) + if lines[n].outcome in wanted then {n} else {};
    }
  }

  /** The numbers of a report count its lines. */
  lemma ReportCounts(lines: seq<Line>, haltedAt: Option<int>)
    ensures var rep := ReportOf(lines, haltedAt);
            && rep.lines == lines && rep.haltedAt == haltedAt
            && rep.compensated == |Places(lines, {WasCompensated})| && rep.skipped == |Places(lines, {WasSkipped})|
            && rep.failed == |Places(lines, {WasFailed})| && rep.escalated == |Places(lines, {WasEscalated, ManualRequired})|
            && rep.attempted == |Places(lines, {WasCompensated, WasSkipped, WasFailed, WasEscalated, ManualRequired})|
            && (rep.worldRestored <==>
                  lines != [] && forall a :: 0 <= a < |lines| ==> lines[a].outcome == WasCompensated && lines[a].completeness == Some(Full))
  {
    CountPlaces(lines, {WasCompensated});
    CountPlaces(lines, {WasSkipped});
    CountPlaces(lines, {WasFailed});
    CountPlaces(lines, {WasEscalated, ManualRequired});
    CountPlaces(lines, {WasCompensated, WasSkipped, WasFailed, WasEscalated, ManualRequired});
    assert {WasCompensated, WasSkipped, WasFailed, WasEscalated, ManualRequired}
           == {WasCompensated, WasFailed, WasEscalated, WasSkipped, ManualRequired};
  }

  lemma {:induction false} AppendAllStatus<W>(b: Books<W>, id: string, kinds: seq<Kind>)
    requires forall k :: k in kinds ==> !k.SagaUndone?
    ensures AppendAll(b, id, kinds).status == b.status
  {
    if kinds != [] { AppendAllStatus(b, id, kinds[..|kinds| - 1]); }
  }

  lemma {:induction false} ProbesOnly(answers: seq<bool>)
    ensures forall k :: k in Probes(answers) ==> k == EffectInDoubt || k.EffectProbed?
  {
    if answers != [] { ProbesOnly(answers[..|answers| - 1]); }
  }

  lemma ConcludeStatus<W>(o: Opts, sc: Script<W>, b: Books<W>, row: Row, x: Exec, c: Completeness)
    ensures Conclude(o, sc, b, row, x, c).books.status == b.status
  {
    hide Upsert, ApplyEvent, FailedBefore, StopsAt;
  }

  lemma AttemptStatus<W>(o: Opts, sc: Script<W>, b: Books<W>, row: Row)
    ensures Attempt(o, sc, b, row).books.status == b.status
  {
    hide Upsert, ApplyEvent, StopsAt, AllowedFrom, AppendAll, Conclude;
    match sc.compiled(b.world)
    case Rejected(_) =>
    case Plan(manual, highCascade, c) =>
      var b1 := Append(b, Event(row.id, CompensationPlanned));
      var running := row.(comp := Executing);
      var (world, x) := sc.execute(b1.world);
      var b2 := Persist(b1, running).(world := world);
      ProbesOnly(x.probes);
      AppendAllStatus(b2, row.id, Logged(x));
      ConcludeStatus(o, sc, AppendAll(b2, row.id, Logged(x)), running, x, c);
  }

  lemma SettleStatus<W>(o: Opts, sc: Script<W>, b: Books<W>, row: Row)
    ensures Settle(o, sc, b, row).books.status == b.status
  {
    forall b': Books<W>, row': Row ensures Attempt(o, sc, b', row').books.status == b'.status { AttemptStatus(o, sc, b', row'); }
    hide Upsert, ApplyEvent, StopsAt, Attempt;
  }

  lemma {:induction false} UptoStatus<W>(o: Opts, script: string -> Script<W>, b: Books<W>, all: seq<Row>, n: nat)
    requires n <= |all|
    ensures Upto(o, script, b, all, n).books.status == b.status
  {
    hide Settle;
    if n > 0 {
      UptoStatus(o, script, b, all, n - 1);
      SettleStatus(o, script(all[n - 1].id), Upto(o, script, b, all, n - 1).books, all[n - 1]);
    }
  }

  /** What a pass makes of the saga's status: a dry run leaves it; a pass that throws leaves it undoing; any other
      logs and stores the final status of its report as its last event. */
  lemma StatusExact<W>(o: Opts, script: string -> Script<W>, b: Books<W>)
    ensures var (b', result) := UndoSaga(o, script, b);
            && (o.dryRun ==> b'.status == b.status)
            && (!o.dryRun && result.Failure? ==> b'.status == Undoing)
            && (!o.dryRun && !result.Failure? ==>
                  && b'.status == FinalStatus(result.report) && |b'.log| > 0
                  && b'.log[|b'.log| - 1] == Event("", SagaUndone(b'.status)))
  {
    hide Upto, ReportOf, FinalStatus, ApplyEvent;
    UptoStatus(o, script, Begin(o, b), Reverse(b.rows), |b.rows|);
  }
}
