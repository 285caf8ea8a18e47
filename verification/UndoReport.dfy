/** The report of an undo pass: order, coverage, accounting, and what `world_restored` implies. */
module UndoReport {
  import opened Options
  import opened Projections
  import opened Undo
  import opened UndoEngine
  import opened UndoLaws

  /** Seqs as `openEffect` hands them out. */
  ghost predicate Ascending(rows: seq<Row>) {
    forall i, j :: 0 <= i < j < |rows| ==> rows[i].seqNo < rows[j].seqNo
  }

  ghost predicate Descending(lines: seq<Line>) {
    forall i, j :: 0 <= i < j < |lines| ==> lines[i].seqNo > lines[j].seqNo
  }

  predicate LineFor(line: Line, row: Row) {
    line.id == row.id && line.seqNo == row.seqNo
  }

  /** The line stands for an eligible row from index `m` up, attempted only at or above `toSeq`. */
  ghost predicate Stems(o: Opts, rows: seq<Row>, m: nat, line: Line) {
    exists i :: m <= i < |rows| && LineFor(line, rows[i]) && Eligible(rows[i])
                && (line.outcome != NotAttempted ==> AtOrAbove(o, rows[i]))
  }

  ghost predicate Reports(lines: seq<Line>, row: Row) {
    exists a :: 0 <= a < |lines| && LineFor(lines[a], row)
  }

  /** Nothing below the halting effect was attempted. */
  ghost predicate StoppedAt(lines: seq<Line>, haltedAt: Option<int>) {
    haltedAt.Some? ==>
      forall a :: 0 <= a < |lines| && lines[a].outcome != NotAttempted ==> lines[a].seqNo >= haltedAt.value
  }

  /** After the pass has visited the rows from index `m` up. */
  ghost predicate Accounted<W>(o: Opts, rows: seq<Row>, m: nat, r: Run<W>) {
    && m <= |rows| && Descending(r.lines)
    && (forall a :: 0 <= a < |r.lines| ==> Stems(o, rows, m, r.lines[a]))
    && (forall i :: m <= i < |rows| && InWork(o, rows[i]) ==> Reports(r.lines, rows[i]))
    && (r.halt == Go <==> r.haltedAt == None)
    && StoppedAt(r.lines, r.haltedAt)
  }

  lemma SettleLine<W>(o: Opts, sc: Script<W>, b: Books<W>, row: Row)
    ensures var move := Settle(o, sc, b, row).move;
            move.Settled? ==>
              && LineFor(move.line, row) && move.line.outcome != NotAttempted
              && (move.halt != Go ==> move.line.outcome != WasCompensated)
              && (move.line.outcome == WasCompensated ==>
                    Dispatches(o, sc, b.world, row) && sc.execute(b.world).1.end.Done?)
  {
    hide Upsert, ApplyEvent, AppendAll, Logged, FailedBefore, AllowedFrom;
  }

  /** What one visit adds to the report. */
  ghost predicate Adds<W>(o: Opts, r: Run<W>, row: Row, v: Run<W>, line: Line) {
    && v.lines == r.lines + [line] && LineFor(line, row) && Eligible(row)
    && if line.outcome == NotAttempted then v.halt == r.halt && v.haltedAt == r.haltedAt
       else r.halt == Go && AtOrAbove(o, row) && v.haltedAt == if v.halt == Go then r.haltedAt else Some(row.seqNo)
  }

  lemma VisitLine<W>(o: Opts, sc: Script<W>, r: Run<W>, row: Row)
    requires r.threw == None && Visit(o, sc, r, row).threw == None
    ensures var v := Visit(o, sc, r, row);
            || (v.lines == r.lines && !InWork(o, row) && v.halt == r.halt && v.haltedAt == r.haltedAt)
            || exists line :: Adds(o, r, row, v, line)
  {
    hide Settle;
    SettleLine(o, sc, r.books, row);
    var v := Visit(o, sc, r, row);
    if v.lines != r.lines {
      assert Adds(o, r, row, v, v.lines[|v.lines| - 1]);
    }
  }

  lemma AccountedStep<W>(o: Opts, sc: Script<W>, rows: seq<Row>, k: nat, r: Run<W>)
    requires Ascending(rows) && k < |rows| && Accounted(o, rows, k + 1, r)
    requires r.threw == None && Visit(o, sc, r, rows[k]).threw == None
    ensures Accounted(o, rows, k, Visit(o, sc, r, rows[k]))
  {
    hide Visit, Eligible, AtOrAbove;
    var v, row := Visit(o, sc, r, rows[k]), rows[k];
    VisitLine(o, sc, r, row);
    forall a | 0 <= a < |r.lines| ensures r.lines[a].seqNo > row.seqNo && Stems(o, rows, k, r.lines[a]) {
      assert Stems(o, rows, k + 1, r.lines[a]);
    }
    forall i | k <= i < |rows| && InWork(o, rows[i]) ensures Reports(v.lines, rows[i]) {
      if i > k {
        var a :| 0 <= a < |r.lines| && LineFor(r.lines[a], rows[i]);
        assert LineFor(v.lines[a], rows[i]);
      } else {
        assert LineFor(v.lines[|r.lines|], rows[i]);
      }
    }
  }

  lemma {:induction false} AccountedUpto<W>(o: Opts, script: string -> Script<W>, b: Books<W>, rows: seq<Row>, n: nat)
    requires Ascending(rows) && n <= |rows|
    ensures var r := Upto(o, script, b, Reverse(rows), n);
            r.threw == None ==> Accounted(o, rows, |rows| - n, r)
  {
    hide Visit, Accounted, AtOrAbove, Eligible;
    var all := Reverse(rows);
    if n == 0 {
      NothingYet(o, script, b, rows);
    } else {
      AccountedUpto(o, script, b, rows, n - 1);
      var r := Upto(o, script, b, all, n - 1);
      if r.threw.Some? {
        ThrewStays(o, script(all[n - 1].id), r, all[n - 1]);
      } else if Visit(o, script(all[n - 1].id), r, all[n - 1]).threw == None {
        AccountedStep(o, script(all[n - 1].id), rows, |rows| - n, r);
      }
    }
  }

  lemma NothingYet<W>(o: Opts, script: string -> Script<W>, b: Books<W>, rows: seq<Row>)
    ensures Accounted(o, rows, |rows|, Upto(o, script, b, Reverse(rows), 0))
  {
  }

  /** The rows of the report strictly descend in seq; every eligible effect at or above `toSeq` has exactly
      one row; every other row is an eligible effect below `toSeq`, not attempted; and nothing below the
      halting effect is attempted. */
  lemma ReportOrder<W>(o: Opts, script: string -> Script<W>, b: Books<W>)
    requires Ascending(b.rows) && DistinctIds(b.rows) && !UndoSaga(o, script, b).1.Failure?
    ensures var rep := UndoSaga(o, script, b).1.report;
            && Descending(rep.lines)
            && (forall i :: 0 <= i < |b.rows| && InWork(o, b.rows[i]) ==> Reports(rep.lines, b.rows[i]))
            && (forall c, d :: 0 <= c < d < |rep.lines| ==> rep.lines[c].id != rep.lines[d].id)
            && (forall a :: 0 <= a < |rep.lines| ==> Stems(o, b.rows, 0, rep.lines[a]))
            && StoppedAt(rep.lines, rep.haltedAt)
  {
    hide Upto, Visit, Eligible, AtOrAbove, FinalStatus, CountOf, WorldRestored, Stems, Reports;
    AccountedUpto(o, script, Begin(o, b), b.rows, |b.rows|);
    LinesDiffer(o, b.rows, UndoSaga(o, script, b).1.report.lines);
  }

  lemma LinesDiffer(o: Opts, rows: seq<Row>, lines: seq<Line>)
    requires DistinctIds(rows) && Descending(lines) && forall a :: 0 <= a < |lines| ==> Stems(o, rows, 0, lines[a])
    ensures forall c, d :: 0 <= c < d < |lines| ==> lines[c].id != lines[d].id
  {
    forall c, d | 0 <= c < d < |lines| ensures lines[c].id != lines[d].id {
      assert Stems(o, rows, 0, lines[c]) && Stems(o, rows, 0, lines[d]);
      var i :| 0 <= i < |rows| && LineFor(lines[c], rows[i]);
      var j :| 0 <= j < |rows| && LineFor(lines[d], rows[j]);
    }
  }

  /** From the halting effect on the pass touches nothing: not the rows, not the log, not the world. */
  lemma {:induction false} HaltFreezes<W>(o: Opts, script: string -> Script<W>, b: Books<W>, all: seq<Row>, i: nat, n: nat)
    requires i <= n <= |all| && Upto(o, script, b, all, i).halt != Go
    ensures Upto(o, script, b, all, n).books == Upto(o, script, b, all, i).books
    ensures Upto(o, script, b, all, n).halt == Upto(o, script, b, all, i).halt
    ensures Upto(o, script, b, all, n).haltedAt == Upto(o, script, b, all, i).haltedAt
    decreases n - i
  {
    hide Settle;
    if i < n { HaltFreezes(o, script, b, all, i, n - 1); }
  }

  lemma {:induction false} CountSplits(lines: seq<Line>, a: set<Outcome>, b: set<Outcome>)
    requires a !! b
    ensures CountOf(lines, a + b) == CountOf(lines, a) + CountOf(lines, b)
  {
    if lines != [] { CountSplits(lines[..|lines| - 1], a, b); }
  }

  /** attempted = compensated + skipped + failed + escalated. */
  lemma CountsAdd(lines: seq<Line>, haltedAt: Option<int>)
    ensures var rep := ReportOf(lines, haltedAt);
            rep.attempted == rep.compensated + rep.skipped + rep.failed + rep.escalated
  {
    CountSplits(lines, {WasCompensated}, {WasSkipped});
    CountSplits(lines, {WasCompensated, WasSkipped}, {WasFailed});
    CountSplits(lines, {WasCompensated, WasSkipped, WasFailed}, {WasEscalated, ManualRequired});
    assert {WasCompensated} + {WasSkipped} == {WasCompensated, WasSkipped};
    assert {WasCompensated, WasSkipped} + {WasFailed} == {WasCompensated, WasSkipped, WasFailed};
    assert {WasCompensated, WasSkipped, WasFailed} + {WasEscalated, ManualRequired}
           == {WasCompensated, WasFailed, WasEscalated, WasSkipped, ManualRequired};
  }

  /** `world_restored`: at least one effect, every eligible effect of the saga compensated in full, none left
      below `toSeq`, no halt, and the saga recorded as undone. */
  lemma RestoredMeansAll<W>(o: Opts, script: string -> Script<W>, b: Books<W>)
    requires Ascending(b.rows) && !UndoSaga(o, script, b).1.Failure?
    requires UndoSaga(o, script, b).1.report.worldRestored
    ensures var (b', result) := UndoSaga(o, script, b);
            && result.Reported? && result.report.haltedAt == None && b'.status == Undone && !o.dryRun
            && (exists i :: 0 <= i < |b.rows| && InWork(o, b.rows[i]))
            && (forall i :: 0 <= i < |b.rows| && Eligible(b.rows[i]) ==>
                  AtOrAbove(o, b.rows[i]) && RestoredAt(o, script, b, i))
  {
    hide Upto, Visit, CountOf, Eligible, AtOrAbove;
    var n := |b.rows|;
    AccountedUpto(o, script, Begin(o, b), b.rows, n);
    var r := Upto(o, script, Begin(o, b), Reverse(b.rows), n);
    RestoredRun(o, script, b, n);
    assert Stems(o, b.rows, 0, r.lines[0]);
    var i :| 0 <= i < n && LineFor(r.lines[0], b.rows[i]) && Eligible(b.rows[i])
             && (r.lines[0].outcome != NotAttempted ==> AtOrAbove(o, b.rows[i]));
    assert InWork(o, b.rows[i]) && RestoredAt(o, script, b, i);
  }

  /** When the pass came to row `i` it ran the effect's plan, and the run ended well. */
  predicate RestoredAt<W>(o: Opts, script: string -> Script<W>, b: Books<W>, i: nat)
    requires i < |b.rows|
  {
    var r := Before(o, script, b, i);
    && r.threw == None && r.halt == Go
    && Dispatches(o, script(b.rows[i].id), r.books.world, b.rows[i])
    && script(b.rows[i].id).execute(r.books.world).1.end.Done?
  }

  /** A pass whose lines are all compensated in full never halted, and ran every eligible row it met. */
  lemma {:induction false} RestoredRun<W>(o: Opts, script: string -> Script<W>, b: Books<W>, n: nat)
    requires n <= |b.rows|
    requires var r := Upto(o, script, Begin(o, b), Reverse(b.rows), n);
             r.threw == None && forall a :: 0 <= a < |r.lines| ==> r.lines[a].outcome == WasCompensated
    ensures Upto(o, script, Begin(o, b), Reverse(b.rows), n).halt == Go
    ensures forall i :: |b.rows| - n <= i < |b.rows| && Eligible(b.rows[i]) ==>
              AtOrAbove(o, b.rows[i]) && RestoredAt(o, script, b, i)
  {
    hide Settle, Dispatches, Eligible, AtOrAbove;
    if n > 0 {
      var r, k := Upto(o, script, Begin(o, b), Reverse(b.rows), n - 1), |b.rows| - n;
      var row, sc := b.rows[k], script(b.rows[k].id);
      var v := Visit(o, sc, r, row);
      assert r.threw == None;
      assert forall a :: 0 <= a < |r.lines| ==> r.lines[a] == v.lines[a];
      RestoredRun(o, script, b, n - 1);
      SettleLine(o, sc, r.books, row);
      if Eligible(row) {
        assert v.lines[|r.lines|].outcome == WasCompensated;
      }
    }
  }

  // ---------------------------------------------------------------- running undo again

  /** Exactly when `undoSaga` throws VR5012 on an effect: its plan would run, and either the run throws it or
      an earlier undo left the effect failed or escalated. */
  lemma RerunRefused<W>(o: Opts, sc: Script<W>, b: Books<W>, row: Row)
    requires Eligible(row) && row.status == Landed && !o.dryRun
    ensures Settle(o, sc, b, row).move == Threw("VR5012") <==>
              Runnable(sc, b.world, row)
              && match row.comp
                 case Failed => true
                 case Escalated => true
                 case Unavailable => false
                 case _ => Thrown(sc.execute(b.world).1) == Some("VR5012")
  {
    hide Upsert, ApplyEvent, Logged, AppendAll, FailedBefore;
  }

  /** An undo repeated over an escalated effect throws and leaves it planned, so that repeating it once more
      runs the plan. */
  lemma RefusedThenRuns<W>(o: Opts, sc: Script<W>, b: Books<W>, k: nat, row: Row)
    requires CompAgrees(b) && k < |b.rows| && b.rows[k] == row && row.comp == Escalated && row.status == Landed
    requires Runnable(sc, b.world, row) && !o.dryRun
    ensures var turn := Settle(o, sc, b, row);
            && turn.move == Threw("VR5012")
            && CompAgrees(turn.books) && turn.books.rows[k] == row.(comp := Planned)
            && Dispatches(o, sc, turn.books.world, turn.books.rows[k])
  {
    FoldSnoc(b.log, Event(row.id, CompensationPlanned));
  }
}
