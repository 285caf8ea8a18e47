/** The undo pass as the engine runs it: a loop over row copies that updates the ledger in place. */
module UndoEngine {
  import opened Options
  import opened Projections
  import opened Undo

  predicate DistinctIds(rows: seq<Row>) {
    forall i, j :: 0 <= i < j < |rows| ==> rows[i].id != rows[j].id
  }

  /** The SQL ledger of one saga: rows handed out are copies, appending folds the event into the stored row. */
  class SagaLedger<W> {
    var rows: seq<Row>
    var log: seq<Event>
    var status: SagaStatus
    var world: W

    ghost function Contents(): Books<W>
      reads this
    {
      Books(rows, log, status, world)
    }

    constructor (rows: seq<Row>, log: seq<Event>, status: SagaStatus, world: W)
      ensures Contents() == Books(rows, log, status, world)
    {
      this.rows, this.log, this.status, this.world := rows, log, status, world;
    }

    method Append(ev: Event)
      modifies this
      ensures Contents() == Undo.Append(old(Contents()), ev)
    {
      log := log + [ev];
      rows := ApplyEvent(rows, ev);
      status := SagaAfter(status, ev);
    }

    method AppendAll(id: string, kinds: seq<Kind>)
      modifies this
      ensures Contents() == Undo.AppendAll(old(Contents()), id, kinds)
    {
      var i := 0;
      while i < |kinds|
        invariant 0 <= i <= |kinds|
        invariant Contents() == Undo.AppendAll(old(Contents()), id, kinds[..i])
      {
        Append(Event(id, kinds[i]));
        assert kinds[..i + 1][..i] == kinds[..i];
        i := i + 1;
      }
      assert kinds[..i] == kinds;
    }

    method PersistState(row: Row, to: Comp) returns (copy: Row)
      modifies this
      ensures copy == row.(comp := to) && Contents() == Persist(old(Contents()), copy)
    {
      copy := row.(comp := to);
      rows := Upsert(rows, copy);
    }

    method Raise(row: Row)
      modifies this
      ensures Contents() == Undo.Raise(old(Contents()), row)
    {
      Append(Event(row.id, EscalationRaised));
    }

    method FailedAlready(id: string) returns (yes: bool)
      ensures yes == FailedBefore(log, id)
    {
      var i := 0;
      while i < |log|
        invariant 0 <= i <= |log|
        invariant forall j :: 0 <= j < i ==> log[j] != Event(id, CompensationFailed)
      {
        if log[i] == Event(id, CompensationFailed) { return true; }
        i := i + 1;
      }
      return false;
    }

    /** `executePlan` and the handling of how it ended. */
    method Execute(o: Opts, sc: Script<W>, running: Row, c: Completeness) returns (move: Move)
      modifies this
      ensures var (w, x) := sc.execute(old(world));
              Turn(Contents(), move)
              == Conclude(o, sc, Undo.AppendAll(old(Contents()).(world := w), running.id, Logged(x)), running, x, c)
    {
      hide Logged, Probes, FailedBefore, Upsert, ApplyEvent;
      var (w, x) := sc.execute(world);
      world := w;
      AppendAll(running.id, Logged(x));
      var row := running;
      match x.end {
        case NotOk(code) =>
          row := PersistState(row, Escalated);
          return Settled(Line(row.seqNo, row.id, WasEscalated, Some(c), code), StopsAt(o, sc));
        case Done =>
          row := PersistState(row, Compensated);
          return Settled(Line(row.seqNo, row.id, WasCompensated, Some(c), ""), Go);
        case _ =>
      }
      var code := Thrown(x).value;
      if code == "VR5010" || code == "VR5012" { return Threw(code); }
      if code == "VR2020" {
        Raise(row);
        row := PersistState(row, Escalated);
        return Settled(Plain(row, WasEscalated, "VR5011"), Blocked);
      }
      row := PersistState(row, Failed);
      var already := FailedAlready(row.id);
      if !already { Append(Event(row.id, CompensationFailed)); }
      Raise(row);
      row := PersistState(row, Escalated);
      return Settled(Line(row.seqNo, row.id, WasFailed, Some(c), code), StopsAt(o, sc));
    }

    /** Compile, then refuse, escalate or run. */
    method Attempt(o: Opts, sc: Script<W>, given: Row) returns (move: Move)
      modifies this
      ensures Turn(Contents(), move) == Undo.Attempt(o, sc, old(Contents()), given)
    {
      hide Logged, Upsert, ApplyEvent, Conclude;
      var row := given;
      match sc.compiled(world) {
        case Rejected(code) =>
          Raise(row);
          if !MayMove(row.comp, Escalated) { return Threw("VR5012"); }
          row := PersistState(row, Escalated);
          return Settled(Plain(row, WasEscalated, code), StopsAt(o, sc));
        case Plan(manual, highCascade, c) =>
          Append(Event(row.id, CompensationPlanned));
          if manual || row.t4 {
            Raise(row);
            row := PersistState(row, Escalated);
            return Settled(Line(row.seqNo, row.id, ManualRequired, Some(c), "VR1010"), StopsAt(o, sc));
          }
          if highCascade {
            Raise(row);
            row := PersistState(row, Escalated);
            return Settled(Line(row.seqNo, row.id, WasEscalated, Some(c), "VR1010"), StopsAt(o, sc));
          }
          if !MayMove(row.comp, Executing) { return Threw("VR5012"); }
          row := PersistState(row, Executing);
          move := Execute(o, sc, row, c);
      }
    }

    method Compensate(o: Opts, sc: Script<W>, given: Row) returns (move: Move)
      modifies this
      ensures Turn(Contents(), move) == Undo.Compensate(o, sc, old(Contents()), given)
    {
      hide Upsert, ApplyEvent, Undo.Attempt;
      var row := given;
      if o.dryRun {
        return Settled(Line(row.seqNo, row.id, WasSkipped, Some(Full), ""), Go);
      }
      if row.comp == Unavailable {
        Raise(row);
        row := PersistState(row, Escalated);
        return Settled(Plain(row, WasEscalated, if row.t4 then "VR1010" else "VR3001"), StopsAt(o, sc));
      }
      if row.comp == Available {
        row := PersistState(row, Planned);
        Append(Event(row.id, CompensationPlanned));
      }
      move := Attempt(o, sc, row);
    }

    /** One effect of the work list. */
    method Settle(o: Opts, sc: Script<W>, given: Row) returns (move: Move)
      modifies this
      ensures Turn(Contents(), move) == Undo.Settle(o, sc, old(Contents()), given)
    {
      hide Upsert, ApplyEvent, Undo.Compensate;
      var row := given;
      if row.status == InDoubt {
        var answer := sc.probe(world);
        Append(Event(row.id, EffectProbed(answer)));
        match answer {
          case DidLand =>
            row := row.(status := Landed);
            rows := Upsert(rows, row);
          case DidNotLand =>
            row := PersistState(row.(status := Abandoned), NoneRequired);
            Append(Event(row.id, CompensationSkipped("abandoned")));
            return Settled(Line(row.seqNo, row.id, WasSkipped, Some(Full), ""), Go);
          case Unknown =>
            Raise(row);
            Raise(row);
            return Settled(Plain(row, WasEscalated, "VR5011"), Blocked);
        }
      }
      move := Compensate(o, sc, row);
    }

    /** The ids of the rows to undo. */
    method WorkList(o: Opts, all: seq<Row>) returns (work: seq<string>)
      requires DistinctIds(all)
      ensures forall i :: 0 <= i < |all| ==> (all[i].id in work <==> InWork(o, all[i]))
    {
      work := [];
      var i := 0;
      while i < |all|
        invariant 0 <= i <= |all|
        invariant forall j :: 0 <= j < i ==> (all[j].id in work <==> InWork(o, all[j]))
        invariant forall id :: id in work ==> exists j :: 0 <= j < i && all[j].id == id
      {
        if Eligible(all[i]) && (o.toSeq == None || all[i].seqNo >= o.toSeq.value) { work := work + [all[i].id]; }
        i := i + 1;
      }
    }

    /** One turn of the loop over all rows. */
    method Visit(o: Opts, sc: Script<W>, row: Row, work: seq<string>, lines: seq<Line>, halt: Halt, haltedAt: Option<int>)
      returns (lines': seq<Line>, halt': Halt, haltedAt': Option<int>, threw: Option<string>)
      requires row.id in work <==> InWork(o, row)
      modifies this
      ensures Run(Contents(), lines', halt', haltedAt', threw)
              == Undo.Visit(o, sc, Run(old(Contents()), lines, halt, haltedAt, None), row)
    {
      hide Undo.Settle;
      lines', halt', haltedAt', threw := lines, halt, haltedAt, None;
      if halt != Go {
        if row.id in work || o.toSeq == None || row.seqNo >= o.toSeq.value {
          if Eligible(row) && (o.toSeq == None || row.seqNo >= o.toSeq.value) {
            lines' := lines + [Plain(row, NotAttempted, "")];
          }
        }
      } else if row.id !in work {
        if o.toSeq.Some? && row.seqNo < o.toSeq.value && Eligible(row) {
          lines' := lines + [Plain(row, NotAttempted, "")];
        }
      } else {
        var move := Settle(o, sc, row);
        match move {
          case Threw(code) => threw := Some(code);
          case Settled(line, stop) =>
            lines', halt' := lines + [line], stop;
            if stop != Go { haltedAt' := Some(row.seqNo); }
        }
      }
    }

    /** The whole of `undoSaga`. */
    method UndoSaga(o: Opts, script: string -> Script<W>) returns (result: Result)
      requires DistinctIds(rows)
      modifies this
      ensures (Contents(), result) == Undo.UndoSaga(o, script, old(Contents()))
    {
      hide Undo.Visit, ReportOf, FinalStatus, InWork;
      if !o.dryRun { status := Undoing; }
      var all := Reverse(rows);
      var work := WorkList(o, all);
      var lines: seq<Line> := [];
      var halt, haltedAt, threw: Option<string> := Go, None, None;
      ghost var start := Contents();
      var i := 0;
      while i < |all|
        invariant 0 <= i <= |all| && threw == None
        invariant Upto(o, script, start, all, i) == Run(Contents(), lines, halt, haltedAt, None)
      {
        lines, halt, haltedAt, threw := Visit(o, script(all[i].id), all[i], work, lines, halt, haltedAt);
        i := i + 1;
        if threw.Some? {
          UptoThrew(o, script, start, all, i, |all|);
          return Failure(threw.value);
        }
      }
      var rep := ReportOf(lines, haltedAt);
      if !o.dryRun { Append(Event("", SagaUndone(FinalStatus(rep)))); }
      result := if halt == Blocked then BlockedBy(rep) else Reported(rep);
    }
  }

  /** An exception ends the pass: no later row is looked at. */
  lemma {:induction false} UptoThrew<W>(o: Opts, script: string -> Script<W>, b: Books<W>, all: seq<Row>, i: nat, n: nat)
    requires i <= n <= |all| && Upto(o, script, b, all, i).threw.Some?
    ensures Upto(o, script, b, all, n) == Upto(o, script, b, all, i)
    decreases n - i
  {
    if i < n {
      UptoThrew(o, script, b, all, i, n - 1);
    }
  }
}
