/** `undoSaga`: one pass over the effects, last first, writing both the event log and the stored rows. */
module Undo {
  import opened Options
  import opened Projections

  datatype Completeness = Full | Partial | BestEffort

  datatype Opts = Opts(dryRun: bool, toSeq: Option<int>, haltOnFailure: Option<bool>, continueOnFailure: Option<bool>)

  /** What `compileFor` answers for an effect. */
  datatype Compiled =
    | Rejected(code: string)
    | Plan(manual: bool, highCascade: bool, completeness: Completeness)

  /** How `executePlan` ends. `NotOk`: it escalates and returns without running. `Early`: it throws before
      its main block. `Broke`: a throw out of the main block. `Unresolved` is VR2020. */
  datatype End =
    | Done
    | NotOk(code: string)
    | Early(code: string, raised: bool)
    | Unresolved
    | Broke(code: string, raised: bool)

  /** One run of `executePlan`: the answers of the probes it sent on the way, and its end. */
  datatype Exec = Exec(probes: seq<bool>, end: End)

  /** Everything outside the ledger that decides what happens to one effect. Compiling looks at the world
      too, when the pass comes to the effect: the scope check of a file step reads the file's identity. */
  datatype Script<!W> = Script(
    independent: bool,
    probe: W -> Answer,
    compiled: W -> Compiled,
    execute: W -> (W, Exec))

  datatype Outcome = WasCompensated | WasFailed | WasEscalated | WasSkipped | ManualRequired | NotAttempted

  datatype Line = Line(seqNo: int, id: string, outcome: Outcome, completeness: Option<Completeness>, code: string)

  /** The ledger of one saga, and the world outside it. */
  datatype Books<W> = Books(rows: seq<Row>, log: seq<Event>, status: SagaStatus, world: W)

  datatype Halt = Go | Stop | Blocked

  /** How one effect of the work list ends: a line of the report, or an exception out of the pass. */
  datatype Move = Settled(line: Line, halt: Halt) | Threw(code: string)

  datatype Turn<W> = Turn(books: Books<W>, move: Move)

  datatype Report = Report(
    attempted: nat, compensated: nat, skipped: nat, failed: nat, escalated: nat,
    haltedAt: Option<int>, lines: seq<Line>, worldRestored: bool)

  datatype Result =
    | Reported(report: Report)
    | BlockedBy(report: Report)
    | Failure(code: string)

  // ---------------------------------------------------------------- rules

  predicate TerminalSkip(c: Comp) {
    c == Compensated || c == NoneRequired || c == Superseded || c == ManuallyResolved
  }

  predicate Eligible(row: Row) {
    (row.status == Landed || row.status == InDoubt) && !TerminalSkip(row.comp)
  }

  predicate AtOrAbove(o: Opts, row: Row) {
    o.toSeq.Some? ==> row.seqNo >= o.toSeq.value
  }

  predicate InWork(o: Opts, row: Row) {
    Eligible(row) && AtOrAbove(o, row)
  }

  predicate HaltsOnFailure(o: Opts) {
    o.haltOnFailure != Some(false) && o.continueOnFailure != Some(true)
  }

  /** `ALLOWED`. */
  function AllowedFrom(c: Comp): set<Comp> {
    match c
    case Available => {Planned, Escalated, NoneRequired, Unavailable}
    case Planned => {Verified, Executing, Escalated}
    case Verified => {Executing, Escalated}
    case Executing => {Compensated, Failed, Escalated}
    case Failed => {Escalated}
    case Escalated => {ManuallyResolved}
    case Unavailable => {Escalated}
    case _ => {}
  }

  /** `transition`; a refusal is VR5012. */
  predicate MayMove(from: Comp, to: Comp) {
    from == to || to in AllowedFrom(from)
  }

  // ---------------------------------------------------------------- specification

  /** `append` of the SQL ledger: the event is logged and folded into the stored projections. */
  function Append<W>(b: Books<W>, ev: Event): Books<W> {
    b.(log := b.log + [ev], rows := ApplyEvent(b.rows, ev), status := SagaAfter(b.status, ev))
  }

  function AppendAll<W>(b: Books<W>, id: string, kinds: seq<Kind>): Books<W> {
    if kinds == [] then b else Append(AppendAll(b, id, kinds[..|kinds| - 1]), Event(id, kinds[|kinds| - 1]))
  }

  function Persist<W>(b: Books<W>, row: Row): Books<W> {
    b.(rows := Upsert(b.rows, row))
  }

  function Probes(answers: seq<bool>): seq<Kind> {
    if answers == [] then []
    else Probes(answers[..|answers| - 1])
         + [EffectInDoubt, EffectProbed(if answers[|answers| - 1] then DidLand else DidNotLand)]
  }

  /** What `executePlan` logs as it ends. */
  function Closing(x: Exec): seq<Kind> {
    match x.end
    case NotOk(_) => [EscalationRaised]
    case Early(_, raised) => if raised then [EscalationRaised] else []
    case Done => [CompensationExecuted]
    case Unresolved => [EffectInDoubt, EffectProbed(Unknown), EscalationRaised]
    case Broke(code, raised) =>
      (if raised then [EscalationRaised] else [])
      + if code != "VR4005" && code != "VR2020" then [CompensationFailed] else []
  }

  /** What one run of `executePlan` appends to the log. */
  function Logged(x: Exec): seq<Kind> {
    (if x.end.NotOk? || x.end.Early? then [] else Probes(x.probes)) + Closing(x)
  }

  function Thrown(x: Exec): Option<string> {
    match x.end
    case Early(code, _) => Some(code)
    case Unresolved => Some("VR2020")
    case Broke(code, _) => Some(code)
    case _ => None
  }

  predicate FailedBefore(log: seq<Event>, id: string) {
    exists i :: 0 <= i < |log| && log[i] == Event(id, CompensationFailed)
  }

  function Plain(row: Row, outcome: Outcome, code: string): Line {
    Line(row.seqNo, row.id, outcome, None, code)
  }

  function StopsAt<W>(o: Opts, sc: Script<W>): Halt {
    if HaltsOnFailure(o) && !sc.independent then Stop else Go
  }

  function Raise<W>(b: Books<W>, row: Row): Books<W> {
    Append(b, Event(row.id, EscalationRaised))
  }

  /** After `executePlan`: settle the row by how the run ended. `row` is in state executing. */
  function Conclude<W>(o: Opts, sc: Script<W>, b: Books<W>, row: Row, x: Exec, c: Completeness): Turn<W> {
    var thrown := Thrown(x);
    if thrown == None then
      if x.end.NotOk? then
        Turn(Persist(b, row.(comp := Escalated)),
             Settled(Line(row.seqNo, row.id, WasEscalated, Some(c), x.end.code), StopsAt(o, sc)))
      else
        Turn(Persist(b, row.(comp := Compensated)), Settled(Line(row.seqNo, row.id, WasCompensated, Some(c), ""), Go))
    else if thrown.value == "VR5010" || thrown.value == "VR5012" then Turn(b, Threw(thrown.value))
    else if thrown.value == "VR2020" then
      Turn(Persist(Raise(b, row), row.(comp := Escalated)), Settled(Plain(row, WasEscalated, "VR5011"), Blocked))
    else
      var b1 := Persist(b, row.(comp := Failed));
      var b2 := if FailedBefore(b1.log, row.id) then b1 else Append(b1, Event(row.id, CompensationFailed));
      Turn(Persist(Raise(b2, row), row.(comp := Escalated)),
           Settled(Line(row.seqNo, row.id, WasFailed, Some(c), thrown.value), StopsAt(o, sc)))
  }

  /** Compile, refuse or run; `row` has left state available. */
  function Attempt<W>(o: Opts, sc: Script<W>, b: Books<W>, row: Row): Turn<W> {
    match sc.compiled(b.world)
    case Rejected(code) =>
      var b1 := Raise(b, row);
      if !MayMove(row.comp, Escalated) then Turn(b1, Threw("VR5012"))
      else Turn(Persist(b1, row.(comp := Escalated)), Settled(Plain(row, WasEscalated, code), StopsAt(o, sc)))
    case Plan(manual, highCascade, c) =>
      var b1 := Append(b, Event(row.id, CompensationPlanned));
      if manual || row.t4 || highCascade then
        Turn(Persist(Raise(b1, row), row.(comp := Escalated)),
             Settled(Line(row.seqNo, row.id, if manual || row.t4 then ManualRequired else WasEscalated, Some(c), "VR1010"),
                     StopsAt(o, sc)))
      else if !MayMove(row.comp, Executing) then Turn(b1, Threw("VR5012"))
      else
        var running := row.(comp := Executing);
        var (world, x) := sc.execute(b1.world);
        Conclude(o, sc, AppendAll(Persist(b1, running).(world := world), row.id, Logged(x)), running, x, c)
  }

  function Compensate<W>(o: Opts, sc: Script<W>, b: Books<W>, row: Row): Turn<W> {
    if o.dryRun then Turn(b, Settled(Line(row.seqNo, row.id, WasSkipped, Some(Full), ""), Go))
    else if row.comp == Unavailable then
      Turn(Persist(Raise(b, row), row.(comp := Escalated)),
           Settled(Plain(row, WasEscalated, if row.t4 then "VR1010" else "VR3001"), StopsAt(o, sc)))
    else if row.comp == Available then
      var planned := row.(comp := Planned);
      Attempt(o, sc, Append(Persist(b, planned), Event(row.id, CompensationPlanned)), planned)
    else Attempt(o, sc, b, row)
  }

  /** One effect of the work list, from its probe if it is in doubt to its line in the report. */
  function Settle<W>(o: Opts, sc: Script<W>, b: Books<W>, row: Row): Turn<W> {
    if row.status != InDoubt then Compensate(o, sc, b, row)
    else
      var answer := sc.probe(b.world);
      var b1 := Append(b, Event(row.id, EffectProbed(answer)));
      match answer
      case DidLand =>
        var sure := row.(status := Landed);
        Compensate(o, sc, Persist(b1, sure), sure)
      case DidNotLand =>
        var gone := row.(status := Abandoned, comp := NoneRequired);
        Turn(Append(Persist(b1, gone), Event(row.id, CompensationSkipped("abandoned"))),
             Settled(Line(row.seqNo, row.id, WasSkipped, Some(Full), ""), Go))
      case Unknown => Turn(Raise(Raise(b1, row), row), Settled(Plain(row, WasEscalated, "VR5011"), Blocked))
  }

  /** The pass, part way through. */
  datatype Run<W> = Run(books: Books<W>, lines: seq<Line>, halt: Halt, haltedAt: Option<int>, threw: Option<string>)

  function Visit<W>(o: Opts, sc: Script<W>, r: Run<W>, row: Row): Run<W> {
    if r.threw.Some? then r
    else if r.halt != Go || !InWork(o, row) then
      if Eligible(row) && (if r.halt != Go then AtOrAbove(o, row) else !AtOrAbove(o, row))
      then r.(lines := r.lines + [Plain(row, NotAttempted, "")]) else r
    else
      match Settle(o, sc, r.books, row)
      case Turn(b, Threw(code)) => r.(books := b, threw := Some(code))
      case Turn(b, Settled(line, halt)) =>
        Run(b, r.lines + [line], halt, if halt == Go then r.haltedAt else Some(row.seqNo), None)
  }

  /** The pass over the first `n` rows of `all`. */
  function Upto<W>(o: Opts, script: string -> Script<W>, b: Books<W>, all: seq<Row>, n: nat): Run<W>
    requires n <= |all|
  {
    if n == 0 then Run(b, [], Go, None, None)
    else Visit(o, script(all[n - 1].id), Upto(o, script, b, all, n - 1), all[n - 1])
  }

  function CountOf(lines: seq<Line>, wanted: set<Outcome>): nat {
    if lines == [] then 0
    else CountOf(lines[..|lines| - 1], wanted) + if lines[|lines| - 1].outcome in wanted then 1 else 0
  }

  /** `worldRestored`. */
  predicate WorldRestored(lines: seq<Line>) {
    |lines| > 0 && forall i :: 0 <= i < |lines| ==> lines[i].outcome == WasCompensated && lines[i].completeness == Some(Full)
  }

  function ReportOf(lines: seq<Line>, haltedAt: Option<int>): Report {
    Report(
      CountOf(lines, {WasCompensated, WasFailed, WasEscalated, WasSkipped, ManualRequired}),
      CountOf(lines, {WasCompensated}), CountOf(lines, {WasSkipped}), CountOf(lines, {WasFailed}),
      CountOf(lines, {WasEscalated, ManualRequired}), haltedAt, lines, WorldRestored(lines))
  }

  function FinalStatus(rep: Report): SagaStatus {
    if rep.worldRestored
       || (rep.failed == 0 && rep.escalated == 0
           && forall i :: 0 <= i < |rep.lines| ==> rep.lines[i].outcome == WasCompensated || rep.lines[i].outcome == WasSkipped)
    then Undone
    else if rep.compensated > 0 || rep.failed > 0 || rep.escalated > 0 then PartiallyUndone
    else UndoFailed
  }

  function Begin<W>(o: Opts, b: Books<W>): Books<W> {
    if o.dryRun then b else b.(status := Undoing)
  }

  function Finish<W>(o: Opts, r: Run<W>): (Books<W>, Result) {
    if r.threw.Some? then (r.books, Failure(r.threw.value))
    else
      var rep := ReportOf(r.lines, r.haltedAt);
      (if o.dryRun then r.books else Append(r.books, Event("", SagaUndone(FinalStatus(rep)))),
       if r.halt == Blocked then BlockedBy(rep) else Reported(rep))
  }

  function Reverse(rows: seq<Row>): (r: seq<Row>)
    ensures |r| == |rows| && forall i :: 0 <= i < |rows| ==> r[i] == rows[|rows| - 1 - i]
  {
    if rows == [] then [] else [rows[|rows| - 1]] + Reverse(rows[..|rows| - 1])
  }

  /** `undoSaga` on the ledger of a saga, whose rows come in ascending order of seq. */
  function UndoSaga<W>(o: Opts, script: string -> Script<W>, b: Books<W>): (Books<W>, Result) {
    Finish(o, Upto(o, script, Begin(o, b), Reverse(b.rows), |b.rows|))
  }
}
