/** Effects as the ledger projects them, and the fold of one event into the projections. */
module Projections {
  import opened Options

  datatype Status = Opened | Landed | Errored | InDoubt | Abandoned

  datatype Comp =
    | Available | Planned | Verified | Executing | Compensated | Failed
    | Escalated | Unavailable | NoneRequired | Superseded | ManuallyResolved

  datatype SagaStatus = Open | Closed | Undoing | Undone | PartiallyUndone | UndoFailed

  datatype Answer = DidLand | DidNotLand | Unknown

  datatype Kind =
    | EffectOpened(seqNo: int, t4: bool)
    | EffectClosed(to: Option<Status>)
    | EffectInDoubt
    | EffectProbed(answer: Answer)
    | CompensationUnavailable
    | CompensationPlanned
    | CompensationVerified
    | CompensationExecuted
    | CompensationFailed
    | CompensationSkipped(reason: string)
    | EscalationRaised
    | EscalationResolved
    | SagaUndone(final: SagaStatus)
    | Unprojected

  /** An event of the saga under study; saga-level events carry the empty effect id. */
  datatype Event = Event(id: string, kind: Kind)

  datatype Row = Row(id: string, seqNo: int, t4: bool, status: Status, comp: Comp)

  /** `applyEventToProjections` on the row the event names. */
  function Effected(row: Row, kind: Kind): Row {
    match kind
    case EffectClosed(to) => if to.Some? then row.(status := to.value) else row
    case EffectInDoubt => row.(status := InDoubt)
    case EffectProbed(DidLand) => row.(status := Landed)
    case EffectProbed(DidNotLand) => row.(status := Abandoned, comp := NoneRequired)
    case CompensationUnavailable => row.(comp := Unavailable)
    case CompensationPlanned => row.(comp := Planned)
    case CompensationVerified => row.(comp := Verified)
    case CompensationExecuted => row.(comp := Compensated)
    case CompensationFailed => row.(comp := Failed)
    case CompensationSkipped(reason) =>
      if reason == "t1" then row.(comp := NoneRequired)
      else if reason == "superseded" then row.(comp := Superseded)
      else if reason == "abandoned" then row.(comp := NoneRequired, status := Abandoned)
      else row.(comp := Compensated)
    case EscalationRaised => row.(comp := Escalated)
    case EscalationResolved => row.(comp := ManuallyResolved)
    case _ => row
  }

  function EmptyEffect(ev: Event): Row
    requires ev.kind.EffectOpened?
  {
    Row(ev.id, ev.kind.seqNo, ev.kind.t4, Opened, Available)
  }

  /** Write a row over the one with its id, or add it. */
  function Upsert(rows: seq<Row>, row: Row): seq<Row> {
    if exists i :: 0 <= i < |rows| && rows[i].id == row.id then
      seq(|rows|, i requires 0 <= i < |rows| => if rows[i].id == row.id then row else rows[i])
    else rows + [row]
  }

  /** `applyEventToProjections`, the effects; saga-level facts are folded by `SagaAfter`. */
  function ApplyEvent(rows: seq<Row>, ev: Event): seq<Row> {
    if ev.kind.EffectOpened? then Upsert(rows, EmptyEffect(ev))
    else seq(|rows|, i requires 0 <= i < |rows| => if rows[i].id == ev.id then Effected(rows[i], ev.kind) else rows[i])
  }

  function SagaAfter(status: SagaStatus, ev: Event): SagaStatus {
    if ev.kind.SagaUndone? then ev.kind.final else status
  }

  /** `foldEvents`: the projections rebuilt from the log alone. */
  function Fold(log: seq<Event>): seq<Row> {
    if log == [] then [] else ApplyEvent(Fold(log[..|log| - 1]), log[|log| - 1])
  }

  lemma FoldSnoc(log: seq<Event>, ev: Event)
    ensures Fold(log + [ev]) == ApplyEvent(Fold(log), ev)
  {
    assert (log + [ev])[..|log|] == log;
  }

  /** What an event makes of the effect it names: its status moves only when it is closed, probed, in doubt or
      abandoned; its compensation state only as compensation goes on; and nothing else changes. */
  lemma ProjectionExact(row: Row, kind: Kind)
    requires !kind.EffectOpened?
    ensures var r := Effected(row, kind);
            var skipped := if kind.CompensationSkipped? then Some(kind.reason) else None;
            && r == row.(status := r.status, comp := r.comp)
            && (r.status == if kind == EffectProbed(DidLand) then Landed
                            else if kind == EffectProbed(DidNotLand) || skipped == Some("abandoned") then Abandoned
                            else if kind == EffectInDoubt then Status.InDoubt
                            else if kind.EffectClosed? && kind.to != None then kind.to.value else row.status)
            && (r.comp == if kind == EffectProbed(DidNotLand) || skipped == Some("t1") || skipped == Some("abandoned") then NoneRequired
                          else if skipped == Some("superseded") then Superseded
                          else if skipped != None || kind == CompensationExecuted then Compensated
                          else if kind == CompensationUnavailable then Unavailable
                          else if kind == CompensationPlanned then Planned
                          else if kind == CompensationVerified then Verified
                          else if kind == CompensationFailed then Failed
                          else if kind == EscalationRaised then Escalated
                          else if kind == EscalationResolved then ManuallyResolved else row.comp)
  {
  }
}
