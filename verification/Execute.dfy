/** Any number of runs of `executePlan` on one plan, interleaved step by step, with crashes and time. */
module Execute {
  import opened Options

  type RunId = string
  type Key = string

  /** The sorted resource keys of the effect, the number of steps of the plan, and the limits in force. */
  datatype Params = Params(keys: seq<Key>, steps: nat, maxRetries: nat, ttl: nat)

  datatype Lease = Lease(holder: RunId, expiresAt: nat, fence: nat)

  /** A row of the attempts table; there is one per step, by the UNIQUE idempotency key. `Failed` keeps
      whether its error code may be retried and the number that `response_hash` holds. */
  datatype Attempt = Started | Succeeded | InDoubt | Failed(retryable: bool, retries: nat)

  /** Where a run is. Each is followed by one call on the ledger or on the world. */
  datatype Pc =
    | Acquiring(i: nat)
    | Inserting(step: nat)
    | Reading(step: nat)
    | Judging(step: nat, seen: Attempt)
    | Polling(step: nat)
    | Doubting(step: nat)
    | Probing(step: nat)
    | Fencing(step: nat, i: nat)
    | Dispatching(step: nat, n: nat)
    | Recording(step: nat, result: Attempt)
    | Releasing(i: nat, ok: bool, again: bool)
    | Finished(ok: bool)
    | Crashed

  datatype Local = Local(pc: Pc, fences: map<Key, nat>)

  /** The ledger, the runs, and three counters per step that no run reads: entries into the retry loop,
      dispatches that succeeded, and deaths of a run between its entry and the recording of its result. */
  datatype State = State(
    now: nat, leases: map<Key, Lease>, attempts: map<nat, Attempt>, runs: map<RunId, Local>,
    entries: seq<nat>, wins: seq<nat>, crashes: seq<nat>)

  datatype Outcome = Ok | RetryableError | FinalError

  datatype Answer = DidLand | DidNotLand | Unknown

  /** What the surroundings decide: the outcome of a dispatch, the answer of a probe, whether a wait is over. */
  datatype Choice = Choice(outcome: Outcome, answer: Answer, patience: bool)

  datatype Action =
    | Tick(ms: nat)
    | Heartbeat(run: RunId, key: Key)
    | Crash(run: RunId)
    | Move(run: RunId, choice: Choice)

  datatype FenceStatus = Fine | Fenced | HeldElsewhere | Expired | Missing

  // ---------------------------------------------------------------- the calls

  function Init(p: Params, ids: set<RunId>): State {
    var zeros := seq(p.steps, _ => 0);
    State(0, map[], map[], map r | r in ids :: Local(Acquiring(0), map[]), zeros, zeros, zeros)
  }

  /** `acquireLease` of the memory and SQL ledgers: the fence starts again when the row is gone. */
  function Acquired(p: Params, s: State, r: RunId, key: Key): Option<Lease> {
    if key in s.leases && s.leases[key].expiresAt > s.now && s.leases[key].holder != r then None
    else Some(Lease(r, s.now + p.ttl, if key in s.leases then s.leases[key].fence + 1 else 1))
  }

  function InspectFence(s: State, r: RunId, key: Key): FenceStatus
    requires r in s.runs
  {
    var held := s.runs[r].fences;
    if key !in s.leases then Missing
    else
      var current := s.leases[key];
      if key in held && current.fence != held[key] then Fenced
      else if current.holder != r then if current.expiresAt > s.now then HeldElsewhere else Fenced
      else if current.expiresAt <= s.now then Expired
      else Fine
  }

  function Goto(s: State, r: RunId, pc: Pc): State
    requires r in s.runs
  {
    s.(runs := s.runs[r := s.runs[r].(pc := pc)])
  }

  function Leave(p: Params, s: State, r: RunId, ok: bool): State
    requires r in s.runs
  {
    Goto(s, r, Releasing(|p.keys|, ok, false))
  }

  function Written(s: State, step: nat, a: Attempt): State {
    s.(attempts := s.attempts[step := a])
  }

  function Bump(c: seq<nat>, step: nat): seq<nat> {
    if step < |c| then c[step := c[step] + 1] else c
  }

  // ---------------------------------------------------------------- the run, pc by pc

  /** `acquireAll`: a refusal gives back what was taken and tries again, until patience ends. */
  function AtAcquiring(p: Params, s: State, r: RunId, c: Choice, i: nat): State
    requires r in s.runs
  {
    if i >= |p.keys| then Goto(s, r, Inserting(0))
    else match Acquired(p, s, r, p.keys[i])
      case None => Goto(s, r, Releasing(|p.keys|, false, c.patience))
      case Some(lease) =>
        s.(leases := s.leases[p.keys[i] := lease],
           runs := s.runs[r := Local(Acquiring(i + 1), s.runs[r].fences[p.keys[i] := lease.fence])])
  }

  /** `appendAttempt`, whose UNIQUE key lets one row per step in. */
  function AtInserting(p: Params, s: State, r: RunId, step: nat): State
    requires r in s.runs
  {
    if step >= p.steps then Leave(p, s, r, true)
    else if step in s.attempts then Goto(s, r, Reading(step))
    else Goto(Written(s, step, Started), r, Fencing(step, 0))
  }

  /** `handleExistingAttempt` on the row that was read. */
  function AtJudging(p: Params, s: State, r: RunId, step: nat, seen: Attempt): State
    requires r in s.runs
  {
    match seen
    case Succeeded => Goto(s, r, Inserting(step + 1))
    case Failed(retryable, retries) =>
      if retryable && retries < p.maxRetries then Goto(s, r, Fencing(step, 0)) else Leave(p, s, r, false)
    case InDoubt => Goto(s, r, Doubting(step))
    case Started =>
      if p.keys == [] then Goto(s, r, Polling(step))
      else match InspectFence(s, r, p.keys[0])
        case Fine => Goto(s, r, Fencing(step, 0))
        case Expired => Goto(s, r, Polling(step))
        case Missing => Goto(s, r, Polling(step))
        case _ => Leave(p, s, r, false)
  }

  /** One round of the wait for another run's attempt, or its end when patience is over. */
  function AtPolling(p: Params, s: State, r: RunId, c: Choice, step: nat): State
    requires r in s.runs
  {
    var lease := if p.keys != [] && p.keys[0] in s.leases then Some(s.leases[p.keys[0]]) else None;
    if step !in s.attempts then s
    else match s.attempts[step]
      case Succeeded => Goto(s, r, Inserting(step + 1))
      case Failed(_, _) => Leave(p, s, r, false)
      case InDoubt => Goto(s, r, Doubting(step))
      case Started =>
        if c.patience then
          if lease.Some? && lease.value.expiresAt <= s.now then Goto(s, r, Doubting(step)) else s
        else if lease.Some? && lease.value.expiresAt > s.now && lease.value.holder != r then Leave(p, s, r, false)
        else Goto(s, r, Doubting(step))
  }

  function AtProbing(p: Params, s: State, r: RunId, c: Choice, step: nat): State
    requires r in s.runs
  {
    match c.answer
    case Unknown => Leave(p, s, r, false)
    case DidNotLand => Goto(Written(s, step, Failed(true, 0)), r, Inserting(step + 1))
    case DidLand => Goto(Written(s, step, Succeeded), r, Inserting(step + 1))
  }

  function AtFencing(p: Params, s: State, r: RunId, step: nat, i: nat): State
    requires r in s.runs
  {
    if i >= |p.keys| then Goto(s.(entries := Bump(s.entries, step)), r, Dispatching(step, 1))
    else match InspectFence(s, r, p.keys[i])
      case Fine => Goto(s, r, Fencing(step, i + 1))
      case Expired => Leave(p, Written(s, step, InDoubt), r, false)
      case Missing => Leave(p, Written(s, step, InDoubt), r, false)
      case _ => Leave(p, s, r, false)
  }

  /** One turn of the retry loop; past the limit nothing is left to do and no error is left either. */
  function AtDispatching(p: Params, s: State, r: RunId, c: Choice, step: nat, n: nat): State
    requires r in s.runs
  {
    if n > p.maxRetries then Goto(s, r, Recording(step, Succeeded))
    else match c.outcome
      case Ok => Goto(s.(wins := Bump(s.wins, step)), r, Recording(step, Succeeded))
      case RetryableError =>
        if n >= p.maxRetries then Goto(s, r, Recording(step, Failed(true, p.maxRetries)))
        else Goto(s, r, Dispatching(step, n + 1))
      case FinalError => Goto(s, r, Recording(step, Failed(false, p.maxRetries)))
  }

  function AtRecording(p: Params, s: State, r: RunId, step: nat, result: Attempt): State
    requires r in s.runs
  {
    var s' := Written(s, step, result);
    if result == Succeeded then Goto(s', r, Inserting(step + 1)) else Leave(p, s', r, false)
  }

  /** `releaseAll`, from the last key down; VR5010 stops it. */
  function AtReleasing(p: Params, s: State, r: RunId, i: nat, ok: bool, again: bool): State
    requires r in s.runs
  {
    var end := if again then Local(Acquiring(0), map[]) else s.runs[r].(pc := Finished(ok));
    if i == 0 || i > |p.keys| then s.(runs := s.runs[r := end])
    else
      var key := p.keys[i - 1];
      if key !in s.runs[r].fences || key !in s.leases then Goto(s, r, Releasing(i - 1, ok, again))
      else if s.leases[key].holder != r || s.leases[key].fence != s.runs[r].fences[key] then s.(runs := s.runs[r := end])
      else Goto(s.(leases := s.leases - {key}), r, Releasing(i - 1, ok, again))
  }

  function Moved(p: Params, s: State, r: RunId, c: Choice): State
    requires r in s.runs
  {
    match s.runs[r].pc
    case Acquiring(i) => AtAcquiring(p, s, r, c, i)
    case Inserting(step) => AtInserting(p, s, r, step)
    case Reading(step) => if step in s.attempts then Goto(s, r, Judging(step, s.attempts[step])) else s
    case Judging(step, seen) => AtJudging(p, s, r, step, seen)
    case Polling(step) => AtPolling(p, s, r, c, step)
    case Doubting(step) => Goto(Written(s, step, InDoubt), r, Probing(step))
    case Probing(step) => AtProbing(p, s, r, c, step)
    case Fencing(step, i) => AtFencing(p, s, r, step, i)
    case Dispatching(step, n) => AtDispatching(p, s, r, c, step, n)
    case Recording(step, result) => AtRecording(p, s, r, step, result)
    case Releasing(i, ok, again) => AtReleasing(p, s, r, i, ok, again)
    case Finished(_) => s
    case Crashed => s
  }

  /** The step a run between its leases' taking and release is at. */
  function StepOf(pc: Pc): Option<nat> {
    match pc
    case Inserting(step) => Some(step)
    case Reading(step) => Some(step)
    case Judging(step, _) => Some(step)
    case Polling(step) => Some(step)
    case Doubting(step) => Some(step)
    case Probing(step) => Some(step)
    case Fencing(step, _) => Some(step)
    case Dispatching(step, _) => Some(step)
    case Recording(step, _) => Some(step)
    case _ => None
  }

  /** The process dies. */
  function Died(s: State, r: RunId): State
    requires r in s.runs
  {
    var pc := s.runs[r].pc;
    var s' := if pc.Finished? then s else Goto(s, r, Crashed);
    if pc.Dispatching? || pc.Recording? then s'.(crashes := Bump(s.crashes, pc.step)) else s'
  }

  /** `renewLease`: expiry is not tested. */
  function Renewed(p: Params, s: State, r: RunId, key: Key): State
    requires r in s.runs
  {
    if key in s.leases && s.leases[key].holder == r && key in s.runs[r].fences
       && s.leases[key].fence == s.runs[r].fences[key]
    then s.(leases := s.leases[key := s.leases[key].(expiresAt := s.now + p.ttl)]) else s
  }

  function Next(p: Params, s: State, a: Action): State {
    match a
    case Tick(ms) => s.(now := s.now + ms)
    case Heartbeat(r, key) => if r in s.runs && !s.runs[r].pc.Crashed? then Renewed(p, s, r, key) else s
    case Crash(r) => if r in s.runs then Died(s, r) else s
    case Move(r, c) => if r in s.runs then Moved(p, s, r, c) else s
  }

  /** The state after `actions`. */
  function After(p: Params, ids: set<RunId>, actions: seq<Action>): State {
    if actions == [] then Init(p, ids)
    else Next(p, After(p, ids, actions[..|actions| - 1]), actions[|actions| - 1])
  }

  // ---------------------------------------------------------------- runs that keep their leases

  /** Every run between taking and releasing its leases still holds each of them, unexpired. */
  ghost predicate Kept(p: Params, s: State) {
    forall r, k :: r in s.runs && StepOf(s.runs[r].pc).Some? && k in p.keys ==>
      k in s.leases && InspectFence(s, r, k) == Fine
  }

  ghost predicate AlwaysKept(p: Params, ids: set<RunId>, actions: seq<Action>) {
    forall n :: 0 <= n <= |actions| ==> Kept(p, After(p, ids, actions[..n]))
  }

  lemma Exclusive(p: Params, s: State, a: RunId, b: RunId)
    requires Kept(p, s) && p.keys != [] && a in s.runs && b in s.runs
    requires StepOf(s.runs[a].pc).Some? && StepOf(s.runs[b].pc).Some?
    ensures a == b
  {
    assert p.keys[0] in p.keys;
    assert InspectFence(s, a, p.keys[0]) == Fine && InspectFence(s, b, p.keys[0]) == Fine;
  }

  function At(c: seq<nat>, j: nat): nat {
    if j < |c| then c[j] else 0
  }

  predicate IsSucceeded(attempts: map<nat, Attempt>, j: nat) {
    j in attempts && attempts[j] == Succeeded
  }

  predicate IsStarted(attempts: map<nat, Attempt>, j: nat) {
    j in attempts && attempts[j] == Started
  }

  predicate AllSucceeded(attempts: map<nat, Attempt>, n: nat) {
    forall i :: 0 <= i < n ==> IsSucceeded(attempts, i)
  }

  predicate Busy(pc: Pc, step: nat) {
    (pc.Dispatching? || pc.Recording?) && pc.step == step
  }

  ghost predicate SomeBusy(runs: map<RunId, Local>, step: nat) {
    exists r :: r in runs && Busy(runs[r].pc, step)
  }

  /** The step's attempt has its result, or a run is about to have one. */
  ghost predicate Answered(s: State, j: nat) {
    (j in s.attempts && s.attempts[j] != Started) || SomeBusy(s.runs, j)
  }

  predicate RowOk(p: Params, a: Attempt) {
    !a.InDoubt? && (a.Failed? ==> a.retries == p.maxRetries)
  }

  /** The attempts table: a row for a step is there only when every earlier step succeeded. */
  ghost predicate TableOk(p: Params, attempts: map<nat, Attempt>) {
    forall j :: j in attempts ==> j < p.steps && RowOk(p, attempts[j]) && AllSucceeded(attempts, j)
  }

  /** How often a step was entered and took effect, by the state of its row. */
  ghost predicate CountOk(p: Params, s: State, j: nat) {
    && At(s.wins, j) <= At(s.entries, j) == At(s.crashes, j) + (if Answered(s, j) then 1 else 0)
    && (p.maxRetries == 0 ==> At(s.wins, j) == 0)
    && (j !in s.attempts ==> At(s.entries, j) == 0)
    && (IsSucceeded(s.attempts, j) && p.maxRetries > 0 ==> At(s.wins, j) > 0)
  }

  ghost predicate CountsOk(p: Params, s: State) {
    && |s.entries| == |s.wins| == |s.crashes| == p.steps
    && forall j :: 0 <= j < p.steps ==> CountOk(p, s, j)
  }

  /** What holds of a run by where it is. */
  predicate RunOk(p: Params, attempts: map<nat, Attempt>, entries: seq<nat>, wins: seq<nat>, pc: Pc) {
    match StepOf(pc)
    case None => (pc.Releasing? || pc.Finished?) && pc.ok ==> AllSucceeded(attempts, p.steps)
    case Some(j) =>
      && AllSucceeded(attempts, j)
      && (if pc.Inserting? then j <= p.steps else j < p.steps && j in attempts)
      && match pc
         case Judging(_, seen) => seen == attempts[j]
         case Fencing(_, _) => IsStarted(attempts, j)
         case Dispatching(_, n) =>
           IsStarted(attempts, j) && At(wins, j) < At(entries, j) && 1 <= n && (n == 1 || n <= p.maxRetries)
         case Recording(_, result) =>
           IsStarted(attempts, j) && result != Started && RowOk(p, result)
           && (result == Succeeded && p.maxRetries > 0 ==> At(wins, j) > 0)
         case Polling(_) => false
         case Doubting(_) => false
         case Probing(_) => false
         case _ => true
  }

  ghost predicate RunsOk(p: Params, s: State) {
    forall r :: r in s.runs ==> RunOk(p, s.attempts, s.entries, s.wins, s.runs[r].pc)
  }

  ghost predicate Inv(p: Params, s: State) {
    TableOk(p, s.attempts) && CountsOk(p, s) && RunsOk(p, s)
  }

  /** The moving run is at a step: no other run is. */
  ghost predicate Alone(s: State, r: RunId) {
    r in s.runs && StepOf(s.runs[r].pc).Some?
    && forall q :: q in s.runs && q != r ==> StepOf(s.runs[q].pc) == None
  }

  lemma KeptAlone(p: Params, s: State, r: RunId)
    requires Kept(p, s) && p.keys != [] && r in s.runs && StepOf(s.runs[r].pc).Some?
    ensures Alone(s, r) && InspectFence(s, r, p.keys[0]) == Fine
  {
    assert p.keys[0] in p.keys;
    forall q | q in s.runs && q != r ensures StepOf(s.runs[q].pc) == None {
      if StepOf(s.runs[q].pc).Some? { Exclusive(p, s, r, q); }
    }
  }

  /** Only run `r` changed. */
  predicate OthersStay(s: State, r: RunId, s': State) {
    r in s.runs && s'.runs.Keys == s.runs.Keys && forall q :: q in s.runs && q != r ==> s'.runs[q] == s.runs[q]
  }

  /** A change of one run's place, and of the leases, that leaves the attempts and the counts alone. */
  lemma PlaceOk(p: Params, s: State, r: RunId, s': State)
    requires Inv(p, s) && OthersStay(s, r, s')
    requires s'.attempts == s.attempts && s'.entries == s.entries && s'.wins == s.wins && s'.crashes == s.crashes
    requires RunOk(p, s.attempts, s.entries, s.wins, s'.runs[r].pc)
    requires forall j :: Busy(s.runs[r].pc, j) <==> Busy(s'.runs[r].pc, j)
    ensures Inv(p, s')
  {
    hide RunOk, TableOk, IsStarted, IsSucceeded, At;
    forall j: nat ensures SomeBusy(s.runs, j) <==> SomeBusy(s'.runs, j) {
      assert forall q :: q in s.runs ==> Busy(s.runs[q].pc, j) == Busy(s'.runs[q].pc, j);
    }
    forall j | 0 <= j < p.steps ensures CountOk(p, s', j) {
      assert CountOk(p, s, j);
    }
  }

  lemma NotBusy(s: State, r: RunId, j: nat)
    requires Alone(s, r) && !Busy(s.runs[r].pc, j)
    ensures !SomeBusy(s.runs, j)
  {
  }

  lemma OnlyOneBusy(s: State, r: RunId, s': State, j: nat)
    requires Alone(s, r) && OthersStay(s, r, s')
    ensures SomeBusy(s'.runs, j) <==> Busy(s'.runs[r].pc, j)
  {
  }

  /** One step's row or counts change while its run is alone at it, and the step has not succeeded. */
  lemma StepOk(p: Params, s: State, r: RunId, step: nat, s': State)
    requires Inv(p, s) && Alone(s, r) && StepOf(s.runs[r].pc) == Some(step) && step < p.steps && OthersStay(s, r, s')
    requires |s'.entries| == |s'.wins| == |s'.crashes| == p.steps
    requires step in s'.attempts && s'.attempts == s.attempts[step := s'.attempts[step]] && RowOk(p, s'.attempts[step])
    requires !IsSucceeded(s.attempts, step)
    requires forall j :: 0 <= j < p.steps && j != step ==>
               s'.entries[j] == s.entries[j] && s'.wins[j] == s.wins[j] && s'.crashes[j] == s.crashes[j]
    requires forall j :: Busy(s'.runs[r].pc, j) ==> j == step
    requires CountOk(p, s', step) && RunOk(p, s'.attempts, s'.entries, s'.wins, s'.runs[r].pc)
    ensures Inv(p, s')
  {
    StepTable(p, s, r, step, s');
    StepCounts(p, s, r, step, s');
    StepRuns(p, s, r, step, s');
  }

  /** Writing the row of a step that has not succeeded keeps every success. */
  lemma StillSucceeded(attempts: map<nat, Attempt>, step: nat, a: Attempt, n: nat)
    requires AllSucceeded(attempts, n) && !IsSucceeded(attempts, step)
    ensures AllSucceeded(attempts[step := a], n)
  {
    var later := attempts[step := a];
    forall i | 0 <= i < n ensures IsSucceeded(later, i) {
      assert IsSucceeded(attempts, i);
    }
  }

  lemma StepTable(p: Params, s: State, r: RunId, step: nat, s': State)
    requires TableOk(p, s.attempts) && RunsOk(p, s) && r in s.runs && StepOf(s.runs[r].pc) == Some(step) && step < p.steps
    requires step in s'.attempts && s'.attempts == s.attempts[step := s'.attempts[step]] && RowOk(p, s'.attempts[step])
    requires !IsSucceeded(s.attempts, step)
    ensures TableOk(p, s'.attempts)
  {
    hide RowOk;
    assert RunOk(p, s.attempts, s.entries, s.wins, s.runs[r].pc);
    forall j | j in s'.attempts ensures j < p.steps && RowOk(p, s'.attempts[j]) && AllSucceeded(s'.attempts, j) {
      StillSucceeded(s.attempts, step, s'.attempts[step], j);
    }
  }

  lemma StepCounts(p: Params, s: State, r: RunId, step: nat, s': State)
    requires CountsOk(p, s) && Alone(s, r) && StepOf(s.runs[r].pc) == Some(step) && step < p.steps
    requires |s'.entries| == |s'.wins| == |s'.crashes| == p.steps
    requires step in s'.attempts && s'.attempts == s.attempts[step := s'.attempts[step]]
    requires forall j :: 0 <= j < p.steps && j != step ==>
               s'.entries[j] == s.entries[j] && s'.wins[j] == s.wins[j] && s'.crashes[j] == s.crashes[j]
    requires OthersStay(s, r, s') && forall j :: Busy(s'.runs[r].pc, j) ==> j == step
    requires CountOk(p, s', step)
    ensures CountsOk(p, s')
  {
    forall j | 0 <= j < p.steps ensures CountOk(p, s', j) {
      assert CountOk(p, s, j);
      if j != step {
        NotBusy(s, r, j);
        OnlyOneBusy(s, r, s', j);
        hide SomeBusy;
      }
    }
  }

  lemma StepRuns(p: Params, s: State, r: RunId, step: nat, s': State)
    requires RunsOk(p, s) && Alone(s, r) && step < p.steps && OthersStay(s, r, s')
    requires !IsSucceeded(s.attempts, step)
    requires RunOk(p, s'.attempts, s'.entries, s'.wins, s'.runs[r].pc)
    ensures RunsOk(p, s')
  {
    forall q | q in s'.runs && q != r ensures RunOk(p, s'.attempts, s'.entries, s'.wins, s'.runs[q].pc) {
      assert RunOk(p, s.attempts, s.entries, s.wins, s.runs[q].pc) && StepOf(s.runs[q].pc) == None;
    }
  }

  lemma RunKnown(p: Params, s: State, r: RunId)
    requires Inv(p, s) && r in s.runs
    ensures RunOk(p, s.attempts, s.entries, s.wins, s.runs[r].pc)
    ensures |s.entries| == |s.wins| == |s.crashes| == p.steps
    ensures forall j :: 0 <= j < p.steps ==> CountOk(p, s, j)
    ensures forall j :: j in s.attempts ==> j < p.steps && RowOk(p, s.attempts[j])
  {
  }

  lemma AcquiringOk(p: Params, s: State, r: RunId, c: Choice, i: nat)
    requires Inv(p, s) && r in s.runs && s.runs[r].pc == Acquiring(i)
    ensures Inv(p, AtAcquiring(p, s, r, c, i))
  {
    hide Inv, Acquired;
    PlaceOk(p, s, r, AtAcquiring(p, s, r, c, i));
  }

  lemma ReleasingOk(p: Params, s: State, r: RunId, i: nat, ok: bool, again: bool)
    requires Inv(p, s) && r in s.runs && s.runs[r].pc == Releasing(i, ok, again)
    ensures Inv(p, AtReleasing(p, s, r, i, ok, again))
  {
    RunKnown(p, s, r);
    hide Inv, AllSucceeded;
    PlaceOk(p, s, r, AtReleasing(p, s, r, i, ok, again));
  }

  lemma OutsideOk(p: Params, s: State, r: RunId, c: Choice)
    requires Inv(p, s) && r in s.runs && StepOf(s.runs[r].pc) == None
    ensures Inv(p, Moved(p, s, r, c))
  {
    hide Inv, AtAcquiring, AtReleasing;
    match s.runs[r].pc
    case Acquiring(i) => AcquiringOk(p, s, r, c, i);
    case Releasing(i, ok, again) => ReleasingOk(p, s, r, i, ok, again);
    case _ =>
  }

  lemma InsertingOk(p: Params, s: State, r: RunId, step: nat)
    requires Inv(p, s) && Alone(s, r) && s.runs[r].pc == Inserting(step)
    ensures Inv(p, AtInserting(p, s, r, step))
  {
    RunKnown(p, s, r);
    hide Inv, Alone;
    var s' := AtInserting(p, s, r, step);
    if step >= p.steps || step in s.attempts {
      PlaceOk(p, s, r, s');
    } else {
      assert CountOk(p, s, step);
      StillSucceeded(s.attempts, step, Started, step);
      StepOk(p, s, r, step, s');
    }
  }

  lemma FencingOk(p: Params, s: State, r: RunId, step: nat, i: nat)
    requires Inv(p, s) && Kept(p, s) && Alone(s, r) && s.runs[r].pc == Fencing(step, i)
    ensures Inv(p, AtFencing(p, s, r, step, i))
  {
    RunKnown(p, s, r);
    var s' := AtFencing(p, s, r, step, i);
    if i < |p.keys| {
      assert p.keys[i] in p.keys && InspectFence(s, r, p.keys[i]) == Fine;
      hide Inv, Alone, Kept, InspectFence, CountOk;
      PlaceOk(p, s, r, s');
    } else {
      NotBusy(s, r, step);
      hide Inv, Alone, Kept, InspectFence;
      assert CountOk(p, s, step);
      assert r in s'.runs && Busy(s'.runs[r].pc, step);
      StepOk(p, s, r, step, s');
    }
  }

  lemma DispatchWon(p: Params, s: State, r: RunId, step: nat, n: nat)
    requires Inv(p, s) && Alone(s, r) && s.runs[r].pc == Dispatching(step, n) && n <= p.maxRetries
    ensures Inv(p, Goto(s.(wins := Bump(s.wins, step)), r, Recording(step, Succeeded)))
  {
    RunKnown(p, s, r);
    hide Inv, Alone;
    assert CountOk(p, s, step);
    var s' := Goto(s.(wins := Bump(s.wins, step)), r, Recording(step, Succeeded));
    assert r in s'.runs && Busy(s'.runs[r].pc, step);
    StepOk(p, s, r, step, s');
  }

  lemma StillBusy(p: Params, s: State, r: RunId, step: nat, pc': Pc)
    requires Inv(p, s) && r in s.runs && s.runs[r].pc.Dispatching? && s.runs[r].pc.step == step && Busy(pc', step)
    requires RunOk(p, s.attempts, s.entries, s.wins, pc')
    ensures Inv(p, Goto(s, r, pc'))
  {
    hide Inv, RunOk;
    PlaceOk(p, s, r, Goto(s, r, pc'));
  }

  lemma DispatchingOk(p: Params, s: State, r: RunId, c: Choice, step: nat, n: nat)
    requires Inv(p, s) && Alone(s, r) && s.runs[r].pc == Dispatching(step, n)
    ensures Inv(p, AtDispatching(p, s, r, c, step, n))
  {
    RunKnown(p, s, r);
    hide Inv, Alone, CountOk, AllSucceeded, Goto;
    if n > p.maxRetries {
      StillBusy(p, s, r, step, Recording(step, Succeeded));
    } else {
      match c.outcome
      case Ok => DispatchWon(p, s, r, step, n);
      case FinalError => StillBusy(p, s, r, step, Recording(step, Failed(false, p.maxRetries)));
      case RetryableError =>
        if n >= p.maxRetries {
          StillBusy(p, s, r, step, Recording(step, Failed(true, p.maxRetries)));
        } else {
          StillBusy(p, s, r, step, Dispatching(step, n + 1));
        }
    }
  }

  lemma RecordingOk(p: Params, s: State, r: RunId, step: nat, result: Attempt)
    requires Inv(p, s) && Alone(s, r) && s.runs[r].pc == Recording(step, result)
    ensures Inv(p, AtRecording(p, s, r, step, result))
  {
    RunKnown(p, s, r);
    hide Inv, Alone;
    assert CountOk(p, s, step);
    var s' := AtRecording(p, s, r, step, result);
    StillSucceeded(s.attempts, step, result, step);
    StepOk(p, s, r, step, s');
  }

  lemma ReadingOk(p: Params, s: State, r: RunId, step: nat)
    requires Inv(p, s) && r in s.runs && s.runs[r].pc == Reading(step) && step in s.attempts
    ensures Inv(p, Goto(s, r, Judging(step, s.attempts[step])))
  {
    RunKnown(p, s, r);
    hide Inv, CountOk, AllSucceeded, RowOk;
    PlaceOk(p, s, r, Goto(s, r, Judging(step, s.attempts[step])));
  }

  lemma JudgingOk(p: Params, s: State, r: RunId, step: nat, seen: Attempt)
    requires Inv(p, s) && r in s.runs && p.keys != [] && InspectFence(s, r, p.keys[0]) == Fine
    requires s.runs[r].pc == Judging(step, seen)
    ensures Inv(p, AtJudging(p, s, r, step, seen))
  {
    RunKnown(p, s, r);
    hide Inv, InspectFence, CountOk;
    PlaceOk(p, s, r, AtJudging(p, s, r, step, seen));
  }

  lemma MoveOk(p: Params, s: State, r: RunId, c: Choice)
    requires Inv(p, s) && Kept(p, s) && p.keys != [] && r in s.runs
    ensures Inv(p, Moved(p, s, r, c))
  {
    hide Inv, Kept, AtInserting, AtFencing, AtDispatching, AtRecording, AtReleasing, AtAcquiring, AtPolling,
      AtJudging, Goto, InspectFence, CountOk;
    var pc := s.runs[r].pc;
    RunKnown(p, s, r);
    if StepOf(pc) == None {
      OutsideOk(p, s, r, c);
    } else {
      KeptAlone(p, s, r);
      match pc {
        case Inserting(step) => InsertingOk(p, s, r, step);
        case Fencing(step, i) => FencingOk(p, s, r, step, i);
        case Dispatching(step, n) => DispatchingOk(p, s, r, c, step, n);
        case Recording(step, result) => RecordingOk(p, s, r, step, result);
        case Reading(step) => ReadingOk(p, s, r, step);
        case Judging(step, seen) => JudgingOk(p, s, r, step, seen);
        case _ =>
      }
    }
  }

  lemma SameOk(p: Params, s: State, s': State)
    requires Inv(p, s) && s'.attempts == s.attempts && s'.runs == s.runs
    requires s'.entries == s.entries && s'.wins == s.wins && s'.crashes == s.crashes
    ensures Inv(p, s')
  {
    hide RunOk, TableOk, SomeBusy;
    forall j | 0 <= j < p.steps ensures CountOk(p, s', j) {
      assert CountOk(p, s, j);
    }
  }

  lemma CrashOk(p: Params, s: State, r: RunId)
    requires Inv(p, s) && Kept(p, s) && p.keys != [] && r in s.runs
    ensures Inv(p, Died(s, r))
  {
    hide Inv, Kept, Alone;
    var pc, s' := s.runs[r].pc, Died(s, r);
    RunKnown(p, s, r);
    if pc.Dispatching? || pc.Recording? {
      KeptAlone(p, s, r);
      assert CountOk(p, s, pc.step) && pc.step < p.steps;
      assert r in s.runs && Busy(s.runs[r].pc, pc.step);
      OnlyOneBusy(s, r, s', pc.step);
      StepOk(p, s, r, pc.step, s');
    } else {
      hide CountOk;
      PlaceOk(p, s, r, s');
    }
  }

  lemma NextOk(p: Params, s: State, a: Action)
    requires Inv(p, s) && Kept(p, s) && p.keys != []
    ensures Inv(p, Next(p, s, a))
  {
    hide Inv, Kept, Moved, Died, InspectFence;
    match a
    case Tick(_) => SameOk(p, s, Next(p, s, a));
    case Heartbeat(_, _) => SameOk(p, s, Next(p, s, a));
    case Crash(r) => if r in s.runs { CrashOk(p, s, r); }
    case Move(r, c) => if r in s.runs { MoveOk(p, s, r, c); }
  }

  lemma {:induction false} InvAlways(p: Params, ids: set<RunId>, actions: seq<Action>)
    requires p.keys != [] && AlwaysKept(p, ids, actions)
    ensures Inv(p, After(p, ids, actions)) && Kept(p, After(p, ids, actions))
  {
    hide Inv, Kept, Next;
    assert actions[..|actions|] == actions;
    if actions == [] {
      assert Inv(p, Init(p, ids)) by { InitOk(p, ids); }
    } else {
      var front := actions[..|actions| - 1];
      KeptFront(p, ids, actions, |actions| - 1);
      InvAlways(p, ids, front);
      NextOk(p, After(p, ids, front), actions[|actions| - 1]);
    }
  }

  lemma InitOk(p: Params, ids: set<RunId>)
    ensures Inv(p, Init(p, ids))
  {
  }

  lemma KeptFront(p: Params, ids: set<RunId>, actions: seq<Action>, n: nat)
    requires AlwaysKept(p, ids, actions) && n <= |actions|
    ensures AlwaysKept(p, ids, actions[..n])
  {
    hide Kept, After;
    forall m | 0 <= m <= n ensures Kept(p, After(p, ids, actions[..n][..m])) {
      assert actions[..n][..m] == actions[..m];
    }
  }

  /** In every interleaving in which each run keeps its leases until it releases them or dies: the retry loop
      of a step was entered exactly once for each run that died inside it, and once more if the attempt has its
      result or a run is inside the loop; and each dispatch that succeeds uses up one entry. */
  lemma EntriesBounded(p: Params, ids: set<RunId>, actions: seq<Action>, step: nat)
    requires p.keys != [] && AlwaysKept(p, ids, actions) && step < p.steps
    ensures var s := After(p, ids, actions);
            && |s.entries| == |s.wins| == |s.crashes| == p.steps
            && s.wins[step] <= s.entries[step] == s.crashes[step] + (if Answered(s, step) then 1 else 0)
  {
    InvAlways(p, ids, actions);
    hide After, AlwaysKept, TableOk, RunsOk;
    assert CountOk(p, After(p, ids, actions), step);
  }

  /** A recorded success has a dispatch that succeeded behind it exactly when the retry limit is positive. */
  lemma SuccessMeansDispatch(p: Params, ids: set<RunId>, actions: seq<Action>, step: nat)
    requires p.keys != [] && AlwaysKept(p, ids, actions)
    ensures var s := After(p, ids, actions);
            IsSucceeded(s.attempts, step) ==> step < |s.wins| && (s.wins[step] > 0 <==> p.maxRetries > 0)
  {
    InvAlways(p, ids, actions);
    hide After, AlwaysKept, RunsOk;
    var s := After(p, ids, actions);
    if IsSucceeded(s.attempts, step) { assert CountOk(p, s, step); }
  }

  /** Succeeded, entered and won as often as before. */
  predicate Settled(s: State, s': State, step: nat) {
    && IsSucceeded(s'.attempts, step)
    && step < |s.entries| == |s'.entries| && step < |s.wins| == |s'.wins|
    && s'.entries[step] == s.entries[step] && s'.wins[step] == s.wins[step]
  }

  lemma SucceededIsFinal(p: Params, s: State, a: Action, step: nat)
    requires Inv(p, s) && IsSucceeded(s.attempts, step) && (a.Move? && a.run in s.runs ==> Kept(p, s)) && p.keys != []
    ensures Settled(s, Next(p, s, a), step)
  {
    assert step < |s.entries| == |s.wins|;
    if a.Move? && a.run in s.runs {
      RunKnown(p, s, a.run);
      if s.runs[a.run].pc.Fencing? { FenceHolds(p, s, a.run); }
    }
    hide Inv, Kept, InspectFence, CountOk, RowOk, AllSucceeded, Acquired;
  }

  lemma FenceHolds(p: Params, s: State, r: RunId)
    requires Kept(p, s) && r in s.runs && s.runs[r].pc.Fencing?
    ensures forall i :: 0 <= i < |p.keys| ==> InspectFence(s, r, p.keys[i]) == Fine
  {
    forall i | 0 <= i < |p.keys| ensures InspectFence(s, r, p.keys[i]) == Fine {
      assert p.keys[i] in p.keys;
    }
  }

  /** A step recorded as succeeded stays so, and is never dispatched again. */
  lemma {:induction false} SucceededForEver(p: Params, ids: set<RunId>, actions: seq<Action>, n: nat, step: nat)
    requires p.keys != [] && AlwaysKept(p, ids, actions) && n <= |actions|
    requires IsSucceeded(After(p, ids, actions[..n]).attempts, step)
    ensures Settled(After(p, ids, actions[..n]), After(p, ids, actions), step)
    decreases |actions|
  {
    hide Next, Inv, Kept, IsSucceeded;
    if n == |actions| {
      assert actions[..n] == actions;
      InvAlways(p, ids, actions);
      InSteps(p, After(p, ids, actions), step);
    } else {
      var front := actions[..|actions| - 1];
      KeptFront(p, ids, actions, |actions| - 1);
      assert front[..n] == actions[..n];
      SucceededForEver(p, ids, front, n, step);
      InvAlways(p, ids, front);
      SucceededIsFinal(p, After(p, ids, front), actions[|actions| - 1], step);
    }
  }

  lemma InSteps(p: Params, s: State, step: nat)
    requires Inv(p, s) && IsSucceeded(s.attempts, step)
    ensures step < p.steps == |s.entries| == |s.wins|
  {
  }

  /** Steps run in order: one is attempted only after all before it succeeded; and of a run that ended well
      every step took effect, exactly once if no run died at it. */
  lemma StepsInOrder(p: Params, ids: set<RunId>, actions: seq<Action>, r: RunId)
    requires p.keys != [] && AlwaysKept(p, ids, actions) && p.maxRetries > 0
    ensures var s := After(p, ids, actions);
            && (forall j :: j in s.attempts ==> AllSucceeded(s.attempts, j))
            && |s.wins| == |s.crashes| == p.steps
            && (r in s.runs && s.runs[r].pc == Finished(true) ==>
                  forall i :: 0 <= i < p.steps ==> s.wins[i] >= 1 && (s.crashes[i] == 0 ==> s.wins[i] == 1))
  {
    InvAlways(p, ids, actions);
    var s := After(p, ids, actions);
    hide After, AlwaysKept, RowOk;
    if r in s.runs && s.runs[r].pc == Finished(true) {
      forall i | 0 <= i < p.steps ensures s.wins[i] >= 1 && (s.crashes[i] == 0 ==> s.wins[i] == 1) {
        assert IsSucceeded(s.attempts, i) && CountOk(p, s, i);
      }
    }
  }

  // ---------------------------------------------------------------- a run that loses its lease

  lemma AfterSnoc(p: Params, ids: set<RunId>, actions: seq<Action>, a: Action)
    ensures After(p, ids, actions + [a]) == Next(p, After(p, ids, actions), a)
  {
    assert (actions + [a])[..|actions|] == actions;
  }

  const LATE := Late(1)
  function Late(retries: nat): Params {
    Params(["k"], 1, retries, 10)
  }

  const TWO: set<RunId> := {"a", "b"}
  const GO := Choice(Ok, Unknown, true)

  /** Two runs of a plan of one step; `a` has taken fence 1, `b` fence 2 once `a` had run out. */
  function Scene(now: nat, holder: RunId, a: Pc, b: Pc, attempts: map<nat, Attempt>, entries: nat, wins: nat): State {
    Struck(Standing(now, holder, a, b, attempts, entries, wins), 0)
  }

  function Struck(s: State, crashes: nat): State {
    s.(crashes := [crashes])
  }

  function Standing(now: nat, holder: RunId, a: Pc, b: Pc, attempts: map<nat, Attempt>, entries: nat, wins: nat): State {
    var lease := if holder == "b" then Lease("b", 30, 2) else Lease("a", 10, 1);
    State(now, map["k" := lease], attempts,
          map["a" := Local(a, map["k" := 1]), "b" := Local(b, if holder == "b" then map["k" := 2] else map[])],
          [entries], [wins], [0])
  }

  lemma Onward(actions: seq<Action>, s: State, a: Action, s': State) returns (more: seq<Action>)
    requires After(LATE, TWO, actions) == s && Next(LATE, s, a) == s'
    ensures After(LATE, TWO, more) == s'
  {
    AfterSnoc(LATE, TWO, actions, a);
    more := actions + [a];
  }

  lemma Opening(t: seq<Action>) returns (more: seq<Action>)
    requires t == []
    ensures After(LATE, TWO, more) == Scene(0, "a", Fencing(0, 0), Acquiring(0), map[0 := Started], 0, 0)
  {
    var a, b := Move("a", GO), Acquiring(0);
    more := Onward(t, Init(LATE, TWO), a, Scene(0, "a", Acquiring(1), b, map[], 0, 0));
    hide After;
    more := Onward(more, Scene(0, "a", Acquiring(1), b, map[], 0, 0), a, Scene(0, "a", Inserting(0), b, map[], 0, 0));
    more := Onward(more, Scene(0, "a", Inserting(0), b, map[], 0, 0), a, Scene(0, "a", Fencing(0, 0), b, map[0 := Started], 0, 0));
  }

  /** The first run has passed its fence check when its lease runs out. */
  lemma FirstRunLate() returns (t: seq<Action>)
    ensures After(LATE, TWO, t) == Scene(20, "a", Dispatching(0, 1), Acquiring(0), map[0 := Started], 1, 0)
  {
    hide After;
    var a, b, row := Move("a", GO), Acquiring(0), map[0 := Started];
    t := Opening([]);
    t := Onward(t, Scene(0, "a", Fencing(0, 0), b, row, 0, 0), a, Scene(0, "a", Fencing(0, 1), b, row, 0, 0));
    t := Onward(t, Scene(0, "a", Fencing(0, 1), b, row, 0, 0), a, Scene(0, "a", Dispatching(0, 1), b, row, 1, 0));
    t := Onward(t, Scene(0, "a", Dispatching(0, 1), b, row, 1, 0), Tick(20), Scene(20, "a", Dispatching(0, 1), b, row, 1, 0));
  }

  /** The second run takes the lease over and finds the attempt. */
  lemma SecondRunReads() returns (t: seq<Action>)
    ensures After(LATE, TWO, t) == Scene(20, "b", Dispatching(0, 1), Judging(0, Started), map[0 := Started], 1, 0)
  {
    hide After;
    t := FirstRunLate();
    var d, row, b := Dispatching(0, 1), map[0 := Started], Move("b", GO);
    t := Onward(t, Scene(20, "a", d, Acquiring(0), row, 1, 0), b, Scene(20, "b", d, Acquiring(1), row, 1, 0));
    t := Onward(t, Scene(20, "b", d, Acquiring(1), row, 1, 0), b, Scene(20, "b", d, Inserting(0), row, 1, 0));
    t := Onward(t, Scene(20, "b", d, Inserting(0), row, 1, 0), b, Scene(20, "b", d, Reading(0), row, 1, 0));
    t := Onward(t, Scene(20, "b", d, Reading(0), row, 1, 0), b, Scene(20, "b", d, Judging(0, Started), row, 1, 0));
  }

  /** Without kept leases a step takes effect twice though no run dies: the second run takes the lease over,
      finds the attempt started under a live lease of its own, and dispatches it again; the first run, past
      its fence check, dispatches too. */
  lemma TwiceWithoutKeeping() returns (t: seq<Action>)
    ensures After(LATE, TWO, t).wins == [2] && After(LATE, TWO, t).crashes == [0]
  {
    hide After;
    t := SecondRunReads();
    var d, row, b := Dispatching(0, 1), map[0 := Started], Move("b", GO);
    t := Onward(t, Scene(20, "b", d, Judging(0, Started), row, 1, 0), b, Scene(20, "b", d, Fencing(0, 0), row, 1, 0));
    t := Onward(t, Scene(20, "b", d, Fencing(0, 0), row, 1, 0), b, Scene(20, "b", d, Fencing(0, 1), row, 1, 0));
    t := Onward(t, Scene(20, "b", d, Fencing(0, 1), row, 1, 0), b, Scene(20, "b", d, d, row, 2, 0));
    t := Onward(t, Scene(20, "b", d, d, row, 2, 0), b, Scene(20, "b", d, Recording(0, Succeeded), row, 2, 1));
    t := Onward(t, Scene(20, "b", d, Recording(0, Succeeded), row, 2, 1), Move("a", GO),
                Scene(20, "b", Recording(0, Succeeded), Recording(0, Succeeded), row, 2, 2));
  }

  /** One more step of a run in which leases are kept. */
  lemma KeptOnward(n: nat, actions: seq<Action>, s: State, a: Action, s': State) returns (more: seq<Action>)
    requires After(Late(n), TWO, actions) == s && Next(Late(n), s, a) == s' && AlwaysKept(Late(n), TWO, actions) && Kept(Late(n), s')
    ensures After(Late(n), TWO, more) == s' && AlwaysKept(Late(n), TWO, more)
  {
    hide Kept, Next;
    AfterSnoc(Late(n), TWO, actions, a);
    more := actions + [a];
    forall m | 0 <= m <= |more| ensures Kept(Late(n), After(Late(n), TWO, more[..m])) {
      if m <= |actions| {
        assert more[..m] == actions[..m];
      } else {
        assert more[..m] == more;
      }
    }
  }

  lemma KeptFirst(n: nat) returns (t: seq<Action>)
    ensures After(Late(n), TWO, t) == Scene(0, "a", Fencing(0, 0), Acquiring(0), map[0 := Started], 0, 0) && AlwaysKept(Late(n), TWO, t)
  {
    var a, b := Move("a", GO), Acquiring(0);
    t := [];
    assert forall m :: 0 <= m <= |t| ==> t[..m] == [];
    t := KeptOnward(n, t, Init(Late(n), TWO), a, Scene(0, "a", Acquiring(1), b, map[], 0, 0));
    hide After, AlwaysKept;
    t := KeptOnward(n, t, Scene(0, "a", Acquiring(1), b, map[], 0, 0), a, Scene(0, "a", Inserting(0), b, map[], 0, 0));
    t := KeptOnward(n, t, Scene(0, "a", Inserting(0), b, map[], 0, 0), a, Scene(0, "a", Fencing(0, 0), b, map[0 := Started], 0, 0));
  }

  lemma KeptEntered(n: nat) returns (t: seq<Action>)
    ensures After(Late(n), TWO, t) == Scene(0, "a", Dispatching(0, 1), Acquiring(0), map[0 := Started], 1, 0)
            && AlwaysKept(Late(n), TWO, t)
  {
    hide After, AlwaysKept;
    var a, b, row := Move("a", GO), Acquiring(0), map[0 := Started];
    t := KeptFirst(n);
    t := KeptOnward(n, t, Scene(0, "a", Fencing(0, 0), b, row, 0, 0), a, Scene(0, "a", Fencing(0, 1), b, row, 0, 0));
    t := KeptOnward(n, t, Scene(0, "a", Fencing(0, 1), b, row, 0, 0), a, Scene(0, "a", Dispatching(0, 1), b, row, 1, 0));
  }

  lemma KeptDispatched() returns (t: seq<Action>)
    ensures After(LATE, TWO, t) == Scene(0, "a", Recording(0, Succeeded), Acquiring(0), map[0 := Started], 1, 1)
            && AlwaysKept(LATE, TWO, t)
  {
    hide After, AlwaysKept;
    var a, b, row := Move("a", GO), Acquiring(0), map[0 := Started];
    t := KeptEntered(1);
    t := KeptOnward(1, t, Scene(0, "a", Dispatching(0, 1), b, row, 1, 0), a, Scene(0, "a", Recording(0, Succeeded), b, row, 1, 1));
  }

  /** The first run has died after its dispatch took effect, before it could record so. */
  function Mourning(now: nat, holder: RunId, b: Pc, entries: nat, wins: nat): State {
    Struck(Scene(now, holder, Crashed, b, map[0 := Started], entries, wins), 1)
  }

  lemma KeptCrash() returns (t: seq<Action>)
    ensures After(LATE, TWO, t) == Mourning(20, "a", Acquiring(0), 1, 1) && AlwaysKept(LATE, TWO, t)
  {
    hide After, AlwaysKept;
    var b, row := Acquiring(0), map[0 := Started];
    t := KeptDispatched();
    t := KeptOnward(1, t, Scene(0, "a", Recording(0, Succeeded), b, row, 1, 1), Crash("a"), Mourning(0, "a", b, 1, 1));
    t := KeptOnward(1, t, Mourning(0, "a", b, 1, 1), Tick(20), Mourning(20, "a", b, 1, 1));
  }

  lemma KeptTakeover() returns (t: seq<Action>)
    ensures After(LATE, TWO, t) == Mourning(20, "b", Inserting(0), 1, 1) && AlwaysKept(LATE, TWO, t)
  {
    hide After, AlwaysKept;
    t := KeptCrash();
    var b := Move("b", GO);
    t := KeptOnward(1, t, Mourning(20, "a", Acquiring(0), 1, 1), b, Mourning(20, "b", Acquiring(1), 1, 1));
    t := KeptOnward(1, t, Mourning(20, "b", Acquiring(1), 1, 1), b, Mourning(20, "b", Inserting(0), 1, 1));
  }

  lemma KeptSecond() returns (t: seq<Action>)
    ensures After(LATE, TWO, t) == Mourning(20, "b", Fencing(0, 0), 1, 1) && AlwaysKept(LATE, TWO, t)
  {
    hide After, AlwaysKept;
    t := KeptTakeover();
    var b := Move("b", GO);
    t := KeptOnward(1, t, Mourning(20, "b", Inserting(0), 1, 1), b, Mourning(20, "b", Reading(0), 1, 1));
    t := KeptOnward(1, t, Mourning(20, "b", Reading(0), 1, 1), b, Mourning(20, "b", Judging(0, Started), 1, 1));
    t := KeptOnward(1, t, Mourning(20, "b", Judging(0, Started), 1, 1), b, Mourning(20, "b", Fencing(0, 0), 1, 1));
  }

  /** The bound is reached: with kept leases and one death the step is entered, and takes effect, twice. */
  lemma CrashCostsOneMore() returns (t: seq<Action>)
    ensures AlwaysKept(LATE, TWO, t)
    ensures var s := After(LATE, TWO, t); s.entries == [2] && s.wins == [2] && s.crashes == [1]
  {
    hide After, AlwaysKept;
    t := KeptSecond();
    var b := Move("b", GO);
    t := KeptOnward(1, t, Mourning(20, "b", Fencing(0, 0), 1, 1), b, Mourning(20, "b", Fencing(0, 1), 1, 1));
    t := KeptOnward(1, t, Mourning(20, "b", Fencing(0, 1), 1, 1), b, Mourning(20, "b", Dispatching(0, 1), 2, 1));
    t := KeptOnward(1, t, Mourning(20, "b", Dispatching(0, 1), 2, 1), b, Mourning(20, "b", Recording(0, Succeeded), 2, 2));
  }

  /** With a retry limit of zero a step is recorded as succeeded though nothing was dispatched. */
  lemma ZeroRetriesSucceed() returns (t: seq<Action>)
    ensures AlwaysKept(Late(0), TWO, t)
    ensures var s := After(Late(0), TWO, t); IsSucceeded(s.attempts, 0) && s.entries == [1] && s.wins == [0] && s.crashes == [0]
  {
    hide After, AlwaysKept;
    t := KeptEntered(0);
    var a, b, row := Move("a", GO), Acquiring(0), map[0 := Started];
    t := KeptOnward(0, t, Scene(0, "a", Dispatching(0, 1), b, row, 1, 0), a, Scene(0, "a", Recording(0, Succeeded), b, row, 1, 0));
    t := KeptOnward(0, t, Scene(0, "a", Recording(0, Succeeded), b, row, 1, 0), a,
                    Scene(0, "a", Inserting(1), b, map[0 := Succeeded], 1, 0));
  }
}
