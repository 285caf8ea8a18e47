/** What runs of one plan do whether or not they keep their leases: the fence check before every dispatch, and
    each of the calls a run makes. */
module ExecuteRuns {
  import opened Options
  import opened Execute

  // ---------------------------------------------------------------- the fence check

  /** The lease table has the key under this run's name and fence, and the lease is live. */
  predicate Holds(s: State, r: RunId, key: Key) {
    && r in s.runs && key in s.runs[r].fences && key in s.leases
    && s.leases[key].holder == r && s.leases[key].fence == s.runs[r].fences[key] && s.leases[key].expiresAt > s.now
  }

  /** The lease has run out, or is gone from the table, and nobody else has taken it. */
  predicate Gone(s: State, r: RunId, key: Key)
    requires r in s.runs && key in s.runs[r].fences
  {
    key in s.leases ==>
      s.leases[key].holder == r && s.leases[key].fence == s.runs[r].fences[key] && s.leases[key].expiresAt <= s.now
  }

  /** The run checks its fences before it enters the retry loop of the step. */
  predicate Checking(s: State, r: RunId, step: nat) {
    r in s.runs && s.runs[r].pc.Fencing? && s.runs[r].pc.step == step
  }

  /** A run at a step has a fence for every key; on the way there, for every key so far. */
  predicate Fenced(p: Params, local: Local) {
    match local.pc
    case Acquiring(i) => forall j :: 0 <= j < i && j < |p.keys| ==> p.keys[j] in local.fences
    case pc => StepOf(pc).Some? ==> forall j :: 0 <= j < |p.keys| ==> p.keys[j] in local.fences
  }

  ghost predicate AllFenced(p: Params, ids: set<RunId>, s: State) {
    s.runs.Keys == ids && forall r :: r in s.runs ==> Fenced(p, s.runs[r])
  }

  /** Only this run changed, and it kept its fences. */
  predicate Own(s: State, s': State, r: RunId) {
    && r in s.runs && r in s'.runs && s'.runs == s.runs[r := s'.runs[r]]
    && (StepOf(s.runs[r].pc).Some? ==> s'.runs[r].fences == s.runs[r].fences && !s'.runs[r].pc.Acquiring?)
    && (!s.runs[r].pc.Fencing? && s'.runs[r].pc.Fencing? ==> s'.runs[r].pc.i == 0)
  }

  lemma GotoOwn(s: State, r: RunId, pc: Pc)
    requires r in s.runs && !pc.Acquiring? && (pc.Fencing? ==> pc.i == 0)
    ensures Own(s, Goto(s, r, pc), r)
    ensures forall step: nat, a: Attempt :: Own(s, Goto(Written(s, step, a), r, pc), r)
  {
  }

  lemma LeaseOwn(p: Params, s: State, r: RunId, c: Choice)
    requires r in s.runs
    ensures forall i :: s.runs[r].pc == Acquiring(i) ==> Own(s, AtAcquiring(p, s, r, c, i), r)
    ensures forall i, ok, again :: s.runs[r].pc == Releasing(i, ok, again) ==> Own(s, AtReleasing(p, s, r, i, ok, again), r)
  {
    hide Acquired;
  }

  lemma StepOwn(p: Params, s: State, r: RunId, c: Choice, step: nat)
    requires r in s.runs && StepOf(s.runs[r].pc).Some?
    ensures Own(s, AtInserting(p, s, r, step), r) && Own(s, AtProbing(p, s, r, c, step), r)
    ensures forall result :: Own(s, AtRecording(p, s, r, step, result), r)
  {
  }

  lemma LoopOwn(p: Params, s: State, r: RunId, c: Choice, step: nat)
    requires r in s.runs && StepOf(s.runs[r].pc).Some?
    ensures forall n :: Own(s, AtDispatching(p, s, r, c, step, n), r)
    ensures forall i :: s.runs[r].pc == Fencing(step, i) ==> Own(s, AtFencing(p, s, r, step, i), r)
  {
    hide InspectFence, Bump;
  }

  /** A move of a run changes no other run, and its fences only while it takes or has given back its leases. */
  lemma MoveOwn(p: Params, s: State, r: RunId, c: Choice)
    requires r in s.runs
    ensures Own(s, Moved(p, s, r, c), r)
  {
    LeaseOwn(p, s, r, c);
    assert Own(s, s, r) by { assert s.runs == s.runs[r := s.runs[r]]; }
    hide AtJudging, AtAcquiring, AtReleasing, AtInserting, AtProbing, AtFencing, AtDispatching, AtRecording, AtPolling, Goto, Own, Written;
    match s.runs[r].pc {
      case Inserting(step) => StepOwn(p, s, r, c, step);
      case Reading(step) => if step in s.attempts { GotoOwn(s, r, Judging(step, s.attempts[step])); }
      case Judging(step, seen) => JudgingOwn(p, s, r, step, seen);
      case Polling(step) => PollingOwn(p, s, r, c, step);
      case Doubting(step) => GotoOwn(s, r, Probing(step));
      case Probing(step) => StepOwn(p, s, r, c, step);
      case Fencing(step, i) => LoopOwn(p, s, r, c, step);
      case Dispatching(step, n) => LoopOwn(p, s, r, c, step);
      case Recording(step, result) => StepOwn(p, s, r, c, step);
      case _ =>
    }
  }

  lemma JudgingOwn(p: Params, s: State, r: RunId, step: nat, seen: Attempt)
    requires r in s.runs && s.runs[r].pc == Judging(step, seen)
    ensures Own(s, AtJudging(p, s, r, step, seen), r)
  {
    hide InspectFence, Own, Goto;
    forall pc | pc in {Inserting(step + 1), Fencing(step, 0), Doubting(step), Polling(step), Releasing(|p.keys|, false, false)}
      ensures Own(s, Goto(s, r, pc), r)
    {
      GotoOwn(s, r, pc);
    }
  }

  lemma PollingOwn(p: Params, s: State, r: RunId, c: Choice, step: nat)
    requires r in s.runs && s.runs[r].pc == Polling(step)
    ensures Own(s, AtPolling(p, s, r, c, step), r)
  {
    assert Own(s, s, r) by { assert s.runs == s.runs[r := s.runs[r]]; }
    hide Own, Goto;
    forall pc | pc in {Inserting(step + 1), Doubting(step), Releasing(|p.keys|, false, false)} ensures Own(s, Goto(s, r, pc), r) {
      GotoOwn(s, r, pc);
    }
  }

  lemma MoveFenced(p: Params, s: State, r: RunId, c: Choice)
    requires r in s.runs && Fenced(p, s.runs[r])
    ensures r in Moved(p, s, r, c).runs && Fenced(p, Moved(p, s, r, c).runs[r])
  {
    MoveOwn(p, s, r, c);
    hide InspectFence, AtJudging, AtPolling, AtProbing, AtFencing, AtDispatching, AtRecording, AtInserting;
    if StepOf(s.runs[r].pc).Some? { hide Moved; }
  }

  lemma {:induction false} FencedAlways(p: Params, ids: set<RunId>, actions: seq<Action>)
    ensures AllFenced(p, ids, After(p, ids, actions))
  {
    if actions != [] {
      var front, a := actions[..|actions| - 1], actions[|actions| - 1];
      FencedAlways(p, ids, front);
      var s := After(p, ids, front);
      if a.Move? && a.run in s.runs {
        MoveFenced(p, s, a.run, a.choice);
        MoveOwn(p, s, a.run, a.choice);
      }
      hide Moved, Fenced;
    }
  }

  /** From moment `m` to the end the run checks the fences of this step, and at `m` it held the key. */
  ghost predicate HeldSince(p: Params, ids: set<RunId>, actions: seq<Action>, m: nat, r: RunId, step: nat, key: Key) {
    && m <= |actions| && Holds(After(p, ids, actions[..m]), r, key)
    && forall l :: m <= l <= |actions| ==> Checking(After(p, ids, actions[..l]), r, step)
  }

  ghost predicate WasHeld(p: Params, ids: set<RunId>, actions: seq<Action>, r: RunId, step: nat, key: Key) {
    exists m: nat :: HeldSince(p, ids, actions, m, r, step, key)
  }

  lemma HeldLonger(p: Params, ids: set<RunId>, actions: seq<Action>, a: Action, r: RunId, step: nat, key: Key)
    requires Checking(After(p, ids, actions + [a]), r, step)
    requires WasHeld(p, ids, actions, r, step, key) || (Holds(After(p, ids, actions), r, key) && Checking(After(p, ids, actions), r, step))
    ensures WasHeld(p, ids, actions + [a], r, step, key)
  {
    hide After, Checking, Holds;
    var longer := actions + [a];
    assert longer[..|longer|] == longer && longer[..|actions|] == actions && actions[..|actions|] == actions;
    var m: nat := |actions|;
    if WasHeld(p, ids, actions, r, step, key) { m :| HeldSince(p, ids, actions, m, r, step, key); }
    assert longer[..m] == actions[..m];
    forall l | m <= l <= |longer| ensures Checking(After(p, ids, longer[..l]), r, step) {
      if l <= |actions| { assert longer[..l] == actions[..l]; }
    }
    assert HeldSince(p, ids, longer, m, r, step, key);
  }

  /** Where a run that checks fences comes from. */
  lemma CheckingFrom(p: Params, s: State, a: Action, r: RunId)
    requires r in s.runs && Fenced(p, s.runs[r]) && r in Next(p, s, a).runs && Next(p, s, a).runs[r].pc.Fencing?
    ensures var pc := Next(p, s, a).runs[r].pc;
            || pc.i == 0
            || s.runs[r].pc == pc
            || (s.runs[r].pc == Fencing(pc.step, pc.i - 1) && pc.i <= |p.keys| && Holds(s, r, p.keys[pc.i - 1]))
  {
    if a.Move? && a.run in s.runs {
      MoveOwn(p, s, a.run, a.choice);
      if a.run != r {
        hide Moved;
      } else if s.runs[r].pc.Fencing? {
        hide AtAcquiring, AtInserting, AtJudging, AtPolling, AtProbing, AtDispatching, AtRecording, AtReleasing;
      } else {
        hide Moved, Holds;
      }
    }
  }

  lemma {:induction false} FencesChecked(p: Params, ids: set<RunId>, actions: seq<Action>, r: RunId)
    requires r in ids
    ensures var s := After(p, ids, actions);
            r in s.runs && (s.runs[r].pc.Fencing? ==>
              forall j :: 0 <= j < s.runs[r].pc.i && j < |p.keys| ==> WasHeld(p, ids, actions, r, s.runs[r].pc.step, p.keys[j]))
  {
    FencedAlways(p, ids, actions);
    hide Next, Holds, WasHeld, Fenced;
    if actions != [] && After(p, ids, actions).runs[r].pc.Fencing? {
      var front, a := actions[..|actions| - 1], actions[|actions| - 1];
      var s, pc := After(p, ids, front), After(p, ids, actions).runs[r].pc;
      FencedAlways(p, ids, front);
      FencesChecked(p, ids, front, r);
      assert front + [a] == actions && After(p, ids, actions) == Next(p, s, a);
      hide After;
      CheckingFrom(p, s, a, r);
      forall j | 0 <= j < pc.i && j < |p.keys| ensures WasHeld(p, ids, actions, r, pc.step, p.keys[j]) {
        HeldLonger(p, ids, front, a, r, pc.step, p.keys[j]);
      }
    }
  }

  /** In every run, whatever leases do: an action that raises a step's entries is a move of a run that, for each
      key, held it live under its own name and fence at some moment of this check of the step's fences. */
  lemma CheckedBeforeEntry(p: Params, ids: set<RunId>, actions: seq<Action>, a: Action, step: nat)
    requires At(After(p, ids, actions + [a]).entries, step) > At(After(p, ids, actions).entries, step)
    ensures a.Move? && a.run in ids && Checking(After(p, ids, actions), a.run, step)
    ensures forall key :: key in p.keys ==> WasHeld(p, ids, actions, a.run, step, key)
  {
    AfterSnoc(p, ids, actions, a);
    FencedAlways(p, ids, actions);
    EntryRaised(p, After(p, ids, actions), a, step);
    FencesChecked(p, ids, actions, a.run);
    hide After, WasHeld, AllFenced;
    forall key | key in p.keys ensures WasHeld(p, ids, actions, a.run, step, key) {
      var j :| 0 <= j < |p.keys| && p.keys[j] == key;
    }
  }

  lemma EntryRaised(p: Params, s: State, a: Action, step: nat)
    requires At(Next(p, s, a).entries, step) > At(s.entries, step)
    ensures a.Move? && a.run in s.runs && Checking(s, a.run, step) && s.runs[a.run].pc.i >= |p.keys|
  {
  }

  /** A fence check of one key: passed if the key is held; otherwise the run gives up, nothing is dispatched, and
      the attempt becomes in doubt exactly if the lease has run out or is gone, not if another has it. */
  lemma LostLeaseStops(p: Params, s: State, r: RunId, c: Choice, step: nat, i: nat)
    requires r in s.runs && s.runs[r].pc == Fencing(step, i) && i < |p.keys| && Fenced(p, s.runs[r])
    ensures var (s', key) := (Next(p, s, Move(r, c)), p.keys[i]);
            && s'.entries == s.entries && s'.wins == s.wins && s'.leases == s.leases && s'.runs.Keys == s.runs.Keys
            && s'.runs[r].pc == (if Holds(s, r, key) then Fencing(step, i + 1) else Releasing(|p.keys|, false, false))
            && s'.attempts == (if !Holds(s, r, key) && Gone(s, r, key) then s.attempts[step := InDoubt] else s.attempts)
  {
  }

  /** Giving up: on the way out, or out, or dead. */
  predicate GivesUp(pc: Pc) {
    (pc.Releasing? && !pc.ok && !pc.again) || pc == Finished(false) || pc == Crashed
  }

  lemma GivesUpNext(p: Params, s: State, a: Action, r: RunId)
    requires r in s.runs && GivesUp(s.runs[r].pc)
    ensures r in Next(p, s, a).runs && GivesUp(Next(p, s, a).runs[r].pc)
  {
    if a.Move? && a.run in s.runs {
      MoveOwn(p, s, a.run, a.choice);
      if a.run != r {
        hide Moved;
      } else {
        hide AtAcquiring, AtInserting, AtJudging, AtPolling, AtProbing, AtDispatching, AtRecording, AtFencing;
      }
    }
  }

  /** A run that found its lease lost never enters the loop again and does not end well. */
  lemma {:induction false} LostLeaseEnds(p: Params, ids: set<RunId>, actions: seq<Action>, n: nat, r: RunId, step: nat, i: nat, c: Choice)
    requires n < |actions| && actions[n] == Move(r, c)
    requires var s := After(p, ids, actions[..n]);
             r in s.runs && s.runs[r].pc == Fencing(step, i) && i < |p.keys| && !Holds(s, r, p.keys[i])
    ensures var s := After(p, ids, actions); r in s.runs && GivesUp(s.runs[r].pc)
    decreases |actions|
  {
    var last := |actions| - 1;
    var front := actions[..last];
    FencedAlways(p, ids, actions[..n]);
    assert After(p, ids, actions) == Next(p, After(p, ids, front), actions[last]);
    hide After, Next, Holds, Gone, Fenced;
    if n == last {
      LostLeaseStops(p, After(p, ids, front), r, c, step, i);
    } else {
      assert front[..n] == actions[..n];
      LostLeaseEnds(p, ids, front, n, r, step, i, c);
      GivesUpNext(p, After(p, ids, front), actions[last], r);
    }
  }

  // ---------------------------------------------------------------- the calls a run makes

  /** From `s` to `s'` only the run's place changed. */
  predicate OnlyMoved(s: State, s': State, r: RunId, pc: Pc) {
    r in s.runs && s' == s.(runs := s.runs[r := s.runs[r].(pc := pc)])
  }

  /** A key is refused exactly if another holds it live; otherwise the run gets it, for the ttl and under the
      next fence, or the first one if the row is gone. Refused, it gives back what it has, to try again or not. */
  lemma AcquireExact(p: Params, s: State, r: RunId, c: Choice, i: nat)
    requires r in s.runs && s.runs[r].pc == Acquiring(i) && i < |p.keys|
    ensures var (s', key) := (Next(p, s, Move(r, c)), p.keys[i]);
            if key in s.leases && s.leases[key].holder != r && s.now < s.leases[key].expiresAt then
              OnlyMoved(s, s', r, Releasing(|p.keys|, false, c.patience))
            else
              && key in s'.leases && s'.leases == s.leases[key := s'.leases[key]]
              && s'.leases[key].holder == r && s'.leases[key].expiresAt == s.now + p.ttl
              && s'.leases[key].fence == (if key in s.leases then s.leases[key].fence else 0) + 1
              && s' == s.(leases := s'.leases, runs := s.runs[r := Local(Acquiring(i + 1), s.runs[r].fences[key := s'.leases[key].fence])])
  {
  }

  lemma AcquiredAll(p: Params, s: State, r: RunId, c: Choice, i: nat)
    requires r in s.runs && s.runs[r].pc == Acquiring(i) && i >= |p.keys|
    ensures OnlyMoved(s, Next(p, s, Move(r, c)), r, Inserting(0))
  {
  }

  /** A run begins a step by writing its row, if there is none, and otherwise reads what is there; past the last
      step it gives its leases back, having succeeded. */
  lemma InsertExact(p: Params, s: State, r: RunId, c: Choice, step: nat)
    requires r in s.runs && s.runs[r].pc == Inserting(step)
    ensures var s' := Next(p, s, Move(r, c));
            if step >= p.steps then OnlyMoved(s, s', r, Releasing(|p.keys|, true, false))
            else if step in s.attempts then OnlyMoved(s, s', r, Reading(step))
            else s'.attempts == s.attempts[step := Started] && OnlyMoved(s, s'.(attempts := s.attempts), r, Fencing(step, 0))
  {
  }

  lemma ReadExact(p: Params, s: State, r: RunId, c: Choice, step: nat)
    requires r in s.runs && s.runs[r].pc == Reading(step) && step in s.attempts
    ensures OnlyMoved(s, Next(p, s, Move(r, c)), r, Judging(step, s.attempts[step]))
  {
  }

  /** What a run does with an attempt it finds: past it exactly if it succeeded; at it again exactly if it failed
      and may be retried, or was started and the run holds the first key; to the world exactly if in doubt; it
      waits exactly if it was started and nobody else has taken the first key; and otherwise it gives up. */
  lemma JudgeExact(p: Params, s: State, r: RunId, c: Choice, step: nat, seen: Attempt)
    requires r in s.runs && s.runs[r].pc == Judging(step, seen) && Fenced(p, s.runs[r])
    ensures var s' := Next(p, s, Move(r, c));
            var pc := s'.runs[r].pc;
            && OnlyMoved(s, s', r, pc)
            && (pc == Inserting(step + 1) <==> seen == Succeeded)
            && (pc == Fencing(step, 0) <==>
                  (seen.Failed? && seen.retryable && seen.retries < p.maxRetries)
                  || (seen == Started && p.keys != [] && Holds(s, r, p.keys[0])))
            && (pc == Doubting(step) <==> seen == InDoubt)
            && (pc == Polling(step) <==> seen == Started && (p.keys == [] || Gone(s, r, p.keys[0])))
            && (pc == Releasing(|p.keys|, false, false) <==>
                  (seen.Failed? && (!seen.retryable || seen.retries >= p.maxRetries))
                  || (seen == Started && p.keys != [] && !Holds(s, r, p.keys[0]) && !Gone(s, r, p.keys[0])))
  {
  }

  /** The first key is under a live lease of another run. */
  predicate Occupied(p: Params, s: State, r: RunId) {
    && p.keys != [] && p.keys[0] in s.leases && s.leases[p.keys[0]].holder != r && s.now < s.leases[p.keys[0]].expiresAt
  }

  /** One look while waiting for another run: it goes on exactly if that run succeeded, gives up exactly if it
      failed or still works when patience ends, asks the world exactly if the attempt is in doubt, the lease has
      run out or patience ends with nobody at work, and otherwise looks again. */
  lemma PollExact(p: Params, s: State, r: RunId, c: Choice, step: nat)
    requires r in s.runs && s.runs[r].pc == Polling(step) && step in s.attempts
    ensures var (s', row) := (Next(p, s, Move(r, c)), s.attempts[step]);
            var pc := s'.runs[r].pc;
            var over := p.keys != [] && p.keys[0] in s.leases && s.leases[p.keys[0]].expiresAt <= s.now;
            && OnlyMoved(s, s', r, pc)
            && (pc == Inserting(step + 1) <==> row == Succeeded)
            && (pc == Releasing(|p.keys|, false, false) <==> row.Failed? || (row == Started && !c.patience && Occupied(p, s, r)))
            && (pc == Doubting(step) <==>
                  row == InDoubt || (row == Started && if c.patience then over else !Occupied(p, s, r)))
            && (pc == Polling(step) <==> row == Started && c.patience && !over)
  {
    assert s.runs == s.runs[r := s.runs[r]];
  }

  /** An attempt in doubt is marked so and the world is asked; the answer decides the row, and only without an
      answer does the run give up. */
  lemma ProbeExact(p: Params, s: State, r: RunId, c: Choice, step: nat)
    requires r in s.runs && (s.runs[r].pc == Doubting(step) || s.runs[r].pc == Probing(step))
    ensures var s' := Next(p, s, Move(r, c));
            if s.runs[r].pc == Doubting(step) then
              s'.attempts == s.attempts[step := InDoubt] && OnlyMoved(s, s'.(attempts := s.attempts), r, Probing(step))
            else if c.answer == Unknown then OnlyMoved(s, s', r, Releasing(|p.keys|, false, false))
            else
              && s'.attempts == s.attempts[step := if c.answer == DidLand then Succeeded else Failed(true, 0)]
              && OnlyMoved(s, s'.(attempts := s.attempts), r, Inserting(step + 1))
  {
  }

  lemma RecordExact(p: Params, s: State, r: RunId, c: Choice, step: nat, result: Attempt)
    requires r in s.runs && s.runs[r].pc == Recording(step, result)
    ensures var s' := Next(p, s, Move(r, c));
            && s'.attempts == s.attempts[step := result]
            && OnlyMoved(s, s'.(attempts := s.attempts), r,
                         if result == Succeeded then Inserting(step + 1) else Releasing(|p.keys|, false, false))
  {
  }

  /** The state after a run has made these moves, nothing else happening. */
  function Moves(p: Params, s: State, r: RunId, cs: seq<Choice>): State
    decreases |cs|
  {
    if cs == [] then s else Moves(p, Next(p, s, Move(r, cs[0])), r, cs[1..])
  }

  /** How the retry loop ends, told from the outcomes of its dispatches. */
  function LoopResult(p: Params, last: Outcome): Attempt {
    match last
    case Ok => Succeeded
    case RetryableError => Failed(true, p.maxRetries)
    case FinalError => Failed(false, p.maxRetries)
  }

  /** The retry loop dispatches until an outcome that is not a retryable error, at most up to the limit, and its
      last outcome is its result. With a limit of zero it dispatches nothing and has succeeded. */
  lemma {:induction false} RetryLoop(p: Params, s: State, r: RunId, cs: seq<Choice>, step: nat, n: nat)
    requires r in s.runs && s.runs[r].pc == Dispatching(step, n) && cs != [] && step < |s.wins|
    requires p.maxRetries > 0 && 1 <= n && n + |cs| - 1 <= p.maxRetries
    requires forall i :: 0 <= i < |cs| - 1 ==> cs[i].outcome == RetryableError
    requires cs[|cs| - 1].outcome == RetryableError ==> n + |cs| - 1 == p.maxRetries
    ensures var (s', last) := (Moves(p, s, r, cs), cs[|cs| - 1].outcome);
            && OnlyMoved(s, s'.(wins := s.wins), r, Recording(step, LoopResult(p, last)))
            && s'.wins == if last == Ok then s.wins[step := s.wins[step] + 1] else s.wins
    decreases |cs|
  {
    var s1 := Next(p, s, Move(r, cs[0]));
    if |cs| == 1 {
      assert Moves(p, s1, r, cs[1..]) == s1;
    } else {
      assert OnlyMoved(s, s1, r, Dispatching(step, n + 1));
      RetryLoop(p, s1, r, cs[1..], step, n + 1);
      hide Next;
    }
  }

  lemma NoRetries(p: Params, s: State, r: RunId, c: Choice, step: nat)
    requires r in s.runs && s.runs[r].pc == Dispatching(step, 1) && p.maxRetries == 0
    ensures OnlyMoved(s, Next(p, s, Move(r, c)), r, Recording(step, Succeeded))
  {
  }

  /** Every key the run has a fence for is free, or held by it under that fence. */
  predicate Unfenced(p: Params, s: State, r: RunId, n: nat)
    requires r in s.runs && n <= |p.keys|
  {
    forall j :: 0 <= j < n && p.keys[j] in s.runs[r].fences && p.keys[j] in s.leases ==>
      s.leases[p.keys[j]].holder == r && s.leases[p.keys[j]].fence == s.runs[r].fences[p.keys[j]]
  }

  /** The leases but for those of these keys that the run has a fence for. */
  ghost predicate GivenBack(p: Params, s: State, r: RunId, n: nat, leases: map<Key, Lease>)
    requires r in s.runs && n <= |p.keys|
  {
    forall k :: (k in leases <==> k in s.leases && !(k in s.runs[r].fences && k in p.keys[..n]))
                && (k in leases ==> leases[k] == s.leases[k])
  }

  lemma ReleaseOne(p: Params, s: State, r: RunId, c: Choice, n: nat, ok: bool, again: bool)
    requires r in s.runs && s.runs[r].pc == Releasing(n, ok, again) && 0 < n <= |p.keys| && Unfenced(p, s, r, n)
    ensures Next(p, s, Move(r, c))
            == s.(leases := if p.keys[n - 1] in s.runs[r].fences then s.leases - {p.keys[n - 1]} else s.leases,
                  runs := s.runs[r := s.runs[r].(pc := Releasing(n - 1, ok, again))])
  {
    assert p.keys[n - 1] !in s.leases ==> s.leases - {p.keys[n - 1]} == s.leases;
  }

  lemma BackOneMore(p: Params, s: State, s1: State, r: RunId, n: nat, leases: map<Key, Lease>)
    requires r in s.runs && r in s1.runs && 0 < n <= |p.keys| && s1.runs[r].fences == s.runs[r].fences
    requires s1.leases == if p.keys[n - 1] in s.runs[r].fences then s.leases - {p.keys[n - 1]} else s.leases
    ensures Unfenced(p, s, r, n) ==> Unfenced(p, s1, r, n - 1)
    ensures GivenBack(p, s1, r, n - 1, leases) ==> GivenBack(p, s, r, n, leases)
  {
    assert p.keys[..n] == p.keys[..n - 1] + [p.keys[n - 1]];
    if GivenBack(p, s1, r, n - 1, leases) {
      forall k
        ensures k in leases <==> k in s.leases && !(k in s.runs[r].fences && k in p.keys[..n])
        ensures k in leases ==> leases[k] == s.leases[k]
      {
        assert k in s1.leases <==> k in s.leases && !(k in s.runs[r].fences && k == p.keys[n - 1]);
      }
    }
  }

  /** Unless one was fenced, the run gives back all its leases, and then ends or begins anew. */
  lemma {:induction false} ReleaseRun(p: Params, s: State, r: RunId, cs: seq<Choice>, n: nat, ok: bool, again: bool)
    requires r in s.runs && s.runs[r].pc == Releasing(n, ok, again) && n <= |p.keys| && |cs| == n + 1 && Unfenced(p, s, r, n)
    ensures var s' := Moves(p, s, r, cs);
            && GivenBack(p, s, r, n, s'.leases)
            && s' == s.(leases := s'.leases,
                        runs := s.runs[r := if again then Local(Acquiring(0), map[]) else Local(Finished(ok), s.runs[r].fences)])
    decreases n
  {
    var s1 := Next(p, s, Move(r, cs[0]));
    if n == 0 {
      assert Moves(p, s1, r, cs[1..]) == s1;
    } else {
      ReleaseOne(p, s, r, cs[0], n, ok, again);
      hide Next, Unfenced, GivenBack;
      BackOneMore(p, s, s1, r, n, Moves(p, s1, r, cs[1..]).leases);
      ReleaseRun(p, s1, r, cs[1..], n - 1, ok, again);
    }
  }

  /** A fenced lease ends the giving back; it and the lower ones stay. */
  lemma FencedStays(p: Params, s: State, r: RunId, c: Choice, i: nat, ok: bool, again: bool)
    requires r in s.runs && s.runs[r].pc == Releasing(i, ok, again) && 0 < i <= |p.keys| && p.keys[i - 1] in s.runs[r].fences
    requires p.keys[i - 1] in s.leases
    requires s.leases[p.keys[i - 1]].holder != r || s.leases[p.keys[i - 1]].fence != s.runs[r].fences[p.keys[i - 1]]
    ensures var s' := Next(p, s, Move(r, c));
            s' == s.(runs := s.runs[r := if again then Local(Acquiring(0), map[]) else Local(Finished(ok), s.runs[r].fences)])
  {
  }

  /** A heartbeat moves the expiry of a lease that the living run has under its fence, expired or not, and
      changes nothing else. */
  lemma HeartbeatExact(p: Params, s: State, r: RunId, key: Key)
    requires r in s.runs
    ensures var s' := Next(p, s, Heartbeat(r, key));
            && (s' == s <==> s'.leases == s.leases)
            && if s.runs[r].pc != Crashed && key in s.runs[r].fences && key in s.leases && s.leases[key].holder == r
                  && s.leases[key].fence == s.runs[r].fences[key]
               then s'.leases == s.leases[key := Lease(r, s.now + p.ttl, s.leases[key].fence)] && s' == s.(leases := s'.leases)
               else s' == s
  {
  }

  /** A death and the passing of time leave the ledger as it is. */
  lemma OutsideExact(p: Params, s: State, r: RunId, ms: nat)
    requires r in s.runs
    ensures Next(p, s, Tick(ms)) == s.(now := s.now + ms)
    ensures var (s', pc) := (Next(p, s, Crash(r)), s.runs[r].pc);
            && s'.runs == s.runs[r := s.runs[r].(pc := if pc.Finished? then pc else Crashed)]
            && s' == s.(runs := s'.runs, crashes := s'.crashes)
            && forall j :: 0 <= j < |s.crashes| ==>
                 |s'.crashes| == |s.crashes| && s'.crashes[j] == s.crashes[j] + if Busy(pc, j) then 1 else 0
  {
  }

  /** In every run: a row becomes a success only by a run that records it or to which the world says so. */
  lemma SuccessCause(p: Params, s: State, a: Action, step: nat)
    requires !IsSucceeded(s.attempts, step) && IsSucceeded(Next(p, s, a).attempts, step)
    ensures && a.Move? && a.run in s.runs
            && (s.runs[a.run].pc == Recording(step, Succeeded) || (s.runs[a.run].pc == Probing(step) && a.choice.answer == DidLand))
  {
    hide InspectFence, Acquired;
  }
}
