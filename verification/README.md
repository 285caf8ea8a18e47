# VekRevert, modelled and proved in Dafny

VekRevert records the effects of an agent in a hash-chained ledger, compiles a compensation for each, and
undoes a saga by running the compensations last effect first, under fenced leases. This project models the
parts of it where a mistake is easy to make and hard to see, and proves what they promise. `dafny verify
dfyconfig.toml` checks all of it.

| file | subject |
|---|---|
| `Texts`, `Jcs` | JavaScript strings, and canonical JSON (RFC 8785) with an inverse parser |
| `Base32`, `Keys` | base-32 text of digests, and the identifiers derived from it |
| `Chain`, `Merkle`, `Anchors` | the per-saga hash chain, the root over all heads, the ledger that anchors itself |
| `Coordinator`, `LeaseClients`, `LeaseAcquire` | the lease store with its fences and claims, its clients over a network, and taking several leases |
| `Execute`, `ExecuteRuns` | any number of interleaved runs of one plan, with and without kept leases |
| `Projections`, `Undo`, `UndoEngine`, `UndoLaws`, `UndoReport`, `UndoOutcome` | the undo pass, stored rows against the event log, the report, and what is done with each effect |
| `World`, `Restore`, `RestoreExact` | file and http effects, the steps that undo them, and what `world_restored` means |
| `SqlInverse` | inverse statements on a table |
| `Plan`, `PlanLaws`, `PlanExact` | the plan compiler, exactly what it accepts, and run-time resolution of that |
| `WriteBehind` | the buffer of the http ledger |

A hash is any function from texts to texts (in `Keys`, to 32 bytes). No hash is assumed to be injective: where
equal hashes should mean equal inputs, the statement is "equal, or two different texts among those hashed
collide", and the texts are named. Time is a number the steps of a model move forward. Objects that the program
updates in place are classes here, and each of their methods is proved equal to a function of the state before;
the laws are then proved about that function. `Execute` and `LeaseClients` are transition systems instead: their
steps are single calls on shared tables, and their laws hold after every sequence of steps.

What the proofs found out about the code:

- With a retry limit of zero a step is recorded as succeeded without being dispatched, and an undo then
  reports `world_restored` over an unchanged world (`Execute.SuccessMeansDispatch`, `Execute.ZeroRetriesSucceed`,
  `Restore.NoRetriesNothingUndone`).
- A restored file has a new inode, and an effect whose captured inode is no longer the file's does not compile:
  once a later effect on the same file is undone, it is escalated with VR3008, and the guard of the step itself
  (VR5009) stands behind that. So two writes to one existing file are never both restored; the report says so
  (`RestoreExact.RestoredExactly`, `RestoreExact.FirstRefused`, `RestoreExact.TwoWritesSaga`).
- An effect's stored `status` departs from the one folded from its events exactly when the last probe sent while
  executing its plan did not find it landed; its stored `compensation_state` departs only where VR5010 or VR5012
  leaves the pass before the run has logged anything (`UndoLaws.StoredIsFolded`).
- Undoing again after an effect was escalated throws VR5012 but first logs `compensation_planned`, so the undo
  after that runs the plan (`UndoReport.RerunRefused`, `UndoReport.RefusedThenRuns`).
- A holder may commit a claim under a fence the coordinator has moved past, when no lease is live
  (`Coordinator.OlderFenceMayWin`, `Coordinator.OlderFenceWins`).
- An acquire that arrives after its caller gave up and asked again moves the fence on under the caller's belief
  (`LeaseClients.LateAcquireMovesFence`); the believed fence is the store's exactly when no acquire of that client
  on that key was granted since (`LeaseClients.FenceExact`). Exclusion holds either way.
- When a lease was fenced meanwhile, `releaseAll` leaves every lower key in the table
  (`LeaseAcquire.ReleaseStopsAtFenced`).
- A run that asks the world about an attempt in doubt and hears that it did not land records it as failed and goes
  on to the next step, so that it may end well without the step (`ExecuteRuns.ProbeExact`).
- An inverse UPDATE whose row holds a null matches no row (`SqlInverse.AllBack`).
- A row bound that is missing or not a number is not checked: a plan whose DELETE has an empty `expect_rowcount`
  is accepted (`PlanLaws.DeleteAccepted`). Of accepted statements exactly those with a numeric bound, where a count
  was observed, have it held against the count (`PlanLaws.RowsBoundedExactly`).
- Line breaks in ids can let two attempts share one idempotency key (`Keys.LineBreakConfuses`), exactly when a line
  of the saga id after its first, or of the compensator id before its last, prints an integer
  (`Keys.MaterialExact`). `openSaga` gives every saga a ULID (sdk-ts/src/saga.ts:102), so such a saga id comes only
  from a caller of the exported `deriveIdempotencyKey` or of the ledger; between saga ids of one line the keys bind
  whatever the compensator id.
- The anchors that the http ledger's local log takes never reach the server. The buffer is the end of the log
  exactly when no anchor was logged after an event still unsent (`WriteBehind.PlainSuffixExact`,
  `WriteBehind.AnchorStaysBehind`).
- An anchored event of a user saga would be recorded beside the ledger's own anchors and break their numbering,
  unless it repeats a number (`Anchors.ForeignAnchor`).

## Model

| member | source | states |
|---|---|---|
| Texts.LessExact | packages/core/src/jcs.ts:34-37 | one text is below another exactly if it is a proper prefix of it, or is smaller in the first code unit in which they differ |
| Texts.SortExact | packages/core/src/jcs.ts:24-37 | sorted entries are the given ones, each key below the next in that order |
| Texts.SortIgnoresOrder | packages/core/src/jcs.ts:24-37 | every arrangement of entries with distinct keys sorts to the same list |
| Jcs.JsonString | packages/core/src/jcs.ts:39-55 | the loop prints the quoted text with every character escaped by its rule |
| Jcs.CharsRoundTrip | packages/core/src/jcs.ts:39-55 | escaped characters and the closing quote are read back as the same characters, whatever follows |
| Jcs.RoundTrip | packages/core/src/jcs.ts:7-32 | an inverse parser gives back the meaning of any well-formed value from its canonical text, whatever follows |
| Jcs.CanonicalExact | packages/core/src/jcs.ts:7-37 | two values print the same text if and only if they mean the same, objects being maps: key order never matters |
| Jcs.ObjectText | packages/core/src/jcs.ts:24-32 | an object prints each member once, quoted key, colon and value, commas between, in ascending order of the keys |
| Jcs.ArrayText | packages/core/src/jcs.ts:21-23 | an array prints its elements in their order, commas between |
| Jcs.EscapeExact | packages/core/src/jcs.ts:39-55 | which code units stand for themselves, which have a short form and which take a number |
| Jcs.ScalarTexts | packages/core/src/jcs.ts:11-20 | null, true, false and numbers print as these literals |
| Base32.Crockford | packages/core/src/jcs.ts:69-86 | the accumulator loop gives a digit of the alphabet for every five bits of the input, the last ones filled up with zeros |
| Base32.DecodeEncode | packages/core/src/jcs.ts:69-86 | the digits read back give the bits and fewer than five zeros |
| Base32.CrockfordInjective | packages/core/src/jcs.ts:69-86 | byte strings of one length have equal texts only if they are equal |
| Base32.TruncatedBinds | packages/core/src/chain.ts:50-63 | the first k digits determine the first 5k/8 bytes |
| Base32.AlphabetExact | packages/core/src/jcs.ts:5 | the digits are the figures and the capital letters without I, L, O and U, ascending |
| Base32.DigitsExact | packages/core/src/jcs.ts:69-86 | the k-th digit is that of the k-th five bits of the bytes, highest bit first, and there are no more digits than needed |
| Keys.IdempotencyKeyBinds | packages/core/src/chain.ts:43-63 | with one-line plan hashes, and saga ids of as many lines or no line that could be taken for a seq, equal idempotency keys mean the same saga, effect, compensator, plan and step, or two texts whose digests agree in 20 bytes |
| Keys.MaterialBinds | packages/core/src/chain.ts:50-61 | of two attempts that hash one text, with one-line plan hashes, the saga ids have as many lines exactly when the attempts are equal |
| Keys.MaterialExact | packages/core/src/chain.ts:50-61 | an attempt with a one-line plan hash shares its hashed text with another such attempt exactly when a line of its saga id after the first, or of its compensator id before the last, is the decimal of an integer |
| Keys.MaterialLines | packages/core/src/chain.ts:50-61 | the hashed text, line by line |
| Keys.KeyShapes | packages/core/src/chain.ts:43-63 | prefixes and lengths of the identifiers, and that the rest is a beginning of the digits of the digest |
| Keys.LineBreakConfuses | packages/core/src/chain.ts:50-61 | two different attempts with one hashed text, given a line break in an id |
| Keys.EffectIdBinds | packages/core/src/chain.ts:12-21 | equal effect ids mean the same saga, seq, action and argument hash, or two texts whose digests agree in 16 bytes |
| Keys.PlanHashBinds | packages/core/src/chain.ts:27-41 | equal plan hashes mean the same effect, compensator, origin and steps as JSON values, or a collision; and the hash depends on nothing else |
| Chain.BodyTextExact | packages/core/src/chain.ts:84-97 | the hashed body of an event is the same text if and only if the events agree on every hashed field |
| Chain.BodyMembers | packages/core/src/chain.ts:84-97 | the hashed body, member by member |
| Chain.GenesisBinds | packages/core/src/chain.ts:8-10 | chains of different sagas begin with different hashes, or two texts collide |
| Chain.AcceptedExact | packages/core/src/chain.ts:116-150 | a chain is accepted exactly if every event is numbered from one, hashed, linked to the event before it or to the genesis hash, and carries no bad signature |
| Chain.FaultExact | packages/core/src/chain.ts:116-150 | which of the four reasons is given, told from the event and the hash before it |
| Chain.VerifyChain | packages/core/src/chain.ts:116-150 | the loop accepts exactly the chains whose every event has the right number, link, hash and signature, and otherwise names the least bad index and its reason |
| Chain.ChainBinding | packages/core/src/chain.ts:84-150 | two accepted chains that end in the same hash have equal length and agree event by event on every hashed field, or two bodies collide |
| Chain.TamperDetected | packages/core/src/chain.ts:116-150 | if one event of an accepted chain is replaced by another that claims its place and hash but differs in a hashed field, the chain is broken exactly there, or the two bodies collide |
| Chain.AppendAccepted | packages/core/src/chain.ts:99-106 | an event built by `chainEvent` on the last hash keeps an accepted chain accepted |
| Merkle.MerkleRoot | packages/core/src/chain.ts:152-167 | the two loops compute the root of the tree over the sorted leaves, an odd last node paired with itself |
| Merkle.RootLevels | packages/core/src/chain.ts:152-167 | the root is the top of levels whose first are the hashed leaves in the order of the saga ids, and in which each node hashes its two children or its only child twice |
| Merkle.LeafShape | packages/core/src/chain.ts:154 | the text of a leaf |
| Merkle.LeafTextExact | packages/core/src/chain.ts:154 | a leaf's text determines the saga and its head |
| Merkle.MerkleBinding | packages/core/src/chain.ts:152-167 | equal roots of two lists of heads with distinct sagas mean the same heads, or a collision among the texts hashed, for any number of leaves |
| Merkle.RootIgnoresOrder | packages/core/src/chain.ts:153 | the root does not depend on the order of the heads |
| Merkle.EmptyRoot | packages/core/src/chain.ts:155 | a non-empty list with the root of the empty one exhibits a collision |
| Anchors.FoldExact | sdk-ts/src/ledger/types.ts:325-341 | the projection keeps, for every saga, the hash of its last event and the number of its events |
| Anchors.CurrentHeadsExact | sdk-ts/src/ledger/types.ts:1105-1108 | the heads gathered for an anchor are exactly the last hashes of the user sagas |
| Anchors.ContinuesKeepsVerify | sdk-ts/src/effect.ts:319-346 | an event built on its saga's head keeps every saga verifiable |
| Anchors.MemoryLedger.Append | sdk-ts/src/ledger/types.ts:893-921 | the log grows by the event and at most one anchor; every saga stays verifiable, every anchor's root is the root of the heads folded from the events before it, anchors are numbered and linked, and fewer than `anchorEvery` events stay un-anchored once a user saga exists |
| Anchors.MemoryLedger.MaybeTickAnchor | sdk-ts/src/ledger/types.ts:1074-1084 | an anchor is added exactly when one is due, none is under way and a user saga exists |
| Anchors.MemoryLedger.FireAnchor | sdk-ts/src/ledger/types.ts:1101-1138 | the anchor event is appended under the flag that ends the recursion |
| Anchors.MemoryLedger.AppendChained | sdk-ts/src/effect.ts:319-346 | the event appended continues its saga |
| Anchors.LogStep | sdk-ts/src/ledger/types.ts:893-921 | one appended event keeps every clause of the ledger's invariant |
| Anchors.ForeignAnchor | sdk-ts/src/ledger/types.ts:470-483 | after an event of a user saga the anchor records are still those of the anchor saga exactly if it is not an anchored event or repeats a number |
| Anchors.AnchorBinding | sdk-ts/src/ledger/types.ts:1101-1138 | two verifiable logs whose heads have one root hold the same events in every user saga, or a collision exists |
| Anchors.SagaHeadsExact | sdk-ts/src/ledger/types.ts:1101-1138 | an anchor lists every user saga once, in the order of their ids, with its last hash and its length |
| Coordinator.CoordinatorStore.Acquire | sdk-ts/src/coordinate/store.ts:96-125 | grants with the next fence of the key, or answers VR5005 and changes nothing |
| Coordinator.CoordinatorStore.Renew | sdk-ts/src/coordinate/store.ts:127-134 | moves the expiry of exactly this holder's lease under this fence, expired or not, or answers VR5010 |
| Coordinator.CoordinatorStore.Release | sdk-ts/src/coordinate/store.ts:136-142 | removes exactly this holder's lease under this fence, and keeps the high-water mark |
| Coordinator.CoordinatorStore.Conflict | sdk-ts/src/coordinate/store.ts:160-220 | stores a claim or names the winner, branch by branch |
| Coordinator.ClampTtl | sdk-ts/src/coordinate/store.ts:44-47 | every ttl lies between 1 ms and 300 s |
| Coordinator.ClampExact | sdk-ts/src/coordinate/store.ts:44-47 | the ttl is rounded down and brought between 1 ms and 300 s; 30 s if there is none |
| Coordinator.AcquireExact | sdk-ts/src/coordinate/store.ts:96-125 | a key is refused exactly under another's live lease; what is granted and stored otherwise |
| Coordinator.OwnExact | sdk-ts/src/coordinate/store.ts:127-142 | exactly who may renew and give back, and what that changes |
| Coordinator.ConflictExact | sdk-ts/src/coordinate/store.ts:160-220 | exactly who wins, loses or is in doubt, who is named as the winner, and what is stored |
| Coordinator.FenceIsHighWater | sdk-ts/src/coordinate/store.ts:72-125 | a present lease carries the high-water fence of its key, after any calls |
| Coordinator.FencesIncrease | sdk-ts/src/coordinate/store.ts:96-125 | fences granted on one key strictly increase over the whole run, across releases and expiries |
| Coordinator.LeaseWasGranted | sdk-ts/src/coordinate/store.ts:96-142 | every lease ever present was granted by exactly one call, to its owner |
| Coordinator.FenceHasOneHolder | sdk-ts/src/coordinate/store.ts:96-142 | a fence of a key belongs to one holder for ever |
| Coordinator.OlderFenceIsPowerless | sdk-ts/src/coordinate/store.ts:127-142 | after a later grant an older fence renews nothing and removes nothing, whoever presents it |
| Coordinator.CommittedForEver | sdk-ts/src/coordinate/store.ts:203-220 | a committed claim stays committed to its holder and fence |
| Coordinator.OthersLose | sdk-ts/src/coordinate/store.ts:160-220 | after a commit every conflict call by another holder or fence loses and changes nothing |
| Coordinator.OneWinner | sdk-ts/src/coordinate/store.ts:160-220 | at most one holder and fence ever wins a commit on a key |
| Coordinator.OlderFenceMayWin | sdk-ts/src/coordinate/store.ts:189-220 | a fence the store moved past wins exactly when no lease is live and no other has committed |
| Coordinator.OlderFenceWins | sdk-ts/src/coordinate/store.ts:189-220 | a run in which it does |
| LeaseClients.BeliefIsSound | sdk-ts/src/engine/lease.ts:41-102 | a client that was told it holds a key until a time still to come, and did not release it, holds it in the store at least as long, whatever the network did |
| LeaseClients.NeverBoth | sdk-ts/src/engine/lease.ts:41-122 | two clients never both believe that they hold one key |
| LeaseClients.FenceExact | sdk-ts/src/engine/lease.ts:53-60 | a believed fence stems from a grant to that client, and is the store's exactly when no acquire of that client on that key was granted after it |
| LeaseClients.BeliefIsExact | sdk-ts/src/engine/lease.ts:53-60 | so it is, if no acquire of that client on that key is taken up after its caller stopped waiting |
| LeaseClients.LateAcquireMovesFence | sdk-ts/src/coordinate/store.ts:96-134 | a run in which a late acquire makes the believer's renewal fail |
| LeaseClients.NextOk | sdk-ts/src/coordinate/store.ts:96-142 | one step of any client, the network, the clock or the store keeps the invariant behind these |
| LeaseAcquire.SortedKeysExact | sdk-ts/src/engine/lease.ts:37-39 | the keys of a call are the given ones, once each, ascending by their first different code unit |
| LeaseAcquire.LeaseTable.AcquireLease | sdk-ts/src/ledger/types.ts:967-981 | on the table as the others left it, a key under another's live lease is refused, and otherwise taken for the ttl under the next fence |
| LeaseAcquire.LeaseTable.TakeAll | sdk-ts/src/engine/lease.ts:53-60 | one attempt holds exactly a beginning of the keys; refused at a key, it holds only keys below it, and the key is under another's live lease |
| LeaseAcquire.LeaseTable.ReleaseAll | sdk-ts/src/engine/lease.ts:76-86 | whatever the others do before each call, gives keys back from the last down until it meets one that is fenced; nothing is left if none of them is |
| LeaseAcquire.LeaseTable.AcquireAll | sdk-ts/src/engine/lease.ts:41-74 | ends; all the leases with their fences, or none and the deadline passed; all if nobody else ever has one of the keys; it never sleeps holding a lease, and every wait is the poll interval or what is left to the deadline |
| LeaseAcquire.LeaseTable.Sleep | sdk-ts/src/engine/lease.ts:67-70 | is entered only when nothing is held, and moves the clock on |
| LeaseAcquire.NoWaitCycle | sdk-ts/src/engine/lease.ts:37-60 | refused calls that hold only keys below the one they want never wait in a circle |
| LeaseAcquire.ReleaseStopsAtFenced | sdk-ts/src/engine/lease.ts:76-86 | on a table nobody else touches, a key is given back exactly when neither it nor any key above it was fenced |
| Execute.EntriesBounded | sdk-ts/src/engine/execute.ts:385-541 | if runs keep their leases until release or death, a step's retry loop was entered exactly once for each run that died inside it, and once more if the attempt has its result or a run is inside; successful dispatches are no more than entries |
| Execute.SucceededForEver | sdk-ts/src/engine/execute.ts:134-146 | a step recorded as succeeded stays so and is never dispatched again |
| Execute.SuccessMeansDispatch | sdk-ts/src/engine/execute.ts:501-541 | a recorded success has a successful dispatch behind it exactly when the retry limit is positive |
| Execute.ZeroRetriesSucceed | sdk-ts/src/engine/execute.ts:501-541 | a run with a retry limit of zero in which a step is recorded as succeeded with no dispatch |
| Execute.StepsInOrder | sdk-ts/src/engine/execute.ts:385-541 | a step is attempted only after all before it succeeded, and of a run that ended well every step took effect, exactly once if no run died at it |
| Execute.NextOk | sdk-ts/src/engine/execute.ts:134-541 | one step of any run, a crash, a heartbeat or time keeps the invariant behind these |
| Execute.Exclusive | sdk-ts/src/engine/lease.ts:104-122 | two runs between taking and releasing kept leases are the same run |
| Execute.TwiceWithoutKeeping | sdk-ts/src/engine/execute.ts:157-161 | a run in which a lease runs out and a step takes effect twice though no process dies |
| Execute.CrashCostsOneMore | sdk-ts/src/engine/execute.ts:157-161 | a run with kept leases and one death in which the step is entered and takes effect twice: the bound is reached |
| ExecuteRuns.CheckedBeforeEntry | sdk-ts/src/engine/execute.ts:491-501 | in every run, whatever leases do: the retry loop of a step is entered only by a run that, for each key, held it live under its own name and fence at some moment of this check of its fences |
| ExecuteRuns.LostLeaseStops | sdk-ts/src/engine/execute.ts:491-499 | a fence check passes exactly if the lease is held; otherwise nothing is dispatched, the run gives up, and the attempt becomes in doubt exactly if the lease ran out or is gone |
| ExecuteRuns.LostLeaseEnds | sdk-ts/src/engine/execute.ts:491-499 | a run that found its lease lost never ends well, whatever happens after |
| ExecuteRuns.JudgeExact | sdk-ts/src/engine/execute.ts:134-160 | exactly when a run that finds an attempt goes past it, at it again, to the world, waits or gives up |
| ExecuteRuns.PollExact | sdk-ts/src/engine/execute.ts:161-180 | exactly how a wait for another run's attempt goes on or ends |
| ExecuteRuns.ProbeExact | sdk-ts/src/engine/execute.ts:424-487 | what an attempt in doubt becomes, by the answer of the world |
| ExecuteRuns.RetryLoop | sdk-ts/src/engine/execute.ts:501-516 | from the outcomes alone: the loop dispatches until an outcome other than a retryable error, at most up to the limit, and the last outcome is its result |
| ExecuteRuns.AcquireExact | sdk-ts/src/ledger/types.ts:967-981 | a key is refused exactly under another's live lease, and otherwise taken for the ttl under the next fence |
| ExecuteRuns.ReleaseRun | sdk-ts/src/engine/lease.ts:76-86 | unless one was fenced, a run gives back all its leases, and then ends or begins anew |
| ExecuteRuns.HeartbeatExact | sdk-ts/src/engine/lease.ts:88-102 | a heartbeat moves the expiry of a lease the run has under its fence, expired or not, and nothing else |
| ExecuteRuns.SuccessCause | sdk-ts/src/engine/execute.ts:424-541 | in every run a row becomes a success only by a run that records it or on the word of the world |
| UndoEngine.SagaLedger.Append | sdk-ts/src/ledger/types.ts:1228-1248 | the event is logged and folded into the stored row |
| UndoEngine.SagaLedger.PersistState | sdk-ts/src/engine/undo.ts:88-91 | the row copy, with the new state, is written over the stored row |
| UndoEngine.SagaLedger.Settle | sdk-ts/src/engine/undo.ts:93-140 | an effect in doubt is probed, and what follows from the answer is logged and stored |
| UndoEngine.SagaLedger.Compensate | sdk-ts/src/engine/undo.ts:252-308 | dry run, unavailable and available effects |
| UndoEngine.SagaLedger.Attempt | sdk-ts/src/engine/undo.ts:310-381 | rejected, manual and high-cascade plans are escalated, and a refused transition throws VR5012 |
| UndoEngine.SagaLedger.Execute | sdk-ts/src/engine/undo.ts:383-486 | every way a run of the plan can end is logged, stored and reported |
| UndoEngine.SagaLedger.UndoSaga | sdk-ts/src/engine/undo.ts:177-530 | the loop over all rows, the report and the final status are the specified pass |
| UndoEngine.SagaLedger.WorkList | sdk-ts/src/engine/undo.ts:190-202 | the work list holds exactly the eligible effects at or above `toSeq` |
| UndoLaws.StoredIsFolded | sdk-ts/src/engine/undo.ts:177-530 | on every exit, exceptions included: a stored compensation state is the one folded from the log unless VR5010 or VR5012 left the pass there before the run logged anything, and a stored status is, exactly unless the effect was settled after a run whose last probe did not find it landed |
| UndoLaws.SettleTracks | sdk-ts/src/engine/undo.ts:225-486 | the same for one effect, and exactly which exceptions leave the stored state behind |
| UndoLaws.SettleWorld | sdk-ts/src/engine/undo.ts:225-486 | the world changes exactly by the run of the plan, when there is one |
| UndoReport.ReportOrder | sdk-ts/src/engine/undo.ts:190-223 | report rows strictly descend, every effect of the work list has exactly one, others stand for eligible effects below `toSeq`, and nothing below the halting effect is attempted |
| UndoReport.HaltFreezes | sdk-ts/src/engine/undo.ts:209-217 | from the halting effect on neither rows, log nor world change |
| UndoReport.CountsAdd | sdk-ts/src/engine/undo.ts:488-492 | attempted = compensated + skipped + failed + escalated |
| UndoReport.RestoredMeansAll | packages/core/src/report.ts:21-24 | `world_restored` means every eligible effect was run and compensated in full, none left below `toSeq`, no halt, and status undone |
| UndoReport.RerunRefused | sdk-ts/src/engine/undo.ts:381 | VR5012 is thrown exactly when a runnable plan meets a failed or escalated effect, or the run throws it |
| UndoReport.RefusedThenRuns | sdk-ts/src/engine/undo.ts:329-381 | after that exception the effect is planned, and the next undo runs it |
| UndoOutcome.HaltsExactly | sdk-ts/src/engine/undo.ts:177-530 | on the report and the options alone: the pass halts at the effect whose line is unresolved, or failed, escalated or manual while the options halt and it is not independent; exactly the effects of the work list below it are not attempted; and the result is blocked exactly by an unresolved one |
| UndoOutcome.OutcomeExact | sdk-ts/src/engine/undo.ts:225-486 | exactly which outcome, completeness and code an effect gets, and when the pass throws and what, told from probe, compilation and run |
| UndoOutcome.LogExact | sdk-ts/src/engine/undo.ts:225-486 | exactly which events one effect adds to the log, in order |
| UndoOutcome.FinalStatusExact | sdk-ts/src/engine/undo.ts:507-514 | undone, failed or partially undone, told from the lines |
| UndoOutcome.StatusExact | sdk-ts/src/engine/undo.ts:177-530 | the saga's status after a dry run, after an exception and after a pass, and the last event |
| UndoOutcome.ReportCounts | sdk-ts/src/engine/undo.ts:488-505 | the numbers of a report count its lines by outcome |
| Projections.ProjectionExact | sdk-ts/src/ledger/types.ts:349-460 | what each event makes of the status and the compensation state of its effect |
| World.Machine.WriteAtomic | sdk-ts/src/engine/steps/fs.ts:102-117 | the target has the bytes and the mode, or the file system is as the break left it |
| World.Machine.ExecuteStep | sdk-ts/src/engine/steps/fs.ts:119-157 | the step's effect on files and resources, guard and errors included |
| World.Machine.RunStep | sdk-ts/src/engine/execute.ts:501-541 | the retry loop repeats VR5001 only, up to the limit, and leaves no error if never entered |
| World.RetryTries | sdk-ts/src/engine/execute.ts:501-541 | a further try is made exactly after VR5001, as long as the limit allows; the last try decides the world and the error |
| World.PutBackExact | sdk-ts/src/engine/steps/fs.ts:61-157 | when putting bytes back is refused, fails and works, and what a break leaves |
| Restore.TryRestores | packages/compensators/src/fs_write.ts:33-76 | a step that works puts back contents, modes and resources of the world before the effect, whether or not the effect had landed |
| Restore.RetryRestores | sdk-ts/src/engine/execute.ts:501-541 | so does a retry loop that ends without error, also when a deletion that took effect was answered with an error |
| Restore.RestoredIsRestored | sdk-ts/src/engine/undo.ts:177-530 | if an undo of eligible effects reports `world_restored` and the retry limit is positive, files and resources equal those before the first effect, also when effects share a path |
| Restore.NoRetriesNothingUndone | sdk-ts/src/engine/execute.ts:501-541 | with a retry limit of zero the same report leaves the world unchanged |
| RestoreExact.RestoredExactly | sdk-ts/src/engine/undo.ts:177-530 | with nothing going wrong, `world_restored` is reported exactly when there is an effect and no guarded effect is followed by one whose undoing replaces the same file |
| RestoreExact.FirstRefused | packages/core/src/plan.ts:734-772 | the first guarded effect so followed that the pass comes to is escalated with VR3008, everything above it restored and nothing else changed |
| RestoreExact.CalmStep | sdk-ts/src/engine/steps/fs.ts:61-157 | an undisturbed step works exactly when it is not refused so |
| RestoreExact.TwoWritesRefused | packages/core/src/plan.ts:743-758 | of two writes to one existing file the first is refused |
| RestoreExact.TwoWritesSaga | sdk-ts/src/engine/undo.ts:177-530 | a saga of two writes to one file, with nothing going wrong, of which the first is refused |
| RestoreExact.OneFileRestored | sdk-ts/src/engine/undo.ts:177-530 | a saga that is restored |
| SqlInverse.PlanForSql | packages/compensators/src/sql_row.ts:62-136 | the loops fill SET, WHERE and VALUES with one reference per member |
| SqlInverse.AssembleSql | sdk-ts/src/engine/steps/sql.ts:31-69 | the parameters, in order, are the values of the columns their placeholders stand for; VR3009 exactly for bad identifiers and empty clauses |
| SqlInverse.IdentExact | sdk-ts/src/engine/steps/sql.ts:18-23 | identifiers are letters, digits and underscores, and begin with no digit |
| SqlInverse.Db.ExecuteSql | sdk-ts/src/engine/steps/sql.ts:80-92 | runs the statement, then holds its row count against one |
| SqlInverse.UpdateInverse | packages/compensators/src/sql_row.ts:86-113 | on any table: the exact row before is back if the row after is still there and has no null; otherwise nothing changes and VR5006 |
| SqlInverse.InsertInverse | packages/compensators/src/sql_row.ts:70-84 | the row under the key goes; VR5006 if there is none |
| SqlInverse.DeleteInverse | packages/compensators/src/sql_row.ts:115-135 | the exact row is back if its key is free; otherwise nothing changes |
| SqlInverse.OneKeyOnly | packages/compensators/src/sql_row.ts:62-136 | an inverse touches no row under another key |
| SqlInverse.AllBack | packages/compensators/src/sql_row.ts:62-136 | inverses in reverse order restore the table after any single-row changes exactly when no UPDATE left a null |
| WriteBehind.SuffixAndPrefix | sdk-ts/src/ledger/http.ts:119-142 | batch under way plus pending is the end of the log without its anchors, and first arrivals at the server are a beginning of that, without a gap, under any failures |
| WriteBehind.NothingLost | sdk-ts/src/ledger/http.ts:119-142 | of the logged events exactly those that are not anchors have reached the server or are still to be sent |
| WriteBehind.AllArrived | sdk-ts/src/ledger/http.ts:119-142 | when nothing is left to send, the server has the whole log in order, without the anchors |
| WriteBehind.PlainSuffixExact | sdk-ts/src/ledger/http.ts:210-220 | batch under way plus pending is the end of the log as it stands exactly when no anchor was logged after one of their events |
| WriteBehind.AnchorStaysBehind | sdk-ts/src/ledger/http.ts:210-220 | a run in which it is not, and the server never gets the anchor |
| WriteBehind.HttpLedger.PostEvents | sdk-ts/src/ledger/http.ts:96-117 | ends well exactly if a post for each event is acknowledged; the server gets the events in order up to the first post that fails, that one too exactly if it is stored unacknowledged; the batch is put back before what was appended meanwhile |
| WriteBehind.HttpLedger.FlushPending | sdk-ts/src/ledger/http.ts:119-142 | posts the pending events and those appended on the way, each once and in order, up to the first post that fails; ends well exactly if none is left, and so whenever the network acknowledges enough posts; then the server has every event of the log but its anchors |
| Plan.CompilePlan | packages/core/src/plan.ts:50-129 | the checks in their order, each a loop over the steps, give the first error or the resolved steps |
| Plan.CheckResolved | packages/core/src/plan.ts:84-101 | unsafe statements, scope, eight steps and distinct mutated resources, in this order |
| PlanLaws.ArgErrorExact | packages/core/src/plan.ts:383-409 | accepts exactly the trees in which everything bare or malformed sits inside a reference to a known source |
| PlanLaws.ConstExact | packages/core/src/plan.ts:422-431 | finds a constant exactly when one stands anywhere in a step |
| PlanLaws.CredentialExact | packages/core/src/plan.ts:482-536 | refuses exactly when a credential stands at any depth of an argument other than http headers or MCP arguments |
| PlanExact.CompileExact | packages/core/src/plan.ts:50-129 | exactly which answer the compiler gives, by the first condition that fails, each condition said about the members of the steps |
| PlanExact.AcceptedExactly | packages/core/src/plan.ts:50-129 | a plan is accepted if and only if every one of these conditions holds |
| PlanExact.ClosedExact | packages/core/src/plan.ts:265-317 | the seven kinds of steps, the members each may have and those it needs |
| PlanExact.ArgumentsExact | packages/core/src/plan.ts:345-381 | which members of which kind of step must come from a known source |
| PlanExact.PlacedExact | packages/core/src/plan.ts:482-536 | which members of which kind of step may hold no credential |
| PlanExact.ScopeExact | packages/core/src/plan.ts:587-732 | table, key columns and row bound of a statement, and the kinds without a scope |
| PlanExact.ApartExact | packages/core/src/plan.ts:96-101 | no two steps that touch something touch one resource |
| PlanExact.DeepExact | packages/core/src/plan.ts:450-480 | a resolved tree is the tree with every reference replaced by its answer and nothing else changed |
| PlanExact.RefAnswer | packages/core/src/plan.ts:157-219 | what a reference to each known source is answered with |
| PlanExact.SourceShape | packages/core/src/plan.ts:411-420 | the known sources |
| PlanExact.RefShape | packages/core/src/plan.ts:249-255 | a reference is an object with the one member `$ref`, a string |
| PlanLaws.AcceptedSqlScope | packages/core/src/plan.ts:703-732 | an accepted UPDATE or DELETE names every primary key column, and its row bound, if a number, is no larger than the observed count |
| PlanLaws.RowsBoundedExactly | packages/core/src/plan.ts:726-730 | a statement of an accepted plan has its rows bounded by the observed count exactly when its bound is a number and a count was observed |
| PlanLaws.DeleteAccepted | packages/core/src/plan.ts:703-732 | a plan whose DELETE has an empty row bound is accepted, whatever count was observed |
| PlanLaws.RunsAsChecked | sdk-ts/src/engine/step.ts:58-73 | each step of an accepted plan resolves at run time to the tree that was checked, with the attempt's id in its places; exactly a constant under a drafted signature makes it fail |
| PlanLaws.RunDeep | packages/core/src/plan.ts:450-480 | the same for any tree that compiled |
| PlanLaws.NothingToStamp | sdk-ts/src/engine/step.ts:61 | a tree without the attempt's id runs as it compiled |

## Left out

- Number printing: a finite number is given by the text ECMAScript prints for it, so that two numbers are equal when these texts are.
- Text encoding before hashing: hashes take UTF-16 texts, so two texts with lone surrogates that encode to the same bytes count as a collision.
- SHA-256, Ed25519, URL parsing, JSON paths, regular expressions: parameters of the models.
- Concurrent `appendChained` calls on one saga: the head is read before an await, and appends to one saga are taken as sequential.
- ISO timestamps are numbers; they compare like their texts for the years 0 to 9999.
- Anchors.MemoryLedger.Append: persistence hooks and fsync are not modelled, and the clock readings of one append are given with it; events of user sagas must not be of kind `ledger_anchored`, which only the ledger itself appends (sdk-ts/src/ledger/types.ts:1120); `ForeignAnchor` says what such an event would do.
- Coordinator.CoordinatorStore.Conflict: the event table and HTTP transport of the coordinator are not modelled.
- LeaseClients.BeliefIsSound: a request is taken up at most once, clients and store share one clock, and the ttl is fixed.
- LeaseAcquire.LeaseTable.AcquireAll: assumes that the others fence none of the call's leases meanwhile and that no ledger call fails on transport; `ReleaseAll` covers a lease that was fenced.
- Execute.EntriesBounded: the ledger and its attempts are values in a transition system, not objects, since runs interleave; a poll reads attempt and lease in one step; postconditions, the coordinator's verdicts and the gates before the leases are not part of it; attempts that a probe found not landed are outside it, and `ExecuteRuns` covers runs that lose their leases.
- The branch of `executePlan` for dry runs, plans held under leases of the caller, and drafted plans is not modelled.
- UndoEngine.SagaLedger.UndoSaga: rows come in ascending seq, as the query orders them, and are copies, as from the SQL ledger; the transition table's `in_doubt` entry, a state no effect has by its type, an unknown saga and a failing `raise` are not modelled; `compileFor` and the matcher answer from a script.
- UndoOutcome.HaltsExactly: no compilation answers VR5011, a code that only the pass itself gives (sdk-ts/src/engine/undo.ts:239, 434).
- Projections: fields of effects other than status and compensation state; resolutions of escalations are folded but no undo step appends one.
- World.Machine.ExecuteStep: directories, symbolic links, renames over an existing file and the re-read digest are not modelled; device and inode are one number.
- Restore.RestoredIsRestored: the server is taken to answer 2xx or 404 to a DELETE only when the resource is gone.
- RestoreExact.RestoredExactly: plans compile but for the identity check of the file; new inodes are taken to differ from every inode the saga recorded, and paths to have distinct inodes.
- SqlInverse.UpdateInverse: column types, affinity and collation are not modelled, a single table with one unique key is, and the database counts matched rows; the primary key column is given, not parsed from resource keys. Undo itself escalates these plans, because their cascade risk is high.
- Plan.CompilePlan: header templates are taken as expanded, method and dialect as texts; http, file and MCP scope, the search for SQL text and the resource a step mutates are parameters; the plan record is left out. JavaScript's `in` also finds members of the prototype, so that a key column named `constructor` counts as present, and `String(…)` accepts an array as a method; the model is stricter there.
- PlanLaws.CredentialExact: members that are not arguments, such as `expect`, are not checked by the compiler either.
- WriteBehind.HttpLedger.FlushPending: how each post ends, and what is appended during it, is given with the call, post by post.
- WriteBehind.SuffixAndPrefix: events have distinct ids; one append is one step, so an append that overtakes another while that one logs its anchor is not modelled; when an anchor is due is left to the caller (`Anchors` says when); pulling sagas and comparing server hashes are not modelled.
- Model-backed drafting and verification, classification, the CLI, HTTP servers and clients, database drivers, the Python SDK.
