/** The cross-ledger coordinator: per-resource leases with a fence that never goes back, and claims. */
module Coordinator {
  import opened Options

  const TTL_MIN := 1
  const TTL_MAX := 300_000
  const TTL_DEFAULT := 30_000

  datatype Lease = Lease(holder: string, acquiredAt: int, expiresAt: int, fence: nat)

  /** Who asks: a holder and the fence it believes it has. */
  datatype Party = Party(holder: string, fence: int)

  datatype ClaimState = Claimed | Committed

  datatype Claim = Claim(who: Party, sagaId: string, planHash: string, state: ClaimState, updatedAt: int)

  datatype Tables = Tables(leases: map<string, Lease>, highWater: map<string, nat>, claims: map<string, Claim>)

  const EMPTY := Tables(map[], map[], map[])

  datatype Op =
    | Acquire(key: string, holder: string, ttl: Option<real>, now: int)
    | Renew(key: string, who: Party, ttl: Option<real>, now: int)
    | Release(key: string, who: Party)
    | Conflict(key: string, who: Party, sagaId: string, planHash: string, vr5006: bool, commit: bool, now: int)

  /** `Busy` is VR5005, `Stale` is VR5010. */
  datatype Reply =
    | Granted(lease: Lease)
    | Busy
    | Renewed(expiresAt: int)
    | Stale
    | Released
    | Won(claim: Claim)
    | Lost(winner: Claim)
    | InDoubt

  /** `clampTtl`; a missing, infinite or undefined ttl is `None`. */
  function ClampTtl(ttl: Option<real>): (ms: int)
    ensures TTL_MIN <= ms <= TTL_MAX
  {
    match ttl
    case None => TTL_DEFAULT
    case Some(x) => if x.Floor < TTL_MIN then TTL_MIN else if x.Floor > TTL_MAX then TTL_MAX else x.Floor
  }

  function HighWater(t: Tables, key: string): nat {
    if key in t.highWater then t.highWater[key] else 0
  }

  function Owner(l: Lease): Party {
    Party(l.holder, l.fence)
  }

  /** The lease on `key` is live at `now` and is not held under exactly this holder and fence. */
  predicate HeldByOther(t: Tables, key: string, who: Party, now: int) {
    key in t.leases && Owner(t.leases[key]) != who && t.leases[key].expiresAt > now
  }

  predicate ClaimedByOther(t: Tables, key: string, who: Party) {
    key in t.claims && t.claims[key].who != who
  }

  predicate CommittedByOther(t: Tables, key: string, who: Party) {
    ClaimedByOther(t, key, who) && t.claims[key].state == Committed
  }

  /** The lease `acquire` would hand out. */
  function Offer(t: Tables, key: string, holder: string, ttl: Option<real>, now: int): Lease {
    Lease(holder, now, now + ClampTtl(ttl), HighWater(t, key) + 1)
  }

  /** The claim `conflict` would store. */
  function Staked(t: Tables, op: Op): Claim
    requires op.Conflict?
  {
    var kept := op.key in t.claims && t.claims[op.key].state == Committed;
    Claim(op.who, op.sagaId, op.planHash, if op.commit || kept then Committed else Claimed, op.now)
  }

  function Answer(t: Tables, op: Op): Reply {
    match op
    case Acquire(key, holder, ttl, now) =>
      if key in t.leases && t.leases[key].holder != holder && t.leases[key].expiresAt > now then Busy
      else Granted(Offer(t, key, holder, ttl, now))
    case Renew(key, who, ttl, now) =>
      if key !in t.leases || Owner(t.leases[key]) != who then Stale else Renewed(now + ClampTtl(ttl))
    case Release(key, who) =>
      if key in t.leases && Owner(t.leases[key]) != who then Stale else Released
    case Conflict(key, who, sagaId, planHash, vr5006, commit, now) =>
      if vr5006 then
        if ClaimedByOther(t, key, who) then Lost(t.claims[key]) else InDoubt
      else if HeldByOther(t, key, who, now) then
        Lost(if key in t.claims then t.claims[key] else Claim(Owner(t.leases[key]), "", "", Claimed, now))
      else if CommittedByOther(t, key, who) then Lost(t.claims[key])
      else Won(Staked(t, op))
  }

  function Step(t: Tables, op: Op): Tables {
    match (op, Answer(t, op))
    case (Acquire(key, _, _, _), Granted(l)) =>
      t.(leases := t.leases[key := l], highWater := t.highWater[key := l.fence])
    case (Renew(key, _, _, _), Renewed(until)) =>
      t.(leases := t.leases[key := t.leases[key].(expiresAt := until)])
    case (Release(key, _), Released) => t.(leases := t.leases - {key})
    case (Conflict(key, _, _, _, _, _, _), Won(c)) => t.(claims := t.claims[key := c])
    case _ => t
  }

  /** The three tables of the store, updated in place. Each call is one transaction. */
  class CoordinatorStore {
    var leases: map<string, Lease>
    var highWater: map<string, nat>
    var claims: map<string, Claim>

    ghost function Contents(): Tables
      reads this
    {
      Tables(leases, highWater, claims)
    }

    constructor ()
      ensures Contents() == EMPTY
    {
      leases, highWater, claims := map[], map[], map[];
    }

    method GetLease(key: string) returns (row: Option<Lease>)
      ensures row == if key in leases then Some(leases[key]) else None
    {
      if key in leases { return Some(leases[key]); }
      return None;
    }

    method GetClaim(key: string) returns (row: Option<Claim>)
      ensures row == if key in claims then Some(claims[key]) else None
    {
      if key in claims { return Some(claims[key]); }
      return None;
    }

    method Acquire(key: string, holder: string, ttl: Option<real>, now: int) returns (reply: Reply)
      modifies this
      ensures reply == Answer(old(Contents()), Op.Acquire(key, holder, ttl, now))
      ensures Contents() == Step(old(Contents()), Op.Acquire(key, holder, ttl, now))
    {
      var ms := ClampTtl(ttl);
      var existing := GetLease(key);
      if existing.Some? && existing.value.holder != holder && existing.value.expiresAt > now {
        return Busy;
      }
      var fence: nat := 1;
      if key in highWater { fence := highWater[key] + 1; }
      var lease := Lease(holder, now, now + ms, fence);
      leases := leases[key := lease];
      highWater := highWater[key := fence];
      return Granted(lease);
    }

    method Renew(key: string, who: Party, ttl: Option<real>, now: int) returns (reply: Reply)
      modifies this`leases
      ensures reply == Answer(old(Contents()), Op.Renew(key, who, ttl, now))
      ensures Contents() == Step(old(Contents()), Op.Renew(key, who, ttl, now))
    {
      var existing := GetLease(key);
      if existing.None? || existing.value.holder != who.holder || existing.value.fence != who.fence {
        return Stale;
      }
      var until := now + ClampTtl(ttl);
      leases := leases[key := existing.value.(expiresAt := until)];
      return Renewed(until);
    }

    method Release(key: string, who: Party) returns (reply: Reply)
      modifies this`leases
      ensures reply == Answer(old(Contents()), Op.Release(key, who))
      ensures Contents() == Step(old(Contents()), Op.Release(key, who))
    {
      var existing := GetLease(key);
      if existing.None? {
        assert leases - {key} == leases;
        return Released;
      }
      if existing.value.holder != who.holder || existing.value.fence != who.fence { return Stale; }
      leases := leases - {key};
      return Released;
    }

    method Conflict(key: string, who: Party, sagaId: string, planHash: string, vr5006: bool, commit: bool, now: int)
      returns (reply: Reply)
      modifies this`claims
      ensures reply == Answer(old(Contents()), Op.Conflict(key, who, sagaId, planHash, vr5006, commit, now))
      ensures Contents() == Step(old(Contents()), Op.Conflict(key, who, sagaId, planHash, vr5006, commit, now))
    {
      var lease := GetLease(key);
      var claim := GetClaim(key);
      if vr5006 {
        if claim.Some? && claim.value.who != who { return Lost(claim.value); }
        return InDoubt;
      }
      if lease.Some? && (lease.value.holder != who.holder || lease.value.fence != who.fence)
         && lease.value.expiresAt > now
      {
        if claim.Some? { return Lost(claim.value); }
        return Lost(Claim(Party(lease.value.holder, lease.value.fence), "", "", Claimed, now));
      }
      if claim.Some? && claim.value.state == Committed && claim.value.who != who { return Lost(claim.value); }
      var state := if commit || (claim.Some? && claim.value.state == Committed) then Committed else Claimed;
      var saved := Claim(who, sagaId, planHash, state, now);
      claims := claims[key := saved];
      return Won(saved);
    }
  }

  // ---------------------------------------------------------------- runs

  /** The tables after a run of calls on an empty store; clocks may do anything. */
  function After(ops: seq<Op>): Tables {
    if ops == [] then EMPTY else Step(After(ops[..|ops| - 1]), ops[|ops| - 1])
  }

  function ReplyAt(ops: seq<Op>, i: nat): Reply
    requires i < |ops|
  {
    Answer(After(ops[..i]), ops[i])
  }

  /** Call `i` granted `key` to this party. */
  predicate GrantAt(ops: seq<Op>, i: nat, key: string, to: Party) {
    i < |ops| && ops[i].Acquire? && ops[i].key == key && ReplyAt(ops, i).Granted? && Owner(ReplyAt(ops, i).lease) == to
  }

  /** Call `i` won and left the claim on `key` committed. */
  predicate CommitAt(ops: seq<Op>, i: nat, key: string, who: Party) {
    i < |ops| && ops[i].Conflict? && ops[i].key == key && ops[i].who == who
    && ReplyAt(ops, i).Won? && ReplyAt(ops, i).claim.state == Committed
  }

  lemma AfterNext(ops: seq<Op>, i: nat)
    requires i < |ops|
    ensures After(ops[..i + 1]) == Step(After(ops[..i]), ops[i])
  {
    assert ops[..i + 1][..i] == ops[..i];
  }

  /** A lease that is present carries the latest fence of its key, in every reachable state. */
  lemma {:induction false} FenceIsHighWater(ops: seq<Op>)
    ensures forall key :: key in After(ops).leases ==> After(ops).leases[key].fence == HighWater(After(ops), key)
  {
    if ops != [] {
      FenceIsHighWater(ops[..|ops| - 1]);
    }
  }

  lemma StepGrows(t: Tables, op: Op, key: string)
    ensures HighWater(t, key) <= HighWater(Step(t, op), key)
  {
  }

  lemma {:induction false} HighWaterGrows(ops: seq<Op>, i: nat, j: nat, key: string)
    requires i <= j <= |ops|
    ensures HighWater(After(ops[..i]), key) <= HighWater(After(ops[..j]), key)
    decreases j - i
  {
    hide Step, HighWater;
    if i < j {
      AfterNext(ops, j - 1);
      HighWaterGrows(ops, i, j - 1, key);
      StepGrows(After(ops[..j - 1]), ops[j - 1], key);
    }
  }

  /** Fences granted on one key strictly increase over the whole run, across releases and expiries. */
  lemma FencesIncrease(ops: seq<Op>, i: nat, j: nat, key: string, a: Party, b: Party)
    requires i < j && GrantAt(ops, i, key, a) && GrantAt(ops, j, key, b)
    ensures a.fence < b.fence
  {
    AfterNext(ops, i);
    HighWaterGrows(ops, i + 1, j, key);
  }

  /** Every lease ever present was granted by exactly one call, to the party that owns it. */
  lemma {:induction false} LeaseWasGranted(ops: seq<Op>, key: string) returns (i: nat)
    requires key in After(ops).leases
    ensures GrantAt(ops, i, key, Owner(After(ops).leases[key]))
    ensures forall j: nat :: GrantAt(ops, j, key, Owner(After(ops).leases[key])) ==> j == i
  {
    var last := |ops| - 1;
    var before := ops[..last];
    var party := Owner(After(ops).leases[key]);
    if key in After(before).leases && Owner(After(before).leases[key]) == party
       && !(ops[last].Acquire? && ops[last].key == key && ReplyAt(ops, last).Granted?)
    {
      i := LeaseWasGranted(before, key);
      assert before[..i] == ops[..i];
    } else {
      i := last;
    }
    forall j: nat | GrantAt(ops, j, key, party) ensures j == i {
      if j < i { FencesIncrease(ops, j, i, key, party, party); }
      if i < j { FencesIncrease(ops, i, j, key, party, party); }
    }
  }

  /** A fence of a key belongs to one holder for ever: whoever holds the key under that fence, at any
      two moments of the run, is the same holder. */
  lemma FenceHasOneHolder(ops: seq<Op>, m: nat, n: nat, key: string)
    requires m <= |ops| && n <= |ops| && key in After(ops[..m]).leases && key in After(ops[..n]).leases
    requires After(ops[..m]).leases[key].fence == After(ops[..n]).leases[key].fence
    ensures After(ops[..m]).leases[key].holder == After(ops[..n]).leases[key].holder
  {
    var a, b := Owner(After(ops[..m]).leases[key]), Owner(After(ops[..n]).leases[key]);
    var i := LeaseWasGranted(ops[..m], key);
    var j := LeaseWasGranted(ops[..n], key);
    assert ops[..m][..i] == ops[..i] && ops[..n][..j] == ops[..j];
    assert GrantAt(ops, i, key, a) && GrantAt(ops, j, key, b);
    if i < j { FencesIncrease(ops, i, j, key, a, b); }
    if j < i { FencesIncrease(ops, j, i, key, b, a); }
  }

  /** Once a key was granted again, the older fence is dead for ever, whoever presents it: it renews
      nothing and removes nothing. */
  lemma OlderFenceIsPowerless(ops: seq<Op>, i: nat, j: nat, k: nat, key: string, a: Party, b: Party)
    requires i < j < k < |ops| && GrantAt(ops, i, key, a) && GrantAt(ops, j, key, b)
    requires (ops[k].Renew? || ops[k].Release?) && ops[k].key == key && ops[k].who.fence <= a.fence
    ensures ReplyAt(ops, k) == if key in After(ops[..k]).leases || ops[k].Renew? then Stale else Released
    ensures After(ops[..k + 1]) == After(ops[..k])
  {
    FencesIncrease(ops, i, j, key, a, b);
    AfterNext(ops, j);
    HighWaterGrows(ops, j + 1, k, key);
    FenceIsHighWater(ops[..k]);
    AfterNext(ops, k);
    assert key !in After(ops[..k]).leases ==> After(ops[..k]).leases - {key} == After(ops[..k]).leases;
  }

  predicate CommittedTo(t: Tables, key: string, who: Party) {
    key in t.claims && t.claims[key].state == Committed && t.claims[key].who == who
  }

  lemma StepKeepsCommit(t: Tables, op: Op, key: string, who: Party)
    requires CommittedTo(t, key, who)
    ensures CommittedTo(Step(t, op), key, who)
  {
  }

  /** A committed claim never changes hands and is never taken back. */
  lemma {:induction false} CommittedForEver(ops: seq<Op>, i: nat, j: nat, key: string, who: Party)
    requires i <= j <= |ops| && CommittedTo(After(ops[..i]), key, who)
    ensures CommittedTo(After(ops[..j]), key, who)
    decreases j - i
  {
    hide Step, CommittedTo;
    if i < j {
      AfterNext(ops, j - 1);
      CommittedForEver(ops, i, j - 1, key, who);
      StepKeepsCommit(After(ops[..j - 1]), ops[j - 1], key, who);
    }
  }

  /** After a commit every conflict call from any other holder or fence loses, whatever it sends. */
  lemma OthersLose(ops: seq<Op>, i: nat, j: nat, key: string, who: Party)
    requires i < j < |ops| && CommitAt(ops, i, key, who)
    requires ops[j].Conflict? && ops[j].key == key && ops[j].who != who
    ensures ReplyAt(ops, j).Lost?
    ensures After(ops[..j + 1]) == After(ops[..j])
  {
    AfterNext(ops, i);
    CommittedForEver(ops, i + 1, j, key, who);
    AfterNext(ops, j);
  }

  /** At most one holder and fence ever wins a commit on a key. */
  lemma OneWinner(ops: seq<Op>, i: nat, j: nat, key: string, a: Party, b: Party)
    requires CommitAt(ops, i, key, a) && CommitAt(ops, j, key, b)
    ensures a == b
  {
    if a != b {
      if i < j { OthersLose(ops, i, j, key, a); }
      if j < i { OthersLose(ops, j, i, key, b); }
    }
  }

  /** A fence the store has moved past can still win: exactly when no lease on the key is live and no
      other party has committed. The lease table is not consulted any further. */
  lemma OlderFenceMayWin(ops: seq<Op>, i: nat, key: string)
    requires i < |ops| && ops[i].Conflict? && ops[i].key == key && !ops[i].vr5006
    requires ops[i].who.fence < HighWater(After(ops[..i]), key)
    ensures ReplyAt(ops, i).Won? <==>
              && (key in After(ops[..i]).leases ==> After(ops[..i]).leases[key].expiresAt <= ops[i].now)
              && !CommittedByOther(After(ops[..i]), key, ops[i].who)
  {
    FenceIsHighWater(ops[..i]);
  }

  /** Such a run: B took the key over from A, B's lease ran out, and A commits under its old fence. */
  lemma OlderFenceWins() returns (ops: seq<Op>)
    ensures |ops| == 3 && GrantAt(ops, 0, "k", Party("a", 1)) && GrantAt(ops, 1, "k", Party("b", 2))
    ensures CommitAt(ops, 2, "k", Party("a", 1))
  {
    ops := [
      Op.Acquire("k", "a", Some(10.0), 0),
      Op.Acquire("k", "b", Some(10.0), 20),
      Op.Conflict("k", Party("a", 1), "s", "p", false, true, 40)
    ];
    assert ops[..0] == [];
    AfterNext(ops, 0);
    AfterNext(ops, 1);
  }

  // ---------------------------------------------------------------- one call

  /** The ttl rounded down and brought between a millisecond and five minutes; half a minute if there is none. */
  lemma ClampExact(ttl: Option<real>)
    ensures ttl == None ==> ClampTtl(ttl) == 30_000
    ensures ttl.Some? ==>
              && (ttl.value < 1.0 ==> ClampTtl(ttl) == 1) && (ttl.value >= 300_000.0 ==> ClampTtl(ttl) == 300_000)
              && (1.0 <= ttl.value < 300_000.0 ==> ClampTtl(ttl) as real <= ttl.value < (ClampTtl(ttl) + 1) as real)
  {
  }

  /** A key is refused exactly while another holder's lease on it is live. A grant runs from now for the ttl,
      under the next fence the key ever had, and touches nothing else. */
  lemma AcquireExact(t: Tables, key: string, holder: string, ttl: Option<real>, now: int)
    ensures var (op, was) := (Op.Acquire(key, holder, ttl, now), if key in t.highWater then t.highWater[key] else 0);
            var (reply, t') := (Answer(t, op), Step(t, op));
            if key in t.leases && t.leases[key].holder != holder && now < t.leases[key].expiresAt then reply == Busy && t' == t
            else
              && reply == Granted(Lease(holder, now, now + ClampTtl(ttl), was + 1))
              && t' == Tables(t.leases[key := reply.lease], t.highWater[key := was + 1], t.claims)
  {
  }

  /** Only the holder under its fence renews or gives back, whether the lease has run out or not; giving back
      what is not there is no error. */
  lemma OwnExact(t: Tables, key: string, who: Party, ttl: Option<real>, now: int)
    ensures var (op, mine) := (Op.Renew(key, who, ttl, now), key in t.leases && Party(t.leases[key].holder, t.leases[key].fence) == who);
            var until := now + ClampTtl(ttl);
            if mine then
              && Answer(t, op) == Renewed(until)
              && Step(t, op) == t.(leases := t.leases[key := Lease(who.holder, t.leases[key].acquiredAt, until, who.fence)])
            else Answer(t, op) == Stale && Step(t, op) == t
    ensures var (op, mine) := (Op.Release(key, who), key in t.leases && Party(t.leases[key].holder, t.leases[key].fence) == who);
            && (Answer(t, op) == Released <==> mine || key !in t.leases) && (Answer(t, op) == Stale <==> key in t.leases && !mine)
            && Step(t, op) == if mine then t.(leases := t.leases - {key}) else t
  {
    assert key !in t.leases ==> t.leases - {key} == t.leases;
  }

  /** Who wins a claim. Reporting VR5006 wins nothing and loses to any other party's claim. Otherwise the call
      loses exactly to another party's live lease or committed claim; it is told the claim, if there is one, and
      else the holder of the lease. A winner's claim is stored, and committed if asked for or if it was. */
  lemma ConflictExact(t: Tables, op: Op)
    requires op.Conflict?
    ensures var (reply, t') := (Answer(t, op), Step(t, op));
            var claimed := op.key in t.claims;
            var other := claimed && t.claims[op.key].who != op.who;
            var leased := op.key in t.leases && Party(t.leases[op.key].holder, t.leases[op.key].fence) != op.who
                          && op.now < t.leases[op.key].expiresAt;
            var loses := if op.vr5006 then other else leased || (other && t.claims[op.key].state == Committed);
            && (reply.Lost? <==> loses) && (reply == InDoubt <==> op.vr5006 && !other) && (reply.Won? <==> !op.vr5006 && !loses)
            && (reply.Lost? && claimed ==> reply.winner == t.claims[op.key])
            && (reply.Lost? && !claimed ==>
                  reply.winner == Claim(Party(t.leases[op.key].holder, t.leases[op.key].fence), "", "", Claimed, op.now))
            && (reply.Won? ==>
                  && reply.claim.who == op.who && reply.claim.sagaId == op.sagaId && reply.claim.planHash == op.planHash
                  && reply.claim.updatedAt == op.now
                  && (reply.claim.state == Committed <==> op.commit || (claimed && t.claims[op.key].state == Committed)))
            && t' == if reply.Won? then t.(claims := t.claims[op.key := reply.claim]) else t
  {
  }
}
