/** Clients of the coordinator over a network that delays, reorders and loses messages: what a client may
    believe about a lease it was granted. */
module LeaseClients {
  import opened Options
  import opened Coordinator

  /** One client, which holds leases under its own name, and one key. */
  datatype Slot = Slot(client: string, key: string)

  datatype What = Take | Extend(fence: nat) | Give(fence: nat)

  datatype Request = Request(slot: Slot, what: What)

  datatype Answered = Answered(request: Request, reply: Reply)

  /** `held.fences` and `held.expires_at` of the client, for one key. */
  datatype Belief = Belief(fence: nat, expiresAt: int)

  datatype Sys = Sys(
    tables: Tables, now: int,
    requests: map<nat, Request>, replies: map<nat, Answered>,
    pending: map<Slot, nat>, beliefs: map<Slot, Belief>, nextId: nat)

  datatype Action =
    | Tick(ms: nat)
    | AskTake(slot: Slot)
    | AskExtend(slot: Slot)
    | AskGive(slot: Slot)
    | Serve(id: nat)
    | Deliver(id: nat)
    | Lose(id: nat)
    | GiveUp(slot: Slot)
    | Forget(slot: Slot)

  const START := Sys(EMPTY, 0, map[], map[], map[], map[], 0)

  function OpOf(q: Request, ttl: Option<real>, now: int): Op {
    match q.what
    case Take => Op.Acquire(q.slot.key, q.slot.client, ttl, now)
    case Extend(fence) => Op.Renew(q.slot.key, Party(q.slot.client, fence), ttl, now)
    case Give(fence) => Op.Release(q.slot.key, Party(q.slot.client, fence))
  }

  function Sent(s: Sys, q: Request): Sys {
    s.(requests := s.requests[s.nextId := q], nextId := s.nextId + 1)
  }

  /** The server takes up one request, at its own time. */
  function Served(ttl: Option<real>, s: Sys, id: nat): Sys
    requires id in s.requests
  {
    var q := s.requests[id];
    var op := OpOf(q, ttl, s.now);
    s.(tables := Step(s.tables, op), requests := s.requests - {id}, replies := s.replies[id := Answered(q, Answer(s.tables, op))])
  }

  /** The client hears an answer. A grant counts only for the call it is waiting on; a renewal only under
      the fence it still has. */
  function Delivered(s: Sys, id: nat): Sys
    requires id in s.replies
  {
    var (q, reply) := (s.replies[id].request, s.replies[id].reply);
    var s' := s.(replies := s.replies - {id});
    match q.what
    case Take =>
      if q.slot !in s.pending || s.pending[q.slot] != id then s'
      else
        var heard := s'.(pending := s'.pending - {q.slot});
        if reply.Granted? then
          heard.(beliefs := heard.beliefs[q.slot := Belief(reply.lease.fence, reply.lease.expiresAt)]) else heard
    case Extend(fence) =>
      if reply.Renewed? && q.slot in s.beliefs && s.beliefs[q.slot].fence == fence
      then s'.(beliefs := s'.beliefs[q.slot := Belief(fence, reply.expiresAt)]) else s'
    case Give(_) => s'
  }

  function Next(ttl: Option<real>, s: Sys, a: Action): Sys {
    match a
    case Tick(ms) => s.(now := s.now + ms)
    case AskTake(slot) =>
      if slot in s.pending || slot in s.beliefs then s
      else Sent(s, Request(slot, Take)).(pending := s.pending[slot := s.nextId])
    case AskExtend(slot) =>
      if slot in s.beliefs then Sent(s, Request(slot, Extend(s.beliefs[slot].fence))) else s
    case AskGive(slot) =>
      if slot in s.beliefs then Sent(s, Request(slot, Give(s.beliefs[slot].fence))).(beliefs := s.beliefs - {slot}) else s
    case Serve(id) => if id in s.requests then Served(ttl, s, id) else s
    case Deliver(id) => if id in s.replies then Delivered(s, id) else s
    case Lose(id) => s.(requests := s.requests - {id}, replies := s.replies - {id})
    case GiveUp(slot) => s.(pending := s.pending - {slot})
    case Forget(slot) => s.(beliefs := s.beliefs - {slot})
  }

  function After(ttl: Option<real>, actions: seq<Action>): Sys {
    if actions == [] then START else Next(ttl, After(ttl, actions[..|actions| - 1]), actions[|actions| - 1])
  }

  // ---------------------------------------------------------------- the invariant

  /** A grant of `fence` until `until`, if it is not over, is backed by the store: the client holds the
      lease, at least that long, under this fence or a later one. */
  predicate Backed(t: Tables, now: int, slot: Slot, fence: nat, until: int) {
    now < until ==>
      && slot.key in t.leases
      && var l := t.leases[slot.key];
         l.holder == slot.client && l.expiresAt >= until && l.fence >= fence
  }

  predicate FenceBelow(what: What, bound: nat) {
    !what.Take? ==> what.fence < bound
  }

  /** Nothing on the network about this slot speaks of `bound` or a later fence. */
  ghost predicate AllBelow(s: Sys, slot: Slot, bound: nat) {
    && (forall id :: id in s.requests && s.requests[id].slot == slot ==> FenceBelow(s.requests[id].what, bound))
    && (forall id :: id in s.replies && s.replies[id].request.slot == slot ==> FenceBelow(s.replies[id].request.what, bound))
  }

  ghost predicate StoreOk(ttl: Option<real>, s: Sys) {
    forall k :: k in s.tables.leases ==>
      s.tables.leases[k].fence == HighWater(s.tables, k) && s.tables.leases[k].expiresAt <= s.now + ClampTtl(ttl)
  }

  /** Messages are numbered once, and speak only of fences that were granted. */
  ghost predicate NetOk(s: Sys) {
    && s.requests.Keys !! s.replies.Keys
    && (forall id :: id in s.requests ==>
          id < s.nextId && FenceBelow(s.requests[id].what, HighWater(s.tables, s.requests[id].slot.key) + 1))
    && (forall id :: id in s.replies ==>
          id < s.nextId && FenceBelow(s.replies[id].request.what, HighWater(s.tables, s.replies[id].request.slot.key) + 1))
  }

  ghost predicate PendingOk(s: Sys, slot: Slot)
    requires slot in s.pending
  {
    var id := s.pending[slot];
    && id < s.nextId && slot !in s.beliefs
    && (id in s.requests ==> s.requests[id] == Request(slot, Take))
    && (id in s.replies ==>
          && s.replies[id].request == Request(slot, Take)
          && (s.replies[id].reply.Granted? ==>
                var l := s.replies[id].reply.lease;
                && Backed(s.tables, s.now, slot, l.fence, l.expiresAt) && AllBelow(s, slot, l.fence)
                && l.fence <= HighWater(s.tables, slot.key)))
  }

  ghost predicate BeliefOk(s: Sys, slot: Slot)
    requires slot in s.beliefs
  {
    var b := s.beliefs[slot];
    && Backed(s.tables, s.now, slot, b.fence, b.expiresAt) && AllBelow(s, slot, b.fence + 1)
    && b.fence <= HighWater(s.tables, slot.key)
    && (forall id :: id in s.requests && s.requests[id].slot == slot ==> s.requests[id].what != Give(b.fence))
    && (forall id :: id in s.replies && s.replies[id].request == Request(slot, Extend(b.fence)) && s.replies[id].reply.Renewed?
          ==> Backed(s.tables, s.now, slot, b.fence, s.replies[id].reply.expiresAt))
  }

  ghost predicate Inv(ttl: Option<real>, s: Sys) {
    && StoreOk(ttl, s) && NetOk(s)
    && (forall slot :: slot in s.pending ==> PendingOk(s, slot))
    && (forall slot :: slot in s.beliefs ==> BeliefOk(s, slot))
  }

  /** Taking up a request leaves a backed grant backed, unless its own client gives it up. */
  lemma ServeBacked(ttl: Option<real>, s: Sys, id: nat, slot: Slot, fence: nat, until: int)
    requires StoreOk(ttl, s) && id in s.requests && Backed(s.tables, s.now, slot, fence, until)
    requires s.requests[id].slot == slot ==>
               s.requests[id].what.Give? ==> s.requests[id].what.fence < fence
    ensures Backed(Served(ttl, s, id).tables, s.now, slot, fence, until)
  {
  }

  lemma ServeStore(ttl: Option<real>, s: Sys, id: nat)
    requires StoreOk(ttl, s) && id in s.requests
    ensures StoreOk(ttl, Served(ttl, s, id))
  {
  }

  lemma ServeNet(ttl: Option<real>, s: Sys, id: nat)
    requires NetOk(s) && id in s.requests
    ensures NetOk(Served(ttl, s, id))
  {
    var s' := Served(ttl, s, id);
    forall k ensures HighWater(s'.tables, k) >= HighWater(s.tables, k) {
      StepGrows(s.tables, OpOf(s.requests[id], ttl, s.now), k);
    }
    hide HighWater, Step, Answer, OpOf;
  }

  /** The answer a request gets. */
  lemma ServeGrant(ttl: Option<real>, s: Sys, id: nat)
    requires StoreOk(ttl, s) && id in s.requests
    ensures var (q, s') := (s.requests[id], Served(ttl, s, id));
            var reply := s'.replies[id].reply;
            && (q.what.Take? && reply.Granted? ==>
                  && Backed(s'.tables, s'.now, q.slot, reply.lease.fence, reply.lease.expiresAt)
                  && reply.lease.fence == HighWater(s.tables, q.slot.key) + 1 == HighWater(s'.tables, q.slot.key))
            && (q.what.Extend? && reply.Renewed? ==> Backed(s'.tables, s'.now, q.slot, q.what.fence, reply.expiresAt))
  {
  }

  lemma ServePending(ttl: Option<real>, s: Sys, id: nat, slot: Slot)
    requires Inv(ttl, s) && id in s.requests && slot in s.pending
    ensures PendingOk(Served(ttl, s, id), slot)
  {
    hide Backed, HighWater, Step, Answer, OpOf, StoreOk;
    assert PendingOk(s, slot);
    var s', mine := Served(ttl, s, id), s.pending[slot];
    StepGrows(s.tables, OpOf(s.requests[id], ttl, s.now), slot.key);
    if mine == id {
      ServeGrant(ttl, s, id);
    } else if mine in s.replies && s.replies[mine].reply.Granted? {
      var l := s.replies[mine].reply.lease;
      ServeBacked(ttl, s, id, slot, l.fence, l.expiresAt);
    }
  }

  lemma ServeBelief(ttl: Option<real>, s: Sys, id: nat, slot: Slot)
    requires Inv(ttl, s) && id in s.requests && slot in s.beliefs
    ensures BeliefOk(Served(ttl, s, id), slot)
  {
    hide Backed, HighWater, Step, Answer, OpOf, StoreOk;
    assert BeliefOk(s, slot);
    var s', b := Served(ttl, s, id), s.beliefs[slot];
    StepGrows(s.tables, OpOf(s.requests[id], ttl, s.now), slot.key);
    ServeBacked(ttl, s, id, slot, b.fence, b.expiresAt);
    forall i | i in s'.replies && s'.replies[i].request == Request(slot, Extend(b.fence)) && s'.replies[i].reply.Renewed?
      ensures Backed(s'.tables, s'.now, slot, b.fence, s'.replies[i].reply.expiresAt)
    {
      if i == id {
        ServeGrant(ttl, s, id);
      } else {
        ServeBacked(ttl, s, id, slot, b.fence, s.replies[i].reply.expiresAt);
      }
    }
  }

  lemma TickOk(ttl: Option<real>, s: Sys, ms: nat)
    requires Inv(ttl, s)
    ensures Inv(ttl, s.(now := s.now + ms))
  {
    hide HighWater, FenceBelow;
    var s' := s.(now := s.now + ms);
    forall slot | slot in s'.pending ensures PendingOk(s', slot) {
      assert PendingOk(s, slot);
    }
    forall slot | slot in s'.beliefs ensures BeliefOk(s', slot) {
      assert BeliefOk(s, slot);
    }
  }

  /** Messages lost, waits and beliefs given up. */
  lemma FewerOk(ttl: Option<real>, s: Sys, lost: set<nat>, dropped: set<Slot>, forgotten: set<Slot>)
    requires Inv(ttl, s)
    ensures Inv(ttl, s.(requests := s.requests - lost, replies := s.replies - lost,
                               pending := s.pending - dropped, beliefs := s.beliefs - forgotten))
  {
    hide HighWater, FenceBelow, Backed;
    var s' := s.(requests := s.requests - lost, replies := s.replies - lost,
                 pending := s.pending - dropped, beliefs := s.beliefs - forgotten);
    forall slot | slot in s'.pending ensures PendingOk(s', slot) {
      assert PendingOk(s, slot);
    }
    forall slot | slot in s'.beliefs ensures BeliefOk(s', slot) {
      assert BeliefOk(s, slot);
    }
  }

  lemma SendNet(s: Sys, q: Request)
    requires NetOk(s) && FenceBelow(q.what, HighWater(s.tables, q.slot.key) + 1)
    ensures NetOk(Sent(s, q))
  {
    hide HighWater, FenceBelow;
  }

  /** Sending leaves every other slot as it is. */
  lemma SendOther(s: Sys, q: Request, slot: Slot)
    requires NetOk(s) && slot != q.slot
    ensures slot in s.pending && PendingOk(s, slot) ==> PendingOk(Sent(s, q), slot)
    ensures slot in s.beliefs && BeliefOk(s, slot) ==> BeliefOk(Sent(s, q), slot)
  {
    hide HighWater, FenceBelow, Backed;
  }

  lemma SendOk(ttl: Option<real>, s: Sys, q: Request, pending: map<Slot, nat>, beliefs: map<Slot, Belief>)
    requires Inv(ttl, s) && FenceBelow(q.what, HighWater(s.tables, q.slot.key) + 1)
    requires forall slot :: slot in pending && slot != q.slot ==> slot in s.pending && pending[slot] == s.pending[slot]
    requires forall slot :: slot in beliefs && slot != q.slot ==> slot in s.beliefs && beliefs[slot] == s.beliefs[slot]
    requires var s' := Sent(s, q).(pending := pending, beliefs := beliefs);
             && (q.slot in pending ==> PendingOk(s', q.slot))
             && (q.slot in beliefs ==> BeliefOk(s', q.slot))
    ensures Inv(ttl, Sent(s, q).(pending := pending, beliefs := beliefs))
  {
    hide HighWater, FenceBelow, Backed, AllBelow, StoreOk;
    SendNet(s, q);
    var s1, s' := Sent(s, q), Sent(s, q).(pending := pending, beliefs := beliefs);
    assert StoreOk(ttl, s') by { SameStore(ttl, s, s'); }
    assert NetOk(s1) ==> NetOk(s');
    forall slot | slot in s'.pending && slot != q.slot ensures PendingOk(s', slot) {
      SendOther(s, q, slot);
      assert PendingOk(s1, slot);
      Unmoved(s1, s', slot);
    }
    forall slot | slot in s'.beliefs && slot != q.slot ensures BeliefOk(s', slot) {
      SendOther(s, q, slot);
      assert BeliefOk(s1, slot);
      Unmoved(s1, s', slot);
    }
  }

  lemma SameStore(ttl: Option<real>, s: Sys, s': Sys)
    requires StoreOk(ttl, s) && s'.tables == s.tables && s'.now == s.now
    ensures StoreOk(ttl, s')
  {
  }

  lemma Unmoved(s: Sys, s': Sys, slot: Slot)
    requires s'.requests == s.requests && s'.replies == s.replies
    ensures forall bound :: AllBelow(s', slot, bound) == AllBelow(s, slot, bound)
  {
  }

  lemma AskTakeOk(ttl: Option<real>, s: Sys, slot: Slot)
    requires Inv(ttl, s)
    ensures Inv(ttl, Next(ttl, s, AskTake(slot)))
  {
    if slot !in s.pending && slot !in s.beliefs {
      hide HighWater, Backed, AllBelow, StoreOk, Inv;
      assert NetOk(s) by { InvNet(ttl, s); }
      SendOk(ttl, s, Request(slot, Take), s.pending[slot := s.nextId], s.beliefs);
    }
  }

  lemma InvNet(ttl: Option<real>, s: Sys)
    requires Inv(ttl, s)
    ensures NetOk(s)
  {
  }

  lemma ExtendOwn(s: Sys, slot: Slot)
    requires NetOk(s) && slot in s.beliefs && BeliefOk(s, slot)
    ensures BeliefOk(Sent(s, Request(slot, Extend(s.beliefs[slot].fence))), slot)
    ensures FenceBelow(Extend(s.beliefs[slot].fence), HighWater(s.tables, slot.key) + 1)
  {
    hide HighWater, Backed;
  }

  lemma AskExtendOk(ttl: Option<real>, s: Sys, slot: Slot)
    requires Inv(ttl, s)
    ensures Inv(ttl, Next(ttl, s, AskExtend(slot)))
  {
    if slot in s.beliefs {
      var q := Request(slot, Extend(s.beliefs[slot].fence));
      assert BeliefOk(s, slot) && NetOk(s) && (slot in s.pending ==> PendingOk(s, slot));
      assert slot !in s.pending;
      hide HighWater, Backed, StoreOk, Inv, BeliefOk, NetOk;
      ExtendOwn(s, slot);
      assert Sent(s, q).(pending := s.pending, beliefs := s.beliefs) == Sent(s, q);
      SendOk(ttl, s, q, s.pending, s.beliefs);
    }
  }

  lemma AskGiveOk(ttl: Option<real>, s: Sys, slot: Slot)
    requires Inv(ttl, s)
    ensures Inv(ttl, Next(ttl, s, AskGive(slot)))
  {
    if slot in s.beliefs {
      assert BeliefOk(s, slot) && NetOk(s) && (slot in s.pending ==> PendingOk(s, slot));
      hide HighWater, Backed, StoreOk, Inv;
      SendOk(ttl, s, Request(slot, Give(s.beliefs[slot].fence)), s.pending, s.beliefs - {slot});
    }
  }

  /** A message fewer, and one slot heard something. */
  lemma HeardOk(ttl: Option<real>, s: Sys, s': Sys, id: nat, slot: Slot)
    requires Inv(ttl, s) && id in s.replies
    requires s'.tables == s.tables && s'.now == s.now && s'.requests == s.requests && s'.replies == s.replies - {id}
    requires s'.nextId == s.nextId
    requires forall other :: other in s'.pending && other != slot ==> other in s.pending && s'.pending[other] == s.pending[other]
    requires forall other :: other in s'.beliefs && other != slot ==> other in s.beliefs && s'.beliefs[other] == s.beliefs[other]
    requires slot in s'.pending ==> PendingOk(s', slot)
    requires slot in s'.beliefs ==> BeliefOk(s', slot)
    ensures Inv(ttl, s')
  {
    hide HighWater, FenceBelow, Backed;
    forall other | other in s'.pending && other != slot ensures PendingOk(s', other) {
      assert PendingOk(s, other);
    }
    forall other | other in s'.beliefs && other != slot ensures BeliefOk(s', other) {
      assert BeliefOk(s, other);
    }
  }

  lemma DeliverOk(ttl: Option<real>, s: Sys, id: nat)
    requires Inv(ttl, s) && id in s.replies
    ensures Inv(ttl, Delivered(s, id))
  {
    var slot := s.replies[id].request.slot;
    var s' := Delivered(s, id);
    assert slot in s.pending ==> PendingOk(s, slot);
    assert slot in s.beliefs ==> BeliefOk(s, slot);
    hide Inv, HighWater, Backed;
    assert slot in s'.pending ==> PendingOk(s', slot);
    assert slot in s'.beliefs ==> BeliefOk(s', slot) by { DeliverBelief(s, id); }
    HeardOk(ttl, s, s', id, slot);
  }

  lemma DeliverBelief(s: Sys, id: nat)
    requires id in s.replies
    requires var slot := s.replies[id].request.slot;
             (slot in s.pending ==> PendingOk(s, slot)) && (slot in s.beliefs ==> BeliefOk(s, slot))
    ensures var slot := s.replies[id].request.slot;
            slot in Delivered(s, id).beliefs ==> BeliefOk(Delivered(s, id), slot)
  {
    hide HighWater, Backed;
  }

  lemma ServeOk(ttl: Option<real>, s: Sys, id: nat)
    requires Inv(ttl, s) && id in s.requests
    ensures Inv(ttl, Served(ttl, s, id))
  {
    hide Served, PendingOk, BeliefOk;
    ServeStore(ttl, s, id);
    ServeNet(ttl, s, id);
    ServeKeeps(ttl, s, id);
    var s' := Served(ttl, s, id);
    forall slot | slot in s'.pending ensures PendingOk(s', slot) { ServePending(ttl, s, id, slot); }
    forall slot | slot in s'.beliefs ensures BeliefOk(s', slot) { ServeBelief(ttl, s, id, slot); }
  }

  lemma NextOk(ttl: Option<real>, s: Sys, a: Action)
    requires Inv(ttl, s)
    ensures Inv(ttl, Next(ttl, s, a))
  {
    hide Inv, Served, Delivered;
    match a {
      case Serve(id) => if id in s.requests { ServeOk(ttl, s, id); }
      case Tick(ms) => TickOk(ttl, s, ms);
      case AskTake(slot) => AskTakeOk(ttl, s, slot);
      case AskExtend(slot) => AskExtendOk(ttl, s, slot);
      case AskGive(slot) => AskGiveOk(ttl, s, slot);
      case Deliver(id) => if id in s.replies { DeliverOk(ttl, s, id); }
      case Lose(id) => FewerOk(ttl, s, {id}, {}, {}); Unlost(s);
      case GiveUp(slot) => FewerOk(ttl, s, {}, {slot}, {}); Unlost(s);
      case Forget(slot) => FewerOk(ttl, s, {}, {}, {slot}); Unlost(s);
    }
  }

  lemma Unlost(s: Sys)
    ensures s.requests - {} == s.requests && s.replies - {} == s.replies
    ensures s.pending - {} == s.pending && s.beliefs - {} == s.beliefs
  {
  }

  lemma ServeKeeps(ttl: Option<real>, s: Sys, id: nat)
    requires id in s.requests
    ensures Served(ttl, s, id).pending == s.pending && Served(ttl, s, id).beliefs == s.beliefs
  {
  }

  // ---------------------------------------------------------------- all runs

  lemma {:induction false} InvAlways(ttl: Option<real>, actions: seq<Action>)
    ensures Inv(ttl, After(ttl, actions))
  {
    if actions != [] {
      hide Inv, Next;
      var last := |actions| - 1;
      var front := actions[..last];
      InvAlways(ttl, front);
      NextOk(ttl, After(ttl, front), actions[last]);
    }
  }

  /** The client was told that it holds the key until a time still to come, and has not given it up. */
  predicate Believes(s: Sys, slot: Slot) {
    slot in s.beliefs && s.now < s.beliefs[slot].expiresAt
  }

  /** However messages are delayed, reordered, lost or answered late: what a client believes is so. The
      store has the key leased to it, at least as long, under its fence or a later one of its own. */
  lemma BeliefIsSound(ttl: Option<real>, actions: seq<Action>, slot: Slot)
    requires Believes(After(ttl, actions), slot)
    ensures var s := After(ttl, actions);
            && slot.key in s.tables.leases
            && s.tables.leases[slot.key].holder == slot.client
            && s.tables.leases[slot.key].expiresAt >= s.beliefs[slot].expiresAt
            && s.tables.leases[slot.key].fence >= s.beliefs[slot].fence
  {
    InvAlways(ttl, actions);
    assert BeliefOk(After(ttl, actions), slot);
  }

  /** Two clients never both believe that they hold one key. */
  lemma NeverBoth(ttl: Option<real>, actions: seq<Action>, a: Slot, b: Slot)
    requires Believes(After(ttl, actions), a) && Believes(After(ttl, actions), b) && a.key == b.key
    ensures a == b
  {
    BeliefIsSound(ttl, actions, a);
    BeliefIsSound(ttl, actions, b);
  }

  // ---------------------------------------------------------------- the fence

  /** The action grants the slot's client its key, under the fence. */
  predicate Grants(ttl: Option<real>, s: Sys, a: Action, slot: Slot, fence: nat) {
    && a.Serve? && a.id in s.requests && s.requests[a.id] == Request(slot, Take)
    && var reply := Answer(s.tables, OpOf(s.requests[a.id], ttl, s.now));
       reply.Granted? && reply.lease.fence == fence
  }

  predicate GrantedAt(ttl: Option<real>, actions: seq<Action>, j: nat, slot: Slot, fence: nat) {
    j < |actions| && Grants(ttl, After(ttl, actions[..j]), actions[j], slot, fence)
  }

  ghost predicate WasGranted(ttl: Option<real>, actions: seq<Action>, slot: Slot, fence: nat) {
    exists j: nat :: GrantedAt(ttl, actions, j, slot, fence)
  }

  /** No acquire of the slot is granted from action `from` on. */
  ghost predicate NoGrantFrom(ttl: Option<real>, actions: seq<Action>, from: nat, slot: Slot) {
    forall j: nat, fence: nat :: GrantedAt(ttl, actions, j, slot, fence) ==> j < from
  }

  lemma GrantFront(ttl: Option<real>, actions: seq<Action>, j: nat, slot: Slot, fence: nat)
    requires actions != [] && j < |actions| - 1
    ensures GrantedAt(ttl, actions, j, slot, fence) == GrantedAt(ttl, actions[..|actions| - 1], j, slot, fence)
  {
    assert actions[..|actions| - 1][..j] == actions[..j];
  }

  lemma WasGrantedFront(ttl: Option<real>, actions: seq<Action>, slot: Slot, fence: nat)
    requires actions != [] && WasGranted(ttl, actions[..|actions| - 1], slot, fence)
    ensures WasGranted(ttl, actions, slot, fence)
  {
    var j: nat :| GrantedAt(ttl, actions[..|actions| - 1], j, slot, fence);
    GrantFront(ttl, actions, j, slot, fence);
  }

  lemma {:induction false} WaterGrows(ttl: Option<real>, actions: seq<Action>, i: nat, key: string)
    requires i <= |actions|
    ensures HighWater(After(ttl, actions[..i]).tables, key) <= HighWater(After(ttl, actions).tables, key)
  {
    if i < |actions| {
      var front := actions[..|actions| - 1];
      assert front[..i] == actions[..i];
      WaterGrows(ttl, front, i, key);
      NextWater(ttl, After(ttl, front), actions[|actions| - 1], key);
    } else {
      assert actions[..i] == actions;
    }
  }

  lemma NextWater(ttl: Option<real>, s: Sys, a: Action, key: string)
    ensures HighWater(s.tables, key) <= HighWater(Next(ttl, s, a).tables, key)
    ensures forall slot, fence :: Grants(ttl, s, a, slot, fence) && slot.key == key ==>
              HighWater(s.tables, key) < fence == HighWater(Next(ttl, s, a).tables, key)
  {
    if a.Serve? && a.id in s.requests { StepGrows(s.tables, OpOf(s.requests[a.id], ttl, s.now), key); }
  }

  /** A grant's fence is above the key's high-water mark so far, and at most the mark from then on. */
  lemma GrantWater(ttl: Option<real>, actions: seq<Action>, j: nat, slot: Slot, fence: nat)
    requires GrantedAt(ttl, actions, j, slot, fence)
    ensures HighWater(After(ttl, actions[..j]).tables, slot.key) < fence
            == HighWater(After(ttl, actions[..j + 1]).tables, slot.key)
            <= HighWater(After(ttl, actions).tables, slot.key)
  {
    assert actions[..j + 1][..j] == actions[..j];
    NextWater(ttl, After(ttl, actions[..j]), actions[j], slot.key);
    WaterGrows(ttl, actions, j + 1, slot.key);
  }

  /** On one key a later grant has a greater fence. */
  lemma GrantsClimb(ttl: Option<real>, actions: seq<Action>, i: nat, a: Slot, f: nat, j: nat, b: Slot, g: nat)
    requires GrantedAt(ttl, actions, i, a, f) && GrantedAt(ttl, actions, j, b, g) && a.key == b.key
    ensures i < j <==> f < g
  {
    GrantWater(ttl, actions, i, a, f);
    GrantWater(ttl, actions, j, b, g);
    hide HighWater, After, Grants;
    if i < j {
      assert actions[..j][..i + 1] == actions[..i + 1];
      WaterGrows(ttl, actions[..j], i + 1, a.key);
    } else if j < i {
      assert actions[..i][..j + 1] == actions[..j + 1];
      WaterGrows(ttl, actions[..i], j + 1, a.key);
    }
  }

  /** Leases, granted answers on the way and beliefs stem from grants. */
  ghost predicate Traced(ttl: Option<real>, actions: seq<Action>, s: Sys) {
    && (forall k :: k in s.tables.leases ==>
          WasGranted(ttl, actions, Slot(s.tables.leases[k].holder, k), s.tables.leases[k].fence))
    && (forall id :: id in s.replies && s.replies[id].request.what == Take && s.replies[id].reply.Granted? ==>
          WasGranted(ttl, actions, s.replies[id].request.slot, s.replies[id].reply.lease.fence))
    && (forall slot :: slot in s.beliefs ==> WasGranted(ttl, actions, slot, s.beliefs[slot].fence))
  }

  lemma NextLease(ttl: Option<real>, s: Sys, a: Action, k: string)
    requires k in Next(ttl, s, a).tables.leases
    ensures var l := Next(ttl, s, a).tables.leases[k];
            || Grants(ttl, s, a, Slot(l.holder, k), l.fence)
            || (k in s.tables.leases && s.tables.leases[k].holder == l.holder && s.tables.leases[k].fence == l.fence)
  {
    hide HighWater, ClampTtl;
  }

  lemma NextReply(ttl: Option<real>, s: Sys, a: Action, id: nat)
    requires var s' := Next(ttl, s, a); id in s'.replies && s'.replies[id].request.what == Take && s'.replies[id].reply.Granted?
    ensures var (q, l) := (Next(ttl, s, a).replies[id].request, Next(ttl, s, a).replies[id].reply.lease);
            Grants(ttl, s, a, q.slot, l.fence) || (id in s.replies && s.replies[id] == Next(ttl, s, a).replies[id])
  {
    hide Answer, Step;
  }

  lemma NextBelief(ttl: Option<real>, s: Sys, a: Action, slot: Slot)
    requires slot in Next(ttl, s, a).beliefs
    ensures var b := Next(ttl, s, a).beliefs[slot];
            || (slot in s.beliefs && s.beliefs[slot].fence == b.fence)
            || (&& a.Deliver? && a.id in s.replies && s.replies[a.id].request == Request(slot, Take)
                && s.replies[a.id].reply.Granted? && s.replies[a.id].reply.lease.fence == b.fence)
  {
    hide Answer, Step;
  }

  lemma {:induction false} TracedAlways(ttl: Option<real>, actions: seq<Action>)
    ensures Traced(ttl, actions, After(ttl, actions))
  {
    if actions != [] {
      var last := |actions| - 1;
      var front, s := actions[..last], After(ttl, actions[..last]);
      TracedAlways(ttl, front);
      hide Next, Grants;
      forall slot, fence | WasGranted(ttl, front, slot, fence) || Grants(ttl, s, actions[last], slot, fence)
        ensures WasGranted(ttl, actions, slot, fence)
      {
        if WasGranted(ttl, front, slot, fence) { WasGrantedFront(ttl, actions, slot, fence); }
        assert Grants(ttl, s, actions[last], slot, fence) == GrantedAt(ttl, actions, last, slot, fence);
      }
      hide WasGranted, GrantedAt;
      var s' := Next(ttl, s, actions[last]);
      forall k | k in s'.tables.leases
        ensures WasGranted(ttl, actions, Slot(s'.tables.leases[k].holder, k), s'.tables.leases[k].fence)
      {
        NextLease(ttl, s, actions[last], k);
      }
      forall id | id in s'.replies && s'.replies[id].request.what == Take && s'.replies[id].reply.Granted?
        ensures WasGranted(ttl, actions, s'.replies[id].request.slot, s'.replies[id].reply.lease.fence)
      {
        NextReply(ttl, s, actions[last], id);
      }
      forall slot | slot in s'.beliefs ensures WasGranted(ttl, actions, slot, s'.beliefs[slot].fence) {
        NextBelief(ttl, s, actions[last], slot);
      }
    }
  }

  /** A believer has the fence it believes from one grant, and the store has it under that fence exactly when
      no acquire of the believer was granted since. */
  lemma FenceExact(ttl: Option<real>, actions: seq<Action>, slot: Slot) returns (g: nat)
    requires Believes(After(ttl, actions), slot)
    ensures var s := After(ttl, actions);
            && GrantedAt(ttl, actions, g, slot, s.beliefs[slot].fence)
            && slot.key in s.tables.leases
            && (Owner(s.tables.leases[slot.key]) == Party(slot.client, s.beliefs[slot].fence) <==>
                NoGrantFrom(ttl, actions, g + 1, slot))
  {
    var s := After(ttl, actions);
    BeliefIsSound(ttl, actions, slot);
    InvAlways(ttl, actions);
    TracedAlways(ttl, actions);
    var l := s.tables.leases[slot.key];
    assert l.fence == HighWater(s.tables, slot.key);
    assert Slot(l.holder, slot.key) == slot;
    hide Inv, After, Traced, HighWater, Believes;
    g :| GrantedAt(ttl, actions, g, slot, s.beliefs[slot].fence);
    var j: nat :| GrantedAt(ttl, actions, j, slot, l.fence);
    hide GrantedAt;
    GrantsClimb(ttl, actions, g, slot, s.beliefs[slot].fence, j, slot, l.fence);
    forall i: nat, fence: nat | GrantedAt(ttl, actions, i, slot, fence) ensures fence <= l.fence && (g < i <==> s.beliefs[slot].fence < fence) {
      GrantWater(ttl, actions, i, slot, fence);
      GrantsClimb(ttl, actions, g, slot, s.beliefs[slot].fence, i, slot, fence);
    }
  }

  /** An acquire of the slot is taken up while its caller still waits for it. */
  predicate Timely(s: Sys, a: Action, slot: Slot) {
    a.Serve? && a.id in s.requests && s.requests[a.id] == Request(slot, Take) ==>
      slot in s.pending && s.pending[slot] == a.id
  }

  ghost predicate AlwaysTimely(ttl: Option<real>, actions: seq<Action>, slot: Slot) {
    forall i :: 0 <= i < |actions| ==> Timely(After(ttl, actions[..i]), actions[i], slot)
  }

  /** The fence is that of the slot's last grant. */
  ghost predicate LastGrant(ttl: Option<real>, actions: seq<Action>, slot: Slot, fence: nat) {
    exists g: nat :: GrantedAt(ttl, actions, g, slot, fence) && NoGrantFrom(ttl, actions, g + 1, slot)
  }

  /** A grant now is the last one; with no grant now the last one stays. */
  lemma LastGrantNext(ttl: Option<real>, actions: seq<Action>, slot: Slot, fence: nat)
    requires actions != []
    ensures var last := |actions| - 1;
            && (GrantedAt(ttl, actions, last, slot, fence) ==> LastGrant(ttl, actions, slot, fence))
            && (LastGrant(ttl, actions[..last], slot, fence) && (forall f: nat :: !GrantedAt(ttl, actions, last, slot, f)) ==>
                  LastGrant(ttl, actions, slot, fence))
  {
    var last := |actions| - 1;
    var front := actions[..last];
    assert forall j: nat, f: nat :: GrantedAt(ttl, actions, j, slot, f) ==> j <= last;
    assert forall j: nat, f: nat :: GrantedAt(ttl, front, j, slot, f) ==> j < last;
    hide GrantedAt;
    assert GrantedAt(ttl, actions, last, slot, fence) ==> NoGrantFrom(ttl, actions, last + 1, slot);
    if LastGrant(ttl, front, slot, fence) && forall f: nat :: !GrantedAt(ttl, actions, last, slot, f) {
      var g: nat :| GrantedAt(ttl, front, g, slot, fence) && NoGrantFrom(ttl, front, g + 1, slot);
      GrantFront(ttl, actions, g, slot, fence);
      NoGrantLonger(ttl, actions, last, g + 1, slot);
    }
  }

  lemma NoGrantLonger(ttl: Option<real>, actions: seq<Action>, last: nat, from: nat, slot: Slot)
    requires |actions| == last + 1 && NoGrantFrom(ttl, actions[..last], from, slot)
    requires forall f: nat :: !GrantedAt(ttl, actions, last, slot, f)
    ensures NoGrantFrom(ttl, actions, from, slot)
  {
    hide Grants, After;
    forall j: nat, f: nat | GrantedAt(ttl, actions, j, slot, f) ensures j < from {
      GrantFront(ttl, actions, j, slot, f);
    }
  }

  /** The client believes this fence, or will on hearing the answer it waits for. */
  predicate Hears(s: Sys, slot: Slot, fence: nat) {
    || (slot in s.beliefs && fence == s.beliefs[slot].fence)
    || (&& slot in s.pending && s.pending[slot] in s.replies
        && s.replies[s.pending[slot]].reply.Granted? && s.replies[s.pending[slot]].reply.lease.fence == fence)
  }

  ghost predicate UpToDate(ttl: Option<real>, actions: seq<Action>, s: Sys, slot: Slot) {
    forall fence: nat :: Hears(s, slot, fence) ==> LastGrant(ttl, actions, slot, fence)
  }

  lemma {:induction false} UpToDateAlways(ttl: Option<real>, actions: seq<Action>, slot: Slot)
    requires AlwaysTimely(ttl, actions, slot)
    ensures UpToDate(ttl, actions, After(ttl, actions), slot)
  {
    if actions != [] {
      var last := |actions| - 1;
      var front := actions[..last];
      forall i | 0 <= i < last ensures Timely(After(ttl, front[..i]), front[i], slot) {
        assert front[..i] == actions[..i];
      }
      UpToDateAlways(ttl, front, slot);
      InvAlways(ttl, front);
      UpToDateNext(ttl, actions, slot);
    }
  }

  lemma UpToDateNext(ttl: Option<real>, actions: seq<Action>, slot: Slot)
    requires actions != []
    requires var (front, a) := (actions[..|actions| - 1], actions[|actions| - 1]);
             UpToDate(ttl, front, After(ttl, front), slot) && Inv(ttl, After(ttl, front)) && Timely(After(ttl, front), a, slot)
    ensures UpToDate(ttl, actions, After(ttl, actions), slot)
  {
    var last := |actions| - 1;
    var s, a := After(ttl, actions[..last]), actions[last];
    forall f: nat
      ensures GrantedAt(ttl, actions, last, slot, f) ==> LastGrant(ttl, actions, slot, f)
      ensures LastGrant(ttl, actions[..last], slot, f) && (forall f': nat :: !GrantedAt(ttl, actions, last, slot, f')) ==>
                LastGrant(ttl, actions, slot, f)
    {
      LastGrantNext(ttl, actions, slot, f);
    }
    assert forall f: nat :: GrantedAt(ttl, actions, last, slot, f) == Grants(ttl, s, a, slot, f);
    NextHears(ttl, s, a, slot);
    hide Inv, GrantedAt, LastGrant, Grants, Next, Hears;
    forall f: nat | Hears(After(ttl, actions), slot, f) ensures LastGrant(ttl, actions, slot, f) {
      if !Grants(ttl, s, a, slot, f) {
        assert Hears(s, slot, f) && LastGrant(ttl, actions[..last], slot, f);
        assert forall f': nat :: !GrantedAt(ttl, actions, last, slot, f');
      }
    }
  }

  /** A grant now is the one the client waits for, and it believes nothing else; with no grant now there is
      nothing new to believe. */
  lemma NextHears(ttl: Option<real>, s: Sys, a: Action, slot: Slot)
    requires Inv(ttl, s) && Timely(s, a, slot)
    ensures forall f: nat :: Hears(Next(ttl, s, a), slot, f) ==>
              Grants(ttl, s, a, slot, f) || (Hears(s, slot, f) && forall f': nat :: !Grants(ttl, s, a, slot, f'))
  {
    assert NetOk(s) && (slot in s.pending ==> PendingOk(s, slot)) && (slot in s.beliefs ==> BeliefOk(s, slot));
    assert !a.Serve? || a.id !in s.requests ==> forall f: nat :: !Grants(ttl, s, a, slot, f);
    hide Inv, Grants, PendingOk, BeliefOk, NetOk, Timely;
    match a {
      case Serve(id) => if id in s.requests { HearsServed(ttl, s, id, slot); }
      case Deliver(id) => if id in s.replies { HearsDelivered(s, id, slot); }
      case _ => HearsElse(ttl, s, a, slot);
    }
  }

  lemma HearsDelivered(s: Sys, id: nat, slot: Slot)
    requires id in s.replies && (slot in s.beliefs ==> BeliefOk(s, slot))
    ensures forall f: nat :: Hears(Delivered(s, id), slot, f) ==> Hears(s, slot, f)
  {
    hide BeliefOk;
  }

  lemma HearsElse(ttl: Option<real>, s: Sys, a: Action, slot: Slot)
    requires NetOk(s) && !a.Serve? && !a.Deliver?
    ensures forall f: nat :: Hears(Next(ttl, s, a), slot, f) ==> Hears(s, slot, f)
  {
    hide HighWater, FenceBelow;
  }

  lemma HearsServed(ttl: Option<real>, s: Sys, id: nat, slot: Slot)
    requires id in s.requests && Timely(s, Serve(id), slot)
    requires (slot in s.pending ==> PendingOk(s, slot)) && (slot in s.beliefs ==> BeliefOk(s, slot))
    ensures forall f: nat :: Hears(Served(ttl, s, id), slot, f) ==>
              Grants(ttl, s, Serve(id), slot, f) || (Hears(s, slot, f) && forall f': nat :: !Grants(ttl, s, Serve(id), slot, f'))
  {
    hide HighWater, Backed, AllBelow, Step, Answer;
  }

  /** If no acquire of the client's own is taken up after it stopped waiting for it, the fence matches: the
      believer can renew and release. */
  lemma BeliefIsExact(ttl: Option<real>, actions: seq<Action>, slot: Slot)
    requires AlwaysTimely(ttl, actions, slot) && Believes(After(ttl, actions), slot)
    ensures var s := After(ttl, actions);
            && slot.key in s.tables.leases
            && Owner(s.tables.leases[slot.key]) == Party(slot.client, s.beliefs[slot].fence)
            && s.tables.leases[slot.key].expiresAt >= s.beliefs[slot].expiresAt
  {
    BeliefIsSound(ttl, actions, slot);
    UpToDateAlways(ttl, actions, slot);
    var g := FenceExact(ttl, actions, slot);
    var f := After(ttl, actions).beliefs[slot].fence;
    assert Hears(After(ttl, actions), slot, f) && LastGrant(ttl, actions, slot, f);
    hide After, GrantedAt, Believes;
    var last: nat :| GrantedAt(ttl, actions, last, slot, f) && NoGrantFrom(ttl, actions, last + 1, slot);
    GrantsClimb(ttl, actions, g, slot, f, last, slot, f);
    GrantsClimb(ttl, actions, last, slot, f, g, slot, f);
  }

  lemma Onward(actions: seq<Action>, s: Sys, a: Action, s': Sys) returns (more: seq<Action>)
    requires After(None, actions) == s && Next(None, s, a) == s'
    ensures After(None, more) == s'
  {
    more := actions + [a];
    assert more[..|actions|] == actions;
  }

  /** A client asks, gives up, and asks again; both requests are under way. */
  lemma TwoRequests(slot: Slot) returns (t: seq<Action>)
    ensures After(None, t) == Sys(EMPTY, 0, map[0 := Request(slot, Take), 1 := Request(slot, Take)], map[], map[slot := 1], map[], 2)
  {
    var q := Request(slot, Take);
    t := [];
    hide After;
    t := Onward([], After(None, []), AskTake(slot), Next(None, After(None, []), AskTake(slot)));
    assert After(None, t) == Sys(EMPTY, 0, map[0 := q], map[], map[slot := 0], map[], 1) by { Empty(); }
    t := Onward(t, After(None, t), GiveUp(slot), Sys(EMPTY, 0, map[0 := q], map[], map[], map[], 1));
    t := Onward(t, After(None, t), AskTake(slot), Sys(EMPTY, 0, map[0 := q, 1 := q], map[], map[slot := 1], map[], 2));
  }

  lemma Empty()
    ensures After(None, []) == START
  {
  }

  /** Otherwise it need not: an acquire whose caller gave up and asked again, taken up late, moves the fence
      on, and the believer's renewal is refused. */
  lemma LateAcquireMovesFence() returns (t: seq<Action>, slot: Slot)
    ensures var s := After(None, t);
            && Believes(s, slot) && slot.key in s.tables.leases
            && s.tables.leases[slot.key].fence > s.beliefs[slot].fence
            && Answer(s.tables, OpOf(Request(slot, Extend(s.beliefs[slot].fence)), None, s.now)) == Stale
  {
    slot := Slot("c", "k");
    t := TwoRequests(slot);
    hide After;
    t := Onward(t, After(None, t), Serve(1), Served(None, After(None, t), 1));
    t := Onward(t, After(None, t), Deliver(1), Delivered(After(None, t), 1));
    t := Onward(t, After(None, t), Serve(0), Served(None, After(None, t), 0));
  }
}
