/** Taking and giving back the leases of one call, beside other holders of the same table. */
module LeaseAcquire {
  import opened Options
  import opened Texts

  datatype Lease = Lease(holder: string, expiresAt: nat, fence: nat)

  type Table = map<Text, Lease>

  // ---------------------------------------------------------------- sortedResourceKeys

  function InsertKey(key: Text, keys: seq<Text>): seq<Text> {
    if keys == [] then [key]
    else if keys[0] == key then keys
    else if Less(keys[0], key) then [keys[0]] + InsertKey(key, keys[1..])
    else [key] + keys
  }

  function SortedResourceKeys(keys: seq<Text>): seq<Text> {
    if keys == [] then [] else InsertKey(keys[0], SortedResourceKeys(keys[1..]))
  }

  ghost predicate Climbing(keys: seq<Text>) {
    forall i, j :: 0 <= i < j < |keys| ==> Less(keys[i], keys[j])
  }

  lemma {:induction false} InsertKeyClimbs(key: Text, keys: seq<Text>)
    requires Climbing(keys)
    ensures Climbing(InsertKey(key, keys))
    ensures forall k :: k in InsertKey(key, keys) <==> k == key || k in keys
  {
    if keys != [] && keys[0] != key {
      if Less(keys[0], key) {
        InsertKeyClimbs(key, keys[1..]);
        var rest := InsertKey(key, keys[1..]);
        forall j | 0 <= j < |rest| ensures Less(keys[0], rest[j]) {
          assert rest[j] in rest;
          assert rest[j] == key || rest[j] in keys[1..];
        }
      } else {
        LessTrichotomy(keys[0], key);
        forall j | 0 <= j < |keys| ensures Less(key, keys[j]) {
          if j > 0 { LessTransitive(key, keys[0], keys[j]); }
        }
      }
    }
  }

  lemma {:induction false} SortedKeysClimb(keys: seq<Text>)
    ensures Climbing(SortedResourceKeys(keys))
    ensures forall k :: k in SortedResourceKeys(keys) <==> k in keys
  {
    if keys != [] {
      SortedKeysClimb(keys[1..]);
      InsertKeyClimbs(keys[0], SortedResourceKeys(keys[1..]));
    }
  }

  /** The keys of a call: each of the given ones once, strictly ascending by their first different code unit. */
  lemma SortedKeysExact(keys: seq<Text>)
    ensures var sorted := SortedResourceKeys(keys);
            && (forall k :: k in sorted <==> k in keys)
            && forall i, j :: 0 <= i < j < |sorted| ==> Below(sorted[i], sorted[j]) && sorted[i] != sorted[j]
  {
    SortedKeysClimb(keys);
    var sorted := SortedResourceKeys(keys);
    forall i, j | 0 <= i < j < |sorted| ensures Below(sorted[i], sorted[j]) && sorted[i] != sorted[j] {
      LessExact(sorted[i], sorted[j]);
      ClimbingDistinct(sorted, i, j);
    }
  }

  lemma ClimbingDistinct(keys: seq<Text>, i: nat, j: nat)
    requires Climbing(keys) && i < j < |keys|
    ensures keys[i] != keys[j]
  {
    LessAsymmetric(keys[i], keys[j]);
  }

  // ---------------------------------------------------------------- the table and the others

  predicate Mine(t: Table, me: string, key: Text) {
    key in t && t[key].holder == me
  }

  ghost predicate NothingHeld(t: Table, me: string) {
    forall k :: k in t ==> t[k].holder != me
  }

  /** This holder has the first `n` keys under these fences, and no other key. */
  ghost predicate HoldsFirst(t: Table, me: string, keys: seq<Text>, fences: seq<nat>, n: nat)
    requires n <= |keys| && n <= |fences|
  {
    && (forall i :: 0 <= i < n ==> Mine(t, me, keys[i]) && t[keys[i]].fence == fences[i])
    && (forall k :: k in t && t[k].holder == me ==> k in keys[..n])
  }

  /** From `t` to `t'` this holder's leases are the same. */
  ghost predicate Undisturbed(t: Table, t': Table, me: string) {
    forall k :: (Mine(t', me, k) <==> Mine(t, me, k)) && (Mine(t, me, k) ==> k in t' && t'[k] == t[k])
  }

  function Least(a: int, b: int): int {
    if a < b then a else b
  }

  datatype Held = Held(fences: seq<nat>) | LeaseUnavailable

  /** The lease table of a ledger. Before each call of ours the others have their turn, and time passes. */
  class LeaseTable {
    var leases: Table
    var now: nat
    var turns: nat
    /** The waits so far: when each began, and how long it was to be. */
    ghost var waits: seq<(int, int)>
    const others: (nat, Table) -> Table
    const delay: nat -> nat
    const oversleep: nat -> nat

    constructor (leases: Table, others: (nat, Table) -> Table, delay: nat -> nat, oversleep: nat -> nat)
      ensures this.leases == leases && this.others == others && waits == []
    {
      this.leases, this.now, this.turns, waits := leases, 0, 0, [];
      this.others, this.delay, this.oversleep := others, delay, oversleep;
    }

    /** The others take, renew, release and purge what they like, but fence none of this holder's leases. */
    ghost predicate Unfenced(me: string) {
      forall n: nat, t: Table :: Undisturbed(t, others(n, t), me)
    }

    /** Nobody else ever has one of these keys. */
    ghost predicate Unopposed(me: string, keys: seq<Text>) {
      forall n: nat, t: Table, k: Text :: k in keys && k in others(n, t) ==> others(n, t)[k].holder == me
    }

    method Turn()
      modifies this`leases, this`now, this`turns
      ensures leases == others(old(turns), old(leases)) && turns == old(turns) + 1 && now == old(now) + delay(old(turns))
    {
      leases := others(turns, leases);
      now := now + delay(turns);
      turns := turns + 1;
    }

    /** `acquireLease`; `None` is VR5005. */
    method AcquireLease(key: Text, me: string, ttl: nat) returns (fence: Option<nat>)
      requires Unfenced(me)
      modifies this`leases, this`now, this`turns
      ensures now >= old(now)
      ensures fence == None ==> key in leases && leases[key].holder != me && leases[key].expiresAt > now
      ensures forall k :: Mine(leases, me, k) <==> Mine(old(leases), me, k) || (k == key && fence.Some?)
      ensures forall k :: k != key && Mine(leases, me, k) ==> k in old(leases) && leases[k] == old(leases)[k]
      ensures fence.Some? ==> key in leases && leases[key].fence == fence.value
      ensures turns == old(turns) + 1 && now == old(now) + delay(old(turns))
      ensures var t := others(old(turns), old(leases));
              if key in t && t[key].holder != me && t[key].expiresAt > now then fence == None && leases == t
              else fence == Some(1 + if key in t then t[key].fence else 0)
                   && leases == t[key := Lease(me, now + ttl, fence.value)]
    {
      Turn();
      if key in leases && leases[key].expiresAt > now && leases[key].holder != me { return None; }
      var next := if key in leases then leases[key].fence + 1 else 1;
      leases := leases[key := Lease(me, now + ttl, next)];
      return Some(next);
    }

    /** `releaseLease`; false is VR5010. */
    method ReleaseLease(key: Text, me: string, fence: nat) returns (ok: bool)
      modifies this`leases, this`now, this`turns
      ensures now >= old(now) && turns == old(turns) + 1
      ensures var t := others(old(turns), old(leases));
              (ok <==> !Fenced(t, me, key, fence)) && leases == if ok then t - {key} else t
    {
      Turn();
      if key !in leases {
        assert leases - {key} == leases;
        return true;
      }
      if leases[key].holder != me || leases[key].fence != fence { return false; }
      leases := leases - {key};
      return true;
    }

    /** The wait between two attempts: never entered holding a lease. */
    method Sleep(ms: nat, me: string)
      requires ms >= 1 && NothingHeld(leases, me) && Unfenced(me)
      modifies this
      ensures now > old(now) && NothingHeld(leases, me)
      ensures waits == old(waits) + [(old(now), ms)] && now >= old(now) + ms
    {
      waits := waits + [(now, ms)];
      Turn();
      now := now + ms + oversleep(turns);
      forall k | k in leases ensures leases[k].holder != me {
        assert !Mine(old(leases), me, k);
      }
    }

    /** One attempt: the keys in order, up to the first refusal. When refused at a key, this holder has
        exactly the keys below it, and the key is under a live lease of another. */
    method TakeAll(keys: seq<Text>, me: string, ttl: nat) returns (fences: seq<nat>)
      requires Climbing(keys) && NothingHeld(leases, me) && Unfenced(me)
      modifies this`leases, this`now, this`turns
      ensures now >= old(now)
      ensures |fences| <= |keys| && HoldsFirst(leases, me, keys, fences, |fences|)
      ensures |fences| < |keys| ==>
                var key := keys[|fences|];
                && key in leases && leases[key].holder != me && leases[key].expiresAt > now
                && forall k :: k in leases && leases[k].holder == me ==> Less(k, key)
      ensures Unopposed(me, keys) ==> |fences| == |keys|
    {
      fences := [];
      while |fences| < |keys|
        invariant |fences| <= |keys| && now >= old(now)
        invariant HoldsFirst(leases, me, keys, fences, |fences|)
        decreases |keys| - |fences|
      {
        var n := |fences|;
        ghost var before := leases;
        ghost var turn := turns;
        var fence := AcquireLease(keys[n], me, ttl);
        assert fence == None ==> keys[n] in keys && keys[n] in others(turn, before);
        TakenOk(before, leases, me, keys, fences, n, fence);
        if fence == None { return; }
        fences := fences + [fence.value];
      }
    }

    /** `releaseAll`, from the last key down; the first fenced lease ends it. If none is, nothing is left. */
    method ReleaseAll(keys: seq<Text>, me: string, fences: seq<nat>)
      requires |fences| <= |keys|
      modifies this`leases, this`now, this`turns
      ensures now >= old(now)
      ensures leases == ReleasedAmid(others, old(turns), old(leases), me, keys, fences, |fences|)
      ensures Unfenced(me) && Climbing(keys) && HoldsFirst(old(leases), me, keys, fences, |fences|) ==> NothingHeld(leases, me)
    {
      ghost var calm := Unfenced(me) && Climbing(keys) && HoldsFirst(leases, me, keys, fences, |fences|);
      var n := |keys|;
      while n > 0
        invariant 0 <= n <= |keys| && now >= old(now)
        invariant var m := if n < |fences| then n else |fences|;
                  && ReleasedAmid(others, turns, leases, me, keys, fences, m)
                     == ReleasedAmid(others, old(turns), old(leases), me, keys, fences, |fences|)
                  && (calm ==> HoldsFirst(leases, me, keys, fences, m))
      {
        n := n - 1;
        if n < |fences| {
          ghost var before, turn := leases, turns;
          var ok := ReleaseLease(keys[n], me, fences[n]);
          if calm { GivenOk(before, others(turn, before), leases, me, keys, fences, n); }
          if !ok { return; }
        }
      }
    }

    /** `acquireAll`: all the leases or none; it ends because each wait moves the clock towards the deadline. */
    method AcquireAll(resourceKeys: seq<Text>, me: string, ttl: nat, waitMs: nat, pollMs: nat)
      returns (keys: seq<Text>, result: Held)
      requires NothingHeld(leases, me) && Unfenced(me)
      modifies this
      ensures keys == SortedResourceKeys(resourceKeys)
      ensures result.Held? ==> |result.fences| == |keys| && HoldsFirst(leases, me, keys, result.fences, |keys|)
      ensures result.LeaseUnavailable? ==> NothingHeld(leases, me) && now >= old(now) + waitMs
      ensures Unopposed(me, keys) ==> result.Held?
      ensures old(waits) <= waits && forall i :: |old(waits)| <= i < |waits| ==>
                var (at, ms) := waits[i];
                at < old(now) + waitMs && ms == Least(if pollMs == 0 then 1 else pollMs, old(now) + waitMs - at)
    {
      keys := SortedResourceKeys(resourceKeys);
      SortedKeysClimb(resourceKeys);
      var poll := if pollMs < 1 then 1 else pollMs;
      var deadline := now + waitMs;
      if keys == [] {
        assert HoldsFirst(leases, me, keys, [], 0);
        return keys, Held([]);
      }
      while true
        invariant NothingHeld(leases, me)
        invariant old(waits) <= waits && forall i :: |old(waits)| <= i < |waits| ==>
                    waits[i].0 < deadline && waits[i].1 == Least(poll, deadline - waits[i].0)
        decreases deadline - now
      {
        var fences := TakeAll(keys, me, ttl);
        if |fences| == |keys| { return keys, Held(fences); }
        ReleaseAll(keys, me, fences);
        if now >= deadline { return keys, LeaseUnavailable; }
        Sleep(if poll < deadline - now then poll else deadline - now, me);
      }
    }
  }

  lemma TakenOk(t: Table, t': Table, me: string, keys: seq<Text>, fences: seq<nat>, n: nat, fence: Option<nat>)
    requires Climbing(keys) && n < |keys| && n == |fences| && HoldsFirst(t, me, keys, fences, n)
    requires forall k :: Mine(t', me, k) <==> Mine(t, me, k) || (k == keys[n] && fence.Some?)
    requires forall k :: k != keys[n] && Mine(t', me, k) ==> k in t && t'[k] == t[k]
    requires fence.Some? ==> keys[n] in t' && t'[keys[n]].fence == fence.value
    ensures fence.Some? ==> HoldsFirst(t', me, keys, fences + [fence.value], n + 1)
    ensures fence == None ==> HoldsFirst(t', me, keys, fences, n)
    ensures fence == None ==> forall k :: k in t' && t'[k].holder == me ==> Less(k, keys[n])
  {
    forall i | 0 <= i < n ensures keys[i] != keys[n] { ClimbingDistinct(keys, i, n); }
    forall k | k in t' && t'[k].holder == me ensures k in keys[..n] || (k == keys[n] && fence.Some?) {
      assert Mine(t', me, k);
    }
    assert keys[..n + 1] == keys[..n] + [keys[n]];
  }

  /** A lease that nobody fenced is given back. */
  lemma GivenOk(t: Table, now: Table, t': Table, me: string, keys: seq<Text>, fences: seq<nat>, n: nat)
    requires Climbing(keys) && n < |keys| && n < |fences| && HoldsFirst(t, me, keys, fences, n + 1) && Undisturbed(t, now, me)
    requires !Fenced(now, me, keys[n], fences[n]) ==> t' == now - {keys[n]}
    ensures !Fenced(now, me, keys[n], fences[n]) && HoldsFirst(t', me, keys, fences, n)
  {
    assert Mine(t, me, keys[n]);
    forall i | 0 <= i < n ensures keys[i] != keys[n] && Mine(t, me, keys[i]) { ClimbingDistinct(keys, i, n); }
    forall k | k in t' && t'[k].holder == me ensures k in keys[..n] {
      assert Mine(now, me, k) && Mine(t, me, k) && k in keys[..n + 1];
      assert keys[..n + 1] == keys[..n] + [keys[n]];
    }
  }

  // ---------------------------------------------------------------- no deadlock

  /** A call that was refused: what it holds at that moment, and the key it wants. */
  datatype Waiter = Waiter(held: set<Text>, wants: Text)

  /** What `TakeAll` says of every refused call. */
  ghost predicate HoldsBelow(w: Waiter) {
    forall k :: k in w.held ==> Less(k, w.wants)
  }

  predicate WaitsFor(a: Waiter, b: Waiter) {
    a.wants in b.held
  }

  lemma {:induction false} WantsClimb(path: seq<Waiter>)
    requires |path| > 1 && forall i :: 0 <= i < |path| ==> HoldsBelow(path[i])
    requires forall i :: 0 <= i < |path| - 1 ==> WaitsFor(path[i], After(path, i))
    ensures Less(path[0].wants, path[|path| - 1].wants)
  {
    var n := |path| - 1;
    assert WaitsFor(path[n - 1], After(path, n - 1));
    if n > 1 {
      var front := path[..n];
      forall i | 0 <= i < n - 1 ensures WaitsFor(front[i], After(front, i)) {
        assert WaitsFor(path[i], After(path, i));
      }
      WantsClimb(front);
      LessTransitive(path[0].wants, path[n - 1].wants, path[n].wants);
    }
  }

  function After(path: seq<Waiter>, i: nat): Waiter
    requires i + 1 < |path|
  {
    path[i + 1]
  }

  /** Refused calls never wait for one another in a circle. */
  lemma NoWaitCycle(path: seq<Waiter>)
    requires |path| > 1 && forall i :: 0 <= i < |path| ==> HoldsBelow(path[i])
    requires forall i :: 0 <= i < |path| - 1 ==> WaitsFor(path[i], After(path, i))
    ensures path[0] != path[|path| - 1]
  {
    WantsClimb(path);
    LessAsymmetric(path[0].wants, path[|path| - 1].wants);
  }

  // ---------------------------------------------------------------- a lease fenced meanwhile

  predicate Fenced(t: Table, me: string, key: Text, fence: nat) {
    key in t && (t[key].holder != me || t[key].fence != fence)
  }

  /** `releaseAll` from key `n - 1` down, the others having a turn before each call; VR5010 ends it. */
  function ReleasedAmid(others: (nat, Table) -> Table, turn: nat, t: Table, me: string, keys: seq<Text>, fences: seq<nat>, n: nat): Table
    requires n <= |keys| && n <= |fences|
    decreases n
  {
    if n == 0 then t
    else
      var now := others(turn, t);
      if Fenced(now, me, keys[n - 1], fences[n - 1]) then now
      else ReleasedAmid(others, turn + 1, now - {keys[n - 1]}, me, keys, fences, n - 1)
  }

  const STILL: (nat, Table) -> Table := (_, t) => t

  /** With nobody else at the table, a key is given back exactly when neither it nor any key above it was
      fenced: below the highest fenced key the leases stay in the table. */
  lemma {:induction false} ReleaseStopsAtFenced(turn: nat, t: Table, me: string, keys: seq<Text>, fences: seq<nat>, n: nat, i: nat)
    requires Climbing(keys) && i < n <= |keys| && n <= |fences| && keys[i] in t
    ensures keys[i] !in ReleasedAmid(STILL, turn, t, me, keys, fences, n)
            <==> forall j :: i <= j < n ==> !Fenced(t, me, keys[j], fences[j])
    decreases n
  {
    if !Fenced(t, me, keys[n - 1], fences[n - 1]) {
      var t' := t - {keys[n - 1]};
      if i == n - 1 {
        StaysOut(turn + 1, t', me, keys, fences, n - 1, keys[i]);
      } else {
        forall j | i <= j < n - 1 ensures keys[j] != keys[n - 1] { ClimbingDistinct(keys, j, n - 1); }
        ReleaseStopsAtFenced(turn + 1, t', me, keys, fences, n - 1, i);
      }
    }
  }

  lemma {:induction false} StaysOut(turn: nat, t: Table, me: string, keys: seq<Text>, fences: seq<nat>, n: nat, key: Text)
    requires n <= |keys| && n <= |fences| && key !in t
    ensures key !in ReleasedAmid(STILL, turn, t, me, keys, fences, n)
    decreases n
  {
    if n > 0 && !Fenced(t, me, keys[n - 1], fences[n - 1]) {
      StaysOut(turn + 1, t - {keys[n - 1]}, me, keys, fences, n - 1, key);
    }
  }
}
