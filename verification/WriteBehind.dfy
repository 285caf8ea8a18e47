/** The write-behind buffer of the http ledger: appends go to a local log and a pending list, flushes send
    batches, and any post may fail, be stored without an answer, or be repeated later. */
module WriteBehind {
  import opened Options

  /** How one post of one event ends. `Unacked`: the server stored it and the answer was lost or refused. */
  datatype Post = Acked | Unacked | NotStored

  /** A logged event; the local ledger logs its anchors itself and does not hand them on. */
  datatype Entry<E> = Entry(event: E, anchor: bool)

  /** `batch` is what the flush under way has taken, `sent` how much of it was acknowledged; `server` is every
      event that reached the server, repeats included, in order of arrival. */
  datatype State<E> = State(log: seq<Entry<E>>, pending: seq<E>, batch: seq<E>, sent: nat, server: seq<E>)

  /** One event appended, with the anchor the append brought due; an anchor by itself; one batch taken; or one
      post of the batch under way. */
  datatype Action<E> = Append(event: E, due: Option<E>) | Anchor(event: E) | Take | Send(post: Post)

  function Start<E>(): State<E> {
    State([], [], [], 0, [])
  }

  predicate Logged<E(==)>(log: seq<Entry<E>>, e: E) {
    exists i :: 0 <= i < |log| && log[i].event == e
  }

  function Pushed<E(==)>(s: State<E>, e: E): State<E> {
    if Logged(s.log, e) then s else s.(log := s.log + [Entry(e, false)], pending := s.pending + [e])
  }

  function Anchored<E(==)>(s: State<E>, anchor: E): State<E> {
    if Logged(s.log, anchor) then s else s.(log := s.log + [Entry(anchor, true)])
  }

  /** `pending.unshift(...batch)`. */
  function PutBack<E>(s: State<E>): State<E> {
    s.(pending := s.batch + s.pending, batch := [], sent := 0)
  }

  function Next<E(==)>(s: State<E>, a: Action<E>): State<E> {
    match a
    case Append(e, due) => if due.Some? then Anchored(Pushed(s, e), due.value) else Pushed(s, e)
    case Anchor(e) => Anchored(s, e)
    case Take => if s.sent < |s.batch| then s else s.(batch := s.pending, pending := [], sent := 0)
    case Send(post) =>
      if s.sent >= |s.batch| then s
      else
        var reached := s.(server := s.server + [s.batch[s.sent]]);
        match post
        case Acked => reached.(sent := s.sent + 1)
        case Unacked => PutBack(reached)
        case NotStored => PutBack(s)
  }

  function After<E(==)>(actions: seq<Action<E>>): State<E> {
    if actions == [] then Start() else Next(After(actions[..|actions| - 1]), actions[|actions| - 1])
  }

  /** The events in order of their first arrival. */
  function Firsts<E(==)>(server: seq<E>): (r: seq<E>)
    ensures |r| <= |server|
  {
    if server == [] then []
    else
      var front, last := server[..|server| - 1], server[|server| - 1];
      if last in front then Firsts(front) else Firsts(front) + [last]
  }

  lemma {:induction false} FirstsSame<E>(server: seq<E>)
    ensures forall e :: e in server <==> e in Firsts(server)
  {
    if server != [] {
      var front, last := server[..|server| - 1], server[|server| - 1];
      FirstsSame(front);
      assert server == front + [last];
    }
  }

  lemma FirstsSnoc<E>(server: seq<E>, e: E)
    ensures Firsts(server + [e]) == if e in server then Firsts(server) else Firsts(server) + [e]
  {
    assert (server + [e])[..|server|] == server;
  }

  ghost predicate Distinct<E>(log: seq<Entry<E>>) {
    forall i, j :: 0 <= i < j < |log| ==> log[i].event != log[j].event
  }

  /** The events of the log that are not anchors, in order. */
  function Users<E>(log: seq<Entry<E>>): (r: seq<E>)
    ensures |r| <= |log|
  {
    if log == [] then []
    else
      var front, last := log[..|log| - 1], log[|log| - 1];
      if last.anchor then Users(front) else Users(front) + [last.event]
  }

  lemma UsersSnoc<E>(log: seq<Entry<E>>, entry: Entry<E>)
    ensures Users(log + [entry]) == if entry.anchor then Users(log) else Users(log) + [entry.event]
  {
    assert (log + [entry])[..|log|] == log;
  }

  lemma {:induction false} UsersSame<E>(log: seq<Entry<E>>)
    ensures forall e :: e in Users(log) <==> Entry(e, false) in log
  {
    if log != [] {
      var front, last := log[..|log| - 1], log[|log| - 1];
      UsersSame(front);
      assert log == front + [last];
    }
  }

  lemma {:induction false} UsersDistinct<E>(log: seq<Entry<E>>)
    requires Distinct(log)
    ensures forall i, j :: 0 <= i < j < |Users(log)| ==> Users(log)[i] != Users(log)[j]
  {
    if log != [] {
      var front, last := log[..|log| - 1], log[|log| - 1];
      UsersDistinct(front);
      UsersSame(front);
      assert last.event !in Users(front);
    }
  }

  /** How much of the log, anchors aside, is in neither the batch under way nor the pending list. */
  function Settled<E>(s: State<E>): int {
    |Users(s.log)| - |s.batch| - |s.pending|
  }

  /** The batch under way and the pending list are the end of the log without its anchors; first arrivals are
      a beginning of it, and reach at least as far as what was acknowledged. */
  ghost predicate Ok<E>(s: State<E>) {
    && Distinct(s.log)
    && s.sent <= |s.batch|
    && Settled(s) >= 0 && s.batch + s.pending == Users(s.log)[Settled(s)..]
    && Settled(s) + s.sent <= |Firsts(s.server)| && Firsts(s.server) <= Users(s.log)
  }

  lemma PushedOk<E>(s: State<E>, e: E)
    requires Ok(s)
    ensures Ok(Pushed(s, e))
  {
    if !Logged(s.log, e) {
      var users, s' := Users(s.log), Pushed(s, e);
      UsersSnoc(s.log, Entry(e, false));
      hide Firsts, Users;
      assert (users + [e])[Settled(s)..] == users[Settled(s)..] + [e];
      assert s.batch + (s.pending + [e]) == (s.batch + s.pending) + [e];
    }
  }

  lemma AnchoredOk<E>(s: State<E>, anchor: E)
    requires Ok(s)
    ensures Ok(Anchored(s, anchor))
  {
    UsersSnoc(s.log, Entry(anchor, true));
    hide Firsts, Users;
  }

  lemma AppendOk<E>(s: State<E>, e: E, due: Option<E>)
    requires Ok(s)
    ensures Ok(Next(s, Append(e, due)))
  {
    hide Ok;
    PushedOk(s, e);
    if due.Some? { AnchoredOk(Pushed(s, e), due.value); }
  }

  lemma TakeOk<E>(s: State<E>)
    requires Ok(s)
    ensures Ok(Next(s, Take))
  {
    hide Firsts, Users;
    var s' := Next(s, Take);
    if s.sent >= |s.batch| {
      assert Users(s.log)[Settled(s)..][|s.batch|..] == s.pending;
      assert s'.batch + s'.pending == s.pending;
    }
  }

  lemma Extend<E>(users: seq<E>, firsts: seq<E>, n: nat)
    requires forall i, j :: 0 <= i < j < |users| ==> users[i] != users[j]
    requires firsts <= users && n <= |firsts| && n < |users|
    ensures if users[n] in firsts then n < |firsts| else n == |firsts| && firsts + [users[n]] <= users
  {
    if n < |firsts| {
      assert firsts[n] == users[n];
    } else {
      assert firsts == users[..n] && users[..n] + [users[n]] == users[..n + 1];
    }
  }

  /** The event posted next is the one after the acknowledged ones: new to the server exactly if everything
      before it, and nothing else, has arrived. */
  lemma ReachOk<E>(s: State<E>)
    requires Ok(s) && s.sent < |s.batch|
    ensures Ok(s.(server := s.server + [s.batch[s.sent]]))
    ensures Settled(s) + s.sent < |Firsts(s.server + [s.batch[s.sent]])|
  {
    var n, e := Settled(s) + s.sent, s.batch[s.sent];
    assert e == (s.batch + s.pending)[s.sent] == Users(s.log)[n];
    FirstsSame(s.server);
    FirstsSnoc(s.server, e);
    UsersDistinct(s.log);
    Extend(Users(s.log), Firsts(s.server), n);
    hide Firsts, Distinct, Users;
  }

  lemma PutBackOk<E>(s: State<E>)
    requires Ok(s)
    ensures Ok(PutBack(s))
  {
    hide Firsts, Users;
    assert [] + (s.batch + s.pending) == s.batch + s.pending;
  }

  lemma SendOk<E>(s: State<E>, post: Post)
    requires Ok(s)
    ensures Ok(Next(s, Send(post)))
  {
    if s.sent < |s.batch| {
      PutBackOk(s);
      ReachOk(s);
      var reached := s.(server := s.server + [s.batch[s.sent]]);
      PutBackOk(reached);
      assert Ok(reached.(sent := s.sent + 1)) by { hide Firsts, Users; }
      hide Ok;
    }
  }

  lemma {:induction false} OkAlways<E>(actions: seq<Action<E>>)
    ensures Ok(After(actions))
  {
    if actions != [] {
      hide Ok;
      var s := After(actions[..|actions| - 1]);
      OkAlways(actions[..|actions| - 1]);
      match actions[|actions| - 1]
      case Append(e, due) => AppendOk(s, e, due);
      case Anchor(e) => AnchoredOk(s, e);
      case Take => TakeOk(s);
      case Send(post) => SendOk(s, post);
    } else {
      assert Users(Start<E>().log)[0..] == [];
    }
  }

  /** Whatever fails: the batch under way and the pending list are exactly the end of the log without its
      anchors, and what reached the server is, first arrivals taken in order, a beginning of that. */
  lemma SuffixAndPrefix<E>(actions: seq<Action<E>>)
    ensures var s := After(actions);
            && Settled(s) >= 0 && s.batch + s.pending == Users(s.log)[Settled(s)..]
            && Firsts(s.server) <= Users(s.log)
            && Users(s.log)[..Settled(s)] <= Firsts(s.server)
  {
    OkAlways(actions);
    var s := After(actions);
    assert Users(s.log)[..Settled(s)] == Firsts(s.server)[..Settled(s)];
  }

  /** Of the logged events: the server has, or is still to be sent, exactly those that are not anchors. No
      anchor ever leaves the local log. */
  lemma NothingLost<E>(actions: seq<Action<E>>, entry: Entry<E>)
    requires entry in After(actions).log
    ensures var s := After(actions);
            s.sent <= |s.batch| && (entry.event in s.server || entry.event in s.batch[s.sent..] + s.pending <==> !entry.anchor)
  {
    OkAlways(actions);
    var s, e := After(actions), entry.event;
    FirstsSame(s.server);
    hide After, Firsts, Users;
    var j :| 0 <= j < |s.log| && s.log[j] == entry;
    if entry.anchor {
      AnchorNotUser(s.log, j);
      if e in Firsts(s.server) + (s.batch[s.sent..] + s.pending) { FromUsers(s, e); }
    } else {
      UsersSame(s.log);
      UserSafe(s, e);
    }
  }

  lemma UserSafe<E>(s: State<E>, e: E)
    requires Ok(s) && e in Users(s.log)
    ensures e in Firsts(s.server) || e in s.batch[s.sent..] + s.pending
  {
    hide Firsts, Users, Distinct;
    var users := Users(s.log);
    var i :| 0 <= i < |users| && users[i] == e;
    if i < Settled(s) + s.sent {
      assert Firsts(s.server)[i] == e;
    } else {
      assert (s.batch + s.pending)[i - Settled(s)] == e;
      assert (s.batch[s.sent..] + s.pending)[i - Settled(s) - s.sent] == e;
    }
  }

  lemma FromUsers<E>(s: State<E>, e: E)
    requires Ok(s) && e in Firsts(s.server) + (s.batch[s.sent..] + s.pending)
    ensures e in Users(s.log)
  {
    hide Firsts, Users, Distinct;
    var users := Users(s.log);
    if e in Firsts(s.server) {
      var i :| 0 <= i < |Firsts(s.server)| && Firsts(s.server)[i] == e;
      assert users[i] == e;
    } else {
      assert e in s.batch + s.pending;
      var i :| 0 <= i < |s.batch + s.pending| && (s.batch + s.pending)[i] == e;
      assert users[Settled(s)..][i] == e;
    }
  }

  /** When nothing is left to send, the server has the whole log in the order of the appends, without the
      anchors. */
  lemma AllArrived<E>(actions: seq<Action<E>>)
    requires var s := After(actions); s.pending == [] && s.sent == |s.batch|
    ensures Firsts(After(actions).server) == Users(After(actions).log)
  {
    OkAlways(actions);
    var s := After(actions);
    assert Firsts(s.server) == Users(s.log)[..|Firsts(s.server)|];
  }

  function Events<E>(log: seq<Entry<E>>): (r: seq<E>)
    ensures |r| == |log| && forall i :: 0 <= i < |log| ==> r[i] == log[i].event
  {
    if log == [] then [] else Events(log[..|log| - 1]) + [log[|log| - 1].event]
  }

  ghost predicate EndsWith<E>(all: seq<E>, end: seq<E>) {
    |end| <= |all| && forall p :: 0 <= p < |end| ==> end[p] == all[|all| - |end| + p]
  }

  /** An anchor was logged after an event still in the batch or pending. */
  ghost predicate AnchorBehind<E>(log: seq<Entry<E>>, unsettled: seq<E>) {
    exists i, j :: 0 <= i < j < |log| && log[i].event in unsettled && log[j].anchor
  }

  lemma EndsAsSlice<E>(all: seq<E>, end: seq<E>)
    requires |end| <= |all| && end == all[|all| - |end|..]
    ensures EndsWith(all, end)
  {
  }

  /** Exactly when the batch under way and the pending list are the end of the log as it stands: unless an
      anchor was logged after one of their events. */
  lemma PlainSuffixExact<E>(actions: seq<Action<E>>)
    ensures var s := After(actions);
            EndsWith(Events(s.log), s.batch + s.pending) <==> !AnchorBehind(s.log, s.batch + s.pending)
  {
    OkAlways(actions);
    var s := After(actions);
    var end := s.batch + s.pending;
    UsersSame(s.log);
    hide After, Firsts, Users;
    EndsAsSlice(Users(s.log), end);
    if !AnchorBehind(s.log, end) {
      EndsPlainly(s.log, end);
    } else {
      var i, j :| 0 <= i < j < |s.log| && s.log[i].event in end && s.log[j].anchor;
      AnchorNotUnsettled(s.log, end, i, j);
    }
  }

  lemma EndsShorter<E>(all: seq<E>, end: seq<E>, last: E)
    ensures EndsWith(all + [last], end) && end != [] ==> end[|end| - 1] == last && EndsWith(all, end[..|end| - 1])
    ensures EndsWith(all, end) ==> EndsWith(all + [last], end + [last])
  {
  }

  lemma EndsIn<E>(all: seq<E>, end: seq<E>, p: nat)
    requires EndsWith(all, end) && p < |end|
    ensures |end| <= |all| && all[|all| - |end| + p] == end[p] && end[p] in all
  {
  }

  lemma UserIndex<E>(log: seq<Entry<E>>, e: E) returns (i: nat)
    requires e in Users(log)
    ensures i < |log| && log[i] == Entry(e, false)
  {
    UsersSame(log);
    hide Users;
    i :| i < |log| && log[i] == Entry(e, false);
  }

  lemma EndsNoAnchor<E>(log: seq<Entry<E>>, end: seq<E>)
    requires EndsWith(Users(log), end) && end != [] && !AnchorBehind(log, end)
    ensures !log[|log| - 1].anchor
  {
    hide Users, EndsWith;
    var n := |log| - 1;
    EndsIn(Users(log), end, 0);
    var i := UserIndex(log, end[0]);
    assert log[i].event in end;
    assert i < n && log[n].anchor ==> AnchorBehind(log, end);
  }

  lemma {:induction false} EndsPlainly<E>(log: seq<Entry<E>>, end: seq<E>)
    requires EndsWith(Users(log), end) && !AnchorBehind(log, end)
    ensures EndsWith(Events(log), end)
  {
    if end != [] {
      var n, k := |log| - 1, |end| - 1;
      var front := log[..n];
      EndsNoAnchor(log, end);
      assert Users(log) == Users(front) + [log[n].event];
      assert Events(log) == Events(front) + [log[n].event];
      hide Users, Events;
      EndsShorter(Users(front), end, log[n].event);
      assert forall e :: e in end[..k] ==> e in end;
      assert !AnchorBehind(front, end[..k]);
      hide EndsWith, AnchorBehind;
      EndsPlainly(front, end[..k]);
      EndsShorter(Events(front), end[..k], log[n].event);
      assert end == end[..k] + [end[k]];
    }
  }

  lemma SameSpot<E>(log: seq<Entry<E>>, i: nat, j: nat)
    requires Distinct(log) && i < |log| && j < |log| && log[i].event == log[j].event
    ensures i == j
  {
  }

  lemma AnchorNotUser<E>(log: seq<Entry<E>>, j: nat)
    requires Distinct(log) && j < |log| && log[j].anchor
    ensures log[j].event !in Users(log)
  {
    if log[j].event in Users(log) {
      var i := UserIndex(log, log[j].event);
      hide Users;
      SameSpot(log, i, j);
    }
  }

  lemma EndsFrom<E>(log: seq<Entry<E>>, end: seq<E>, i: nat)
    requires Distinct(log) && EndsWith(Events(log), end) && i < |log| && log[i].event in end
    ensures i >= |log| - |end|
  {
    hide EndsWith, Events, Distinct;
    var p :| 0 <= p < |end| && end[p] == log[i].event;
    EndsIn(Events(log), end, p);
    SameSpot(log, |log| - |end| + p, i);
  }

  lemma AnchorNotUnsettled<E>(log: seq<Entry<E>>, end: seq<E>, i: nat, j: nat)
    requires Distinct(log) && EndsWith(Users(log), end)
    requires i < j < |log| && log[i].event in end && log[j].anchor
    ensures !EndsWith(Events(log), end)
  {
    hide Users, Distinct, EndsWith, Events;
    if EndsWith(Events(log), end) {
      EndsFrom(log, end, i);
      var p := j - (|log| - |end|);
      EndsIn(Events(log), end, p);
      EndsIn(Users(log), end, p);
      AnchorNotUser(log, j);
    }
  }

  /** The first event with its anchor: the log ends in the anchor and the pending list in the event; when all
      is sent, the server still lacks the anchor. */
  lemma AnchorStaysBehind<E>(e: E, anchor: E)
    requires e != anchor
    ensures var (s, t) := (After([Append(e, Some(anchor))]), After([Append(e, Some(anchor)), Take, Send(Acked)]));
            && Events(s.log) == [e, anchor] && s.batch + s.pending == [e] && !EndsWith(Events(s.log), s.batch + s.pending)
            && t.pending == [] && t.sent == |t.batch| && Events(t.log) == [e, anchor] && t.server == [e]
  {
    var a1, a2, a3 := Append(e, Some(anchor)), Action<E>.Take, Action<E>.Send(Acked);
    assert [a1][..0] == [] && [a1, a2][..1] == [a1] && [a1, a2, a3][..2] == [a1, a2];
    var log := [Entry(e, false), Entry(anchor, true)];
    var s := State(log, [e], [], 0, []);
    assert After([a1]) == s by {
      assert After<E>([]) == Start();
      assert Pushed(Start(), e) == State([Entry(e, false)], [e], [], 0, []);
    }
    assert After([a1, a2]) == State(log, [], [e], 0, []);
    assert After([a1, a2, a3]) == State(log, [], [e], 1, [e]);
    assert Events(log) == [e, anchor];
  }

  // ---------------------------------------------------------------- flushing

  /** The buffer and the server behind it. What happens while a post is under way is in `Surroundings`. */
  datatype Surroundings<E> = Surroundings(meanwhile: seq<(E, Option<E>)>, post: Post)

  /** How many appends come during these posts. */
  function Total<E>(net: seq<Surroundings<E>>): nat {
    if net == [] then 0 else Total(net[..|net| - 1]) + |net[|net| - 1].meanwhile|
  }

  lemma TotalNext<E>(net: seq<Surroundings<E>>, n: nat)
    requires n < |net|
    ensures Total(net[..n + 1]) == Total(net[..n]) + |net[n].meanwhile|
  {
    assert net[..n + 1][..n] == net[..n];
  }

  /** The `n` posts from number `from` on are acknowledged. */
  predicate Acks<E>(net: seq<Surroundings<E>>, from: nat, n: nat) {
    from + n <= |net| && forall i :: from <= i < from + n ==> net[i].post == Acked
  }

  /** What reaches the server when the events are posted in order from post `from` on, `n` of them are
      acknowledged, and then the events end or a post fails. */
  function Reaching<E>(events: seq<E>, net: seq<Surroundings<E>>, from: nat, n: nat): seq<E>
    requires n <= |events|
  {
    events[..n] + if n < |events| && from + n < |net| && net[from + n].post == Unacked then [events[n]] else []
  }

  /** The log grew by appends, at most `more` of them users', and nothing else changed for what is settled. */
  ghost predicate Grew<E>(s: State<E>, s': State<E>, more: int) {
    && s.log <= s'.log && Users(s.log) <= Users(s'.log) && |Users(s'.log)| <= |Users(s.log)| + more
    && Settled(s') == Settled(s)
  }

  lemma {:induction false} UsersPrefix<E>(log: seq<Entry<E>>, log': seq<Entry<E>>)
    requires log <= log'
    ensures Users(log) <= Users(log') && |Users(log')| <= |Users(log)| + |log'| - |log|
  {
    if log != log' {
      var last := |log'| - 1;
      UsersPrefix(log, log'[..last]);
    }
  }

  lemma AppendGrows<E>(s: State<E>, e: E, due: Option<E>)
    ensures var s' := Next(s, Append(e, due));
            && Grew(s, s', 1) && Logged(s'.log, e)
            && s'.batch == s.batch && s'.sent == s.sent && s'.server == s.server
  {
    hide Users;
    var s1 := Pushed(s, e);
    UsersSnoc(s.log, Entry(e, false));
    assert Logged(s1.log, e) by { if s1 != s { assert s1.log[|s.log|].event == e; } }
    if due.Some? {
      UsersSnoc(s1.log, Entry(due.value, true));
      var i :| 0 <= i < |s1.log| && s1.log[i].event == e;
      assert Anchored(s1, due.value).log[i].event == e;
    }
  }

  lemma LoggedOn<E>(log: seq<Entry<E>>, log': seq<Entry<E>>, e: E)
    requires log <= log' && Logged(log, e)
    ensures Logged(log', e)
  {
    var i :| 0 <= i < |log| && log[i].event == e;
    assert log'[i].event == e;
  }

  lemma TotalNone<E>(net: seq<Surroundings<E>>)
    ensures Total(net[..0]) == 0 && net[..|net|] == net
  {
    assert net[..0] == [];
  }

  lemma FlushStarts<E>(s: State<E>)
    requires Ok(s) && s.sent == |s.batch|
    ensures |s.pending| <= |Users(s.log)| && s.pending == Users(s.log)[|Users(s.log)| - |s.pending|..]
  {
    hide Users, Firsts, Distinct;
    assert s.pending == (s.batch + s.pending)[|s.batch|..] == Users(s.log)[Settled(s)..][|s.batch|..];
  }

  lemma FlushEnds<E>(s: State<E>)
    requires Ok(s) && s.sent == |s.batch| && s.pending == []
    ensures Firsts(s.server) == Users(s.log)
  {
    assert Firsts(s.server) == Users(s.log)[..|Firsts(s.server)|];
  }

  /** The flush from `s0` as it stands between two batches, after `acked` posts. */
  ghost predicate Flushing<E>(s0: State<E>, base: nat, net: seq<Surroundings<E>>, acked: nat, s: State<E>) {
    && Ok(s) && s.sent == |s.batch| && Acks(net, 0, acked)
    && s0.log <= s.log && Users(s0.log) <= Users(s.log) && |Users(s.log)| <= |Users(s0.log)| + Total(net[..acked])
    && base + acked <= |Users(s.log)| && s.pending == Users(s.log)[base + acked..]
    && s.server == s0.server + Users(s.log)[base..base + acked]
  }

  ghost predicate Underway<E>(s0: State<E>, net: seq<Surroundings<E>>, acked: nat, s: State<E>) {
    && acked <= |net| && Ok(s0) && s0.sent == |s0.batch| && |s0.pending| <= |Users(s0.log)|
    && Flushing(s0, |Users(s0.log)| - |s0.pending|, net, acked, s)
  }

  /** A flush from `s0` to `s` in which `acked` posts were acknowledged. It sent the pending events and those
      appended on the way, each once and in order, up to the first post that failed; it ended well exactly if
      none was left, and so whenever the network acknowledges enough posts. */
  ghost predicate Flushed<E>(s0: State<E>, net: seq<Surroundings<E>>, acked: nat, s: State<E>, ok: bool) {
    var base := |Users(s0.log)| - |s0.pending|;
    && s0.log <= s.log && 0 <= base <= |Users(s.log)| && Acks(net, 0, acked)
    && var events := Users(s.log)[base..];
       && s0.pending <= events && acked <= |events|
       && s.server == s0.server + Reaching(events, net, 0, acked)
       && (ok <==> acked == |events|)
       && (!ok ==> acked == |net| || net[acked].post != Acked)
       && (Acks(net, 0, |net|) && |net| >= |s0.pending| + Total(net) ==> ok)
  }

  /** What `PostEvents` says of a batch that was everything pending. */
  ghost predicate Posted<E>(s: State<E>, s': State<E>, net: seq<Surroundings<E>>, from: nat, n: nat, ok: bool) {
    && Ok(s') && from <= |net| && Acks(net, from, n) && n <= |s.pending|
    && s'.server == s.server + Reaching(s.pending, net, from, n)
    && (if ok then n == |s.pending| == s'.sent && s'.batch == s.pending
        else n < |s.pending| && (from + n == |net| || net[from + n].post != Acked) && s'.batch == [] && s'.sent == 0)
    && Grew(s.(batch := s.pending, pending := [], sent := 0), s', Total(net[..Upto(net, from, n, |s.pending|)]) - Total(net[..from]))
  }

  /** The posts made, the one that failed included. */
  function Upto<E>(net: seq<Surroundings<E>>, from: nat, n: nat, size: nat): (r: nat)
    requires from + n <= |net|
    ensures from + n <= r <= |net|
  {
    if n < size && from + n < |net| then from + n + 1 else from + n
  }

  lemma DoneServer<E>(net: seq<Surroundings<E>>, s0: State<E>, base: nat, acked: nat, s: State<E>, s': State<E>, n: nat)
    requires Flushing(s0, base, net, acked, s) && Posted(s, s', net, acked, n, true)
    ensures base + acked + n <= |Users(s'.log)| && s'.server == s0.server + Users(s'.log)[base..base + acked + n]
  {
    var u, u' := Users(s.log), Users(s'.log);
    ReachAll(s.pending, net, acked);
    hide Users, Total, Ok, Reaching, Acks;
    DueNext(u, u', base, acked, n);
    assert s'.server == s0.server + (u[base..base + acked] + u[base + acked..][..n]);
  }

  lemma DonePending<E>(net: seq<Surroundings<E>>, s0: State<E>, base: nat, acked: nat, s: State<E>, s': State<E>, n: nat)
    requires Flushing(s0, base, net, acked, s) && Posted(s, s', net, acked, n, true)
    ensures Settled(s') + |s'.batch| == base + acked + n <= |Users(s'.log)| && s'.pending == Users(s'.log)[base + acked + n..]
  {
    PendingAt(s');
    hide Users, Total, Ok, Reaching, Acks;
  }

  lemma BatchDone<E>(net: seq<Surroundings<E>>, s0: State<E>, base: nat, acked: nat, s: State<E>, s': State<E>, n: nat)
    requires Flushing(s0, base, net, acked, s) && Posted(s, s', net, acked, n, true)
    ensures Flushing(s0, base, net, acked + n, s')
  {
    DoneServer(net, s0, base, acked, s, s', n);
    DonePending(net, s0, base, acked, s, s', n);
    hide Users, Total, Ok, Reaching, Settled;
  }

  lemma PendingAt<E>(s: State<E>)
    requires Ok(s)
    ensures s.pending == Users(s.log)[Settled(s) + |s.batch|..]
  {
    hide Users, Firsts, Distinct;
    assert s.pending == (s.batch + s.pending)[|s.batch|..];
  }

  lemma ReachAll<E>(events: seq<E>, net: seq<Surroundings<E>>, from: nat)
    ensures Reaching(events, net, from, |events|) == events[..|events|]
  {
  }

  lemma DueNext<E>(u: seq<E>, u': seq<E>, base: nat, acked: nat, n: nat)
    requires u <= u' && base + acked + n <= |u|
    ensures u[base..base + acked] + u[base + acked..][..n] == u'[base..base + acked + n] == u'[base..][..acked + n]
    ensures u'[base + acked..][n..] == u'[base + acked + n..]
  {
  }

  /** What the server has when a batch fails. */
  lemma FailedServer<E>(net: seq<Surroundings<E>>, s0: State<E>, base: nat, acked: nat, s: State<E>, s': State<E>, n: nat)
    requires Flushing(s0, base, net, acked, s) && Posted(s, s', net, acked, n, false)
    ensures base + acked + n < |Users(s'.log)| && Users(s0.log) <= Users(s'.log) && s0.log <= s'.log
    ensures s'.server == s0.server + Reaching(Users(s'.log)[base..], net, 0, acked + n)
  {
    var u, u' := Users(s.log), Users(s'.log);
    hide Users, Total, Ok, Acks;
    DueNext(u, u', base, acked, n);
    assert s.pending[n] == u'[base..][acked + n];
  }

  lemma BatchFailed<E>(net: seq<Surroundings<E>>, s0: State<E>, acked: nat, s: State<E>, s': State<E>, n: nat)
    requires Underway(s0, net, acked, s) && Posted(s, s', net, acked, n, false)
    ensures Flushed(s0, net, acked + n, s', false)
  {
    var base := |Users(s0.log)| - |s0.pending|;
    hide Users, Total, Ok, Reaching;
    FailedServer(net, s0, base, acked, s, s', n);
    DueFirst(s0, s');
    if acked + n == |net| { BatchShort(net, s0, base, acked, s, s', n); }
  }

  /** A network that acknowledges everything has run short. */
  lemma BatchShort<E>(net: seq<Surroundings<E>>, s0: State<E>, base: nat, acked: nat, s: State<E>, s': State<E>, n: nat)
    requires Flushing(s0, base, net, acked, s) && Posted(s, s', net, acked, n, false)
    requires base + |s0.pending| == |Users(s0.log)| && acked + n == |net|
    ensures |net| < |s0.pending| + Total(net)
  {
    hide Users, Total, Ok, Reaching, Acks;
    TotalNone(net);
  }

  /** The events due at the start are the first of those due later. */
  lemma DueFirst<E>(s0: State<E>, s: State<E>)
    requires Ok(s0) && s0.sent == |s0.batch|
    ensures |s0.pending| <= |Users(s0.log)|
    ensures Users(s0.log) <= Users(s.log) ==> s0.pending <= Users(s.log)[|Users(s0.log)| - |s0.pending|..]
  {
    FlushStarts(s0);
    hide Users;
  }

  lemma FlushStart<E>(s: State<E>, net: seq<Surroundings<E>>)
    requires Ok(s) && s.sent == |s.batch|
    ensures Underway(s, net, 0, s)
  {
    FlushStarts(s);
    TotalNone(net);
    hide Users, Total, Firsts, Distinct;
  }

  lemma UnderwayOk<E>(s0: State<E>, net: seq<Surroundings<E>>, acked: nat, s: State<E>)
    requires Underway(s0, net, acked, s)
    ensures Ok(s) && s.sent == |s.batch|
  {
  }

  lemma BatchStep<E>(net: seq<Surroundings<E>>, s0: State<E>, acked: nat, s: State<E>, s': State<E>, n: nat, ok: bool)
    requires Underway(s0, net, acked, s) && Posted(s, s', net, acked, n, ok)
    ensures if ok then Underway(s0, net, acked + n, s') else Flushed(s0, net, acked + n, s', false)
  {
    hide Users, Ok, Reaching, Grew, Total, Flushed, Flushing;
    if ok {
      BatchDone(net, s0, |Users(s0.log)| - |s0.pending|, acked, s, s', n);
    } else {
      BatchFailed(net, s0, acked, s, s', n);
    }
  }

  lemma FlushEnd<E>(net: seq<Surroundings<E>>, s0: State<E>, acked: nat, s: State<E>)
    requires Underway(s0, net, acked, s) && s.pending == []
    ensures Flushed(s0, net, acked, s, true) && Firsts(s.server) == Users(s.log) && Ok(s) && s.sent == |s.batch|
  {
    FlushEnds(s);
    DueFirst(s0, s);
    var base := |Users(s0.log)| - |s0.pending|;
    ReachAll(Users(s.log)[base..], net, 0);
    hide Users, Total, Firsts, Distinct, Ok, Acks, Reaching;
    DueNext(Users(s.log), Users(s.log), base, acked, 0);
  }

  class HttpLedger<E(==)> {
    var log: seq<Entry<E>>
    var pending: seq<E>
    var batch: seq<E>
    var sent: nat
    var server: seq<E>

    ghost function Contents(): State<E>
      reads this
    {
      State(log, pending, batch, sent, server)
    }

    constructor ()
      ensures Contents() == Start()
    {
      log, pending, batch, sent, server := [], [], [], 0, [];
    }

    /** `append`, up to the decision whether to flush. The inner ledger logs the event, and the anchor that is
        due behind it; then the event is handed on. */
    method Append(e: E, due: Option<E>)
      requires !Logged(log, e) && (due.Some? ==> due.value != e && !Logged(log, due.value))
      modifies this
      ensures Contents() == Next(old(Contents()), Action.Append(e, due))
    {
      log := log + [Entry(e, false)];
      assert due.Some? ==> !Logged(log, due.value);
      if due.Some? { log := log + [Entry(due.value, true)]; }
      pending := pending + [e];
    }

    /** An append that comes while a post is waiting for its answer. */
    method AppendMeanwhile(e: E, due: Option<E>)
      requires Ok(Contents())
      modifies this
      ensures Ok(Contents()) && Contents() == Next(old(Contents()), Action.Append(e, due))
    {
      AppendOk(Contents(), e, due);
      if !Logged(log, e) {
        log := log + [Entry(e, false)];
        pending := pending + [e];
      }
      if due.Some? && !Logged(log, due.value) { log := log + [Entry(due.value, true)]; }
      hide Ok;
    }

    method Meanwhile(events: seq<(E, Option<E>)>)
      requires Ok(Contents())
      modifies this
      ensures Ok(Contents()) && batch == old(batch) && sent == old(sent) && server == old(server)
      ensures Grew(old(Contents()), Contents(), |events|)
      ensures forall i :: 0 <= i < |events| ==> Logged(log, events[i].0)
    {
      hide Ok, Users, Next;
      for i := 0 to |events|
        invariant Ok(Contents()) && batch == old(batch) && sent == old(sent) && server == old(server)
        invariant Grew(old(Contents()), Contents(), i)
        invariant forall j :: 0 <= j < i ==> Logged(log, events[j].0)
      {
        ghost var s := Contents();
        AppendGrows(s, events[i].0, events[i].1);
        AppendMeanwhile(events[i].0, events[i].1);
        forall j | 0 <= j < i ensures Logged(log, events[j].0) { LoggedOn(s.log, log, events[j].0); }
      }
    }

    /** One post of `postEvents`, and what its failure does to the batch. */
    method PostNext(post: Post)
      requires Ok(Contents()) && sent < |batch|
      modifies this
      ensures Ok(Contents()) && log == old(log)
      ensures server == old(server) + if post == NotStored then [] else [old(batch)[old(sent)]]
      ensures if post == Acked then batch == old(batch) && sent == old(sent) + 1 && pending == old(pending)
              else batch == [] && sent == 0 && pending == old(batch) + old(pending)
    {
      SendOk(Contents(), post);
      hide Ok;
      if post != NotStored { server := server + [batch[sent]]; }
      if post == Acked {
        sent := sent + 1;
      } else {
        pending, batch, sent := batch + pending, [], 0;
      }
    }

    /** `postEvents` on the batch under way, with the network from post `from` on: event by event until a post
        fails; false when one did, the whole batch being put back. It ends well exactly if a post for each event
        is acknowledged. */
    method PostEvents(net: seq<Surroundings<E>>, from: nat) returns (ok: bool, acked: nat)
      requires Ok(Contents()) && sent == 0 && from <= |net|
      modifies this
      ensures Ok(Contents()) && Acks(net, from, acked) && acked <= |old(batch)|
      ensures ok <==> from + |old(batch)| <= |net| && forall i :: from <= i < from + |old(batch)| ==> net[i].post == Acked
      ensures server == old(server) + Reaching(old(batch), net, from, acked)
      ensures if ok then acked == |old(batch)| == sent && batch == old(batch)
              else acked < |old(batch)| && (from + acked == |net| || net[from + acked].post != Acked) && batch == [] && sent == 0
      ensures var to := Upto(net, from, acked, |old(batch)|);
              && Grew(old(Contents()), Contents(), Total(net[..to]) - Total(net[..from]))
              && forall i, j :: from <= i < to && 0 <= j < |net[i].meanwhile| ==> Logged(log, net[i].meanwhile[j].0)
    {
      hide Ok, Users, Total;
      acked := 0;
      while sent < |batch|
        invariant Ok(Contents()) && batch == old(batch) && sent == acked <= |batch|
        invariant Acks(net, from, acked) && server == old(server) + batch[..acked]
        invariant Grew(old(Contents()), Contents(), Total(net[..from + acked]) - Total(net[..from]))
        invariant forall i, j :: from <= i < from + acked && 0 <= j < |net[i].meanwhile| ==> Logged(log, net[i].meanwhile[j].0)
        decreases |batch| - sent
      {
        var next := if from + acked < |net| then net[from + acked] else Surroundings([], NotStored);
        ghost var s := Contents();
        Meanwhile(next.meanwhile);
        forall i, j | from <= i < from + acked && 0 <= j < |net[i].meanwhile| ensures Logged(log, net[i].meanwhile[j].0) {
          LoggedOn(s.log, log, net[i].meanwhile[j].0);
        }
        if from + acked < |net| { TotalNext(net, from + acked); }
        assert batch[..acked + 1] == batch[..acked] + [batch[acked]];
        PostNext(next.post);
        if next.post != Acked { return false, acked; }
        acked := acked + 1;
      }
      ok := true;
    }

    /** One batch: everything pending is taken and posted. */
    method TakeAndPost(net: seq<Surroundings<E>>, from: nat) returns (ok: bool, n: nat)
      requires Ok(Contents()) && sent == |batch| && from <= |net|
      modifies this
      ensures Ok(Contents()) && sent == |batch| && from + n <= |net| && (ok ==> n == |old(pending)|)
      ensures Posted(old(Contents()), Contents(), net, from, n, ok)
    {
      TakeOk(Contents());
      hide Ok, Grew, Reaching;
      batch, pending, sent := pending, [], 0;
      ok, n := PostEvents(net, from);
    }

    /** A batch of a flush that began in `s0`. */
    method FlushBatch(ghost s0: State<E>, net: seq<Surroundings<E>>, acked: nat) returns (ok: bool, n: nat)
      requires Underway(s0, net, acked, Contents()) && pending != []
      modifies this
      ensures Ok(Contents()) && sent == |batch| && acked + n <= |net|
      ensures if ok then n > 0 && Underway(s0, net, acked + n, Contents())
              else Flushed(s0, net, acked + n, Contents(), false)
    {
      ghost var s := Contents();
      UnderwayOk(s0, net, acked, s);
      hide Ok, Users, Underway, Flushed, Posted;
      ok, n := TakeAndPost(net, acked);
      BatchStep(net, s0, acked, s, Contents(), n, ok);
    }

    /** `flushPending`: batch after batch until nothing is pending or a post fails. */
    method FlushPending(net: seq<Surroundings<E>>) returns (ok: bool, acked: nat)
      requires Ok(Contents()) && sent == |batch|
      modifies this
      ensures Ok(Contents()) && sent == |batch|
      ensures ok ==> pending == [] && Firsts(server) == Users(log)
      ensures Flushed(old(Contents()), net, acked, Contents(), ok)
    {
      ghost var s0 := Contents();
      FlushStart(s0, net);
      hide Ok, Users, Firsts, Flushed, Underway;
      acked := 0;
      while |pending| > 0
        invariant acked <= |net| && Underway(s0, net, acked, Contents())
        decreases |net| - acked
      {
        var n;
        ok, n := FlushBatch(s0, net, acked);
        acked := acked + n;
        if !ok { return; }
      }
      ok := true;
      FlushEnd(net, s0, acked, Contents());
    }
  }
}
