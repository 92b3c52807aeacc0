/** The pool of TCP connections, polled in any order that readiness allows. */
module Listen {
  import opened Prelude
  import Message

  /** What a connection makes of one frame. */
  datatype Received = Incomplete | Complete(message: Message.Message) | Erroneous

  /** What a connection's protocol stream yields: a value, an error, or its end. */
  datatype Item = Value(value: Received) | Failure | Closed

  datatype Arrival = Arrival(at: nat, item: Item)

  datatype Poll = Ready(item: Item) | Pending

  /** The values before the first error or close. */
  function Values(script: seq<Arrival>): seq<Received> {
    if script == [] || !script[0].item.Value? then []
    else [script[0].item.value] + Values(script[1..])
  }

  predicate AllValues(script: seq<Arrival>) {
    forall k :: 0 <= k < |script| ==> script[k].item.Value?
  }

  /** Past a run of values the rest goes on, or stops at once. */
  lemma {:induction false} ValuesSplit(script: seq<Arrival>, n: nat)
    requires n <= |script| && AllValues(script[..n])
    ensures Values(script) == Values(script[..n]) + Values(script[n..])
    decreases n
  {
    if n == 0 {
      assert script[..0] == [] && script[0..] == script;
    } else {
      assert script[..n][0] == script[0] && script[..n][1..] == script[1..][..n - 1];
      assert AllValues(script[1..][..n - 1]);
      ValuesSplit(script[1..], n - 1);
      assert script[1..][n - 1..] == script[n..];
    }
  }

  lemma ValuesSnoc(script: seq<Arrival>, n: nat)
    requires n < |script| && AllValues(script[..n]) && script[n].item.Value?
    ensures AllValues(script[..n + 1])
    ensures Values(script[..n + 1]) == Values(script[..n]) + [script[n].item.value]
  {
    var s := script[..n + 1];
    assert s[..n] == script[..n] && s[n..] == [script[n]];
    assert forall k :: 0 <= k < n ==> s[k] == script[..n][k];
    assert [script[n]][1..] == [];
    ValuesSplit(s, n);
  }

  lemma ValuesStop(script: seq<Arrival>, n: nat)
    requires n < |script| && AllValues(script[..n]) && !script[n].item.Value?
    ensures Values(script) == Values(script[..n])
  {
    ValuesSplit(script, n);
  }

  lemma {:induction false} ValuesLength(script: seq<Arrival>)
    requires AllValues(script)
    ensures |Values(script)| == |script|
  {
    if script != [] {
      assert AllValues(script[1..]);
      ValuesLength(script[1..]);
    }
  }

  /** One emission of the pool: from which connection, what, and when. */
  datatype Entry = Entry(id: nat, value: Received, time: nat)

  /** What the pool has emitted for one connection. */
  function Projection(log: seq<Entry>, id: nat): seq<Received> {
    if log == [] then []
    else Projection(log[..|log| - 1], id) + if log[|log| - 1].id == id then [log[|log| - 1].value] else []
  }

  /** When the pool last emitted something for one connection. */
  function LastTime(log: seq<Entry>, id: nat): Option<nat> {
    if log == [] then None
    else if log[|log| - 1].id == id then Some(log[|log| - 1].time)
    else LastTime(log[..|log| - 1], id)
  }

  lemma LogSnoc(log: seq<Entry>, e: Entry, id: nat)
    ensures Projection(log + [e], id) == Projection(log, id) + if id == e.id then [e.value] else []
    ensures LastTime(log + [e], id) == if id == e.id then Some(e.time) else LastTime(log, id)
  {
    assert (log + [e])[..|log|] == log;
  }

  /** A connection: what its protocol stream will yield and when, how much of that has been yielded,
      and since when the keep-alive is running: when it was opened or last yielded something. */
  datatype Conn = Conn(script: seq<Arrival>, keepAlive: nat, next: nat, since: nat) {
    predicate HasItem(now: nat) {
      next < |script| && script[next].at <= now
    }

    predicate IsReady(now: nat) {
      HasItem(now) || now >= since + keepAlive
    }

    /** An item that is ready wins over the timeout, and restarts it. */
    function Polled(now: nat): (Conn, Poll) {
      if HasItem(now) then (this.(next := next + 1, since := now), Ready(script[next].item))
      else (this, if now >= since + keepAlive then Ready(Closed) else Pending)
    }
  }

  function NewConn(script: seq<Arrival>, keepAlive: nat, now: nat): Conn {
    Conn(script, keepAlive, 0, now)
  }

  /** The wrapper around a protocol stream that closes it when nothing has come for the
      keep-alive since it was opened or last yielded something. */
  class TimeoutStream {
    const keepAlive: nat
    const script: seq<Arrival>
    var next: nat
    var deadline: nat
    ghost var since: nat

    constructor (script: seq<Arrival>, keepAlive: nat, now: nat)
      ensures Snapshot() == NewConn(script, keepAlive, now) && Valid()
    {
      this.script, this.keepAlive := script, keepAlive;
      next, deadline, since := 0, now + keepAlive, now;
    }

    ghost predicate Valid()
      reads this
    {
      deadline == since + keepAlive
    }

    ghost function Snapshot(): Conn
      reads this
    {
      Conn(script, keepAlive, next, since)
    }

    method PollNext(now: nat) returns (p: Poll)
      requires Valid()
      modifies this
      ensures Valid()
      ensures (Snapshot(), p) == old(Snapshot()).Polled(now)
      ensures if old(Snapshot()).HasItem(now) then since == now && p == Ready(script[old(next)].item)
        else since == old(since) && p == if now >= since + keepAlive then Ready(Closed) else Pending
    {
      if next < |script| && script[next].at <= now {
        p := Ready(script[next].item);
        next := next + 1;
        deadline := now + keepAlive;
        since := now;
      } else if deadline <= now {
        p := Ready(Closed);
      } else {
        p := Pending;
      }
    }
  }

  type Incoming = seq<Option<seq<Arrival>>>

  /** What polling for new connections gives, one poll after the other: a connection, or nothing yet;
      and then the end, or nothing ever. And the limits of the pool. */
  datatype Plan = Plan(incoming: Incoming, endless: bool, max: nat, keepAlive: nat)

  /** How a connection was when it timed out, and when that was. */
  datatype Expiry = Expiry(conn: Conn, time: nat)

  /** The pool: how many of the incoming have been polled and whether their end has been seen, the
      connections held by their place among the incoming, how many have been accepted and dropped,
      when each was accepted, what has been emitted, and which connections have timed out. */
  datatype State = State(at: nat, done: bool, connections: map<nat, Conn>, accepted: nat, dropped: nat,
                         joined: map<nat, nat>, log: seq<Entry>, expired: map<nat, Expiry>)

  const INITIAL := State(0, false, map[], 0, 0, map[], [], map[])

  /** Emissions name the connection they come from, which the pool itself does not report. */
  datatype Emission = Emitted(source: nat, value: Received) | Finished | Waiting

  // The steps of the pool.

  function AcceptOne(plan: Plan, s: State, now: nat): State
    requires s.at < |plan.incoming| && plan.incoming[s.at].Some?
  {
    var conn := NewConn(plan.incoming[s.at].value, plan.keepAlive, now);
    s.(at := s.at + 1, connections := s.connections[s.at := conn], accepted := s.accepted + 1,
       joined := s.joined[s.at := now])
  }

  /** Accepts until the pool is full, the incoming end, or none is waiting. */
  function Filled(plan: Plan, s: State, now: nat): State
    decreases |plan.incoming| - s.at
  {
    if |s.connections| >= plan.max then s
    else if s.done || s.at >= |plan.incoming| then s.(done := s.done || !plan.endless)
    else if plan.incoming[s.at].None? then s.(at := s.at + 1)
    else Filled(plan, AcceptOne(plan, s, now), now)
  }

  /** Polls one connection: a value is emitted and the connection goes back, or it is dropped. */
  function Taken(s: State, id: nat, now: nat): (State, Option<Received>)
    requires id in s.connections
  {
    var conn := s.connections[id];
    var (next, poll) := conn.Polled(now);
    if poll.Ready? && poll.item.Value? then
      (s.(connections := s.connections[id := next], log := s.log + [Entry(id, poll.item.value, now)]),
       Some(poll.item.value))
    else
      (s.(connections := s.connections - {id}, dropped := s.dropped + 1,
          expired := if conn.HasItem(now) then s.expired else s.expired[id := Expiry(conn, now)]),
       None)
  }

  predicate PickReady(s: State, id: nat, now: nat) {
    id in s.connections && s.connections[id].IsReady(now)
  }

  /** The picked connections are ready in turn, and each of them is dropped. */
  predicate AllDrop(plan: Plan, s: State, now: nat, picks: seq<nat>) {
    picks == []
    || (AllDrop(plan, s, now, picks[..|picks| - 1])
        && var f := Filled(plan, AfterDrops(plan, s, now, picks[..|picks| - 1]), now);
        PickReady(f, picks[|picks| - 1], now) && Taken(f, picks[|picks| - 1], now).1.None?)
  }

  function AfterDrops(plan: Plan, s: State, now: nat, picks: seq<nat>): State {
    if picks == [] then s
    else
      var f := Filled(plan, AfterDrops(plan, s, now, picks[..|picks| - 1]), now);
      if picks[|picks| - 1] in f.connections then Taken(f, picks[|picks| - 1], now).0 else f
  }

  ghost predicate NothingReady(s: State, now: nat) {
    forall id :: id in s.connections ==> !s.connections[id].IsReady(now)
  }

  /** One poll of the pool: it drops the connections `picks`, filling up before each, and then emits
      from a ready connection or stops. An eager queue stops only when no connection is ready. */
  ghost predicate PollsBy(plan: Plan, s: State, now: nat, eager: bool, picks: seq<nat>, e: Emission, t: State) {
    && AllDrop(plan, s, now, picks)
    && var f := Filled(plan, AfterDrops(plan, s, now, picks), now);
    match e
    case Emitted(id, v) => PickReady(f, id, now) && Taken(f, id, now) == (t, Some(v))
    case _ => t == f && (eager ==> NothingReady(f, now)) && e == if f.done then Finished else Waiting
  }

  ghost predicate Polls(plan: Plan, s: State, now: nat, eager: bool, e: Emission, t: State) {
    exists picks :: PollsBy(plan, s, now, eager, picks, e, t)
  }

  // What every reachable state keeps.

  /** What the connection at a place could emit at most. */
  function Budget(plan: Plan, id: nat): seq<Received> {
    if id < |plan.incoming| && plan.incoming[id].Some? then Values(plan.incoming[id].value) else []
  }

  /** Connection `id` has been polled for exactly what it has emitted, and its keep-alive has been
      running since the last emission, which came no earlier than the item, or since it was accepted. */
  ghost predicate Pooled(plan: Plan, s: State, id: nat, c: Conn) {
    && c.next <= |c.script| && id < s.at <= |plan.incoming| && plan.incoming[id] == Some(c.script)
    && c.keepAlive == plan.keepAlive
    && AllValues(c.script[..c.next]) && Projection(s.log, id) == Values(c.script[..c.next])
    && (if c.next > 0 then LastTime(s.log, id) == Some(c.since) && c.script[c.next - 1].at <= c.since
        else id in s.joined && s.joined[id] == c.since)
  }

  /** A connection that timed out had no item then, and a keep-alive had passed without one. */
  ghost predicate TimedOut(plan: Plan, s: State, id: nat, x: Expiry) {
    && id !in s.connections && Pooled(plan, s, id, x.conn)
    && !x.conn.HasItem(x.time) && x.time >= x.conn.since + plan.keepAlive
  }

  /** No connection emits more than its values before its first error or close. One that is neither
      pooled nor still to come has emitted all of them, unless it timed out. */
  ghost predicate Accounted(plan: Plan, s: State, id: nat) {
    && Projection(s.log, id) <= Budget(plan, id)
    && (id >= s.at ==> Projection(s.log, id) == [])
    && (id < s.at && id !in s.connections && id !in s.expired ==> Projection(s.log, id) == Budget(plan, id))
  }

  ghost predicate Counts(plan: Plan, s: State) {
    && s.at <= |plan.incoming| && (s.done ==> !plan.endless && s.at == |plan.incoming|)
    && |s.connections| <= plan.max && s.accepted == |s.connections| + s.dropped
  }

  ghost predicate Inv(plan: Plan, s: State) {
    && Counts(plan, s)
    && (forall id :: id in s.connections ==> Pooled(plan, s, id, s.connections[id]))
    && (forall id :: id in s.expired ==> TimedOut(plan, s, id, s.expired[id]))
    && (forall id: nat :: Accounted(plan, s, id))
  }

  /** The later state has the same log and more of the incoming. */
  ghost predicate Extends(plan: Plan, s: State, t: State) {
    && t.log == s.log && s.at <= t.at <= |plan.incoming|
    && forall id :: id < s.at && id in s.joined ==> id in t.joined && t.joined[id] == s.joined[id]
  }

  lemma PooledStays(plan: Plan, s: State, t: State, id: nat, c: Conn)
    requires Extends(plan, s, t) && Pooled(plan, s, id, c)
    ensures Pooled(plan, t, id, c)
  {
  }

  lemma TimedOutStays(plan: Plan, s: State, t: State, id: nat, x: Expiry)
    requires Extends(plan, s, t) && TimedOut(plan, s, id, x) && id !in t.connections
    ensures TimedOut(plan, t, id, x)
  {
    hide Pooled, Extends;
    PooledStays(plan, s, t, id, x.conn);
  }

  lemma AccountedStays(plan: Plan, s: State, t: State, id: nat)
    requires Extends(plan, s, t) && Accounted(plan, s, id)
    requires id < t.at && id !in t.connections && id !in t.expired ==>
      (id < s.at && id !in s.connections && id !in s.expired) || Projection(t.log, id) == Budget(plan, id)
    ensures Accounted(plan, t, id)
  {
    hide Projection, Budget;
  }

  /** Only the log, the times of acceptance and the position of the incoming matter to a connection's account. */
  lemma InvInherits(plan: Plan, s: State, t: State)
    requires Inv(plan, s) && Counts(plan, t) && Extends(plan, s, t)
    requires forall id :: id in t.connections ==>
      (id in s.connections && t.connections[id] == s.connections[id]) || Pooled(plan, t, id, t.connections[id])
    requires forall id :: id in t.expired ==>
      (id in s.expired && t.expired[id] == s.expired[id] && id !in t.connections)
      || TimedOut(plan, t, id, t.expired[id])
    requires forall id: nat :: id < t.at && id !in t.connections && id !in t.expired ==>
      (id < s.at && id !in s.connections && id !in s.expired) || Projection(t.log, id) == Budget(plan, id)
    ensures Inv(plan, t)
  {
    hide Pooled, TimedOut, Accounted, Counts, Extends, Projection, Budget;
    forall id | id in t.connections
      ensures Pooled(plan, t, id, t.connections[id])
    {
      if !Pooled(plan, t, id, t.connections[id]) {
        PooledStays(plan, s, t, id, s.connections[id]);
      }
    }
    forall id | id in t.expired
      ensures TimedOut(plan, t, id, t.expired[id])
    {
      if !TimedOut(plan, t, id, t.expired[id]) {
        TimedOutStays(plan, s, t, id, s.expired[id]);
      }
    }
    forall id: nat
      ensures Accounted(plan, t, id)
    {
      AccountedStays(plan, s, t, id);
    }
  }

  lemma MapGrows(m: map<nat, Conn>, id: nat, c: Conn)
    ensures |m[id := c]| == if id in m then |m| else |m| + 1
  {
    assert m[id := c].Keys == m.Keys + {id};
    assert |m[id := c]| == |m[id := c].Keys| && |m| == |m.Keys|;
  }

  lemma AcceptPooled(plan: Plan, s: State, now: nat)
    requires Inv(plan, s) && s.at < |plan.incoming| && plan.incoming[s.at].Some?
    ensures var t := AcceptOne(plan, s, now);
      s.at !in s.connections && s.at !in s.expired && Pooled(plan, t, s.at, t.connections[s.at])
  {
    assert s.at in s.connections ==> Pooled(plan, s, s.at, s.connections[s.at]);
    assert s.at in s.expired ==> TimedOut(plan, s, s.at, s.expired[s.at]);
    assert Accounted(plan, s, s.at);
    assert plan.incoming[s.at].value[..0] == [];
  }

  lemma AcceptInv(plan: Plan, s: State, now: nat)
    requires Inv(plan, s) && |s.connections| < plan.max
    requires s.at < |plan.incoming| && plan.incoming[s.at].Some? && !s.done
    ensures Inv(plan, AcceptOne(plan, s, now))
  {
    hide Pooled, TimedOut, Accounted;
    var t := AcceptOne(plan, s, now);
    AcceptPooled(plan, s, now);
    MapGrows(s.connections, s.at, t.connections[s.at]);
    ExpiredApart(plan, s);
    InvInherits(plan, s, t);
  }

  lemma NothingToCome(plan: Plan, s: State)
    requires Inv(plan, s) && s.at < |plan.incoming| && plan.incoming[s.at].None?
    ensures Projection(s.log, s.at) == Budget(plan, s.at)
  {
    assert Accounted(plan, s, s.at);
  }

  lemma PauseInv(plan: Plan, s: State)
    requires Inv(plan, s) && s.at < |plan.incoming| && plan.incoming[s.at].None? && !s.done
    ensures Inv(plan, s.(at := s.at + 1))
  {
    hide Pooled, TimedOut, Accounted;
    ExpiredApart(plan, s);
    NothingToCome(plan, s);
    InvInherits(plan, s, s.(at := s.at + 1));
  }

  lemma EndSeenInv(plan: Plan, s: State)
    requires Inv(plan, s) && (s.done || s.at >= |plan.incoming|)
    ensures Inv(plan, s.(done := s.done || !plan.endless))
  {
    hide Pooled, TimedOut, Accounted;
    ExpiredApart(plan, s);
    InvInherits(plan, s, s.(done := s.done || !plan.endless));
  }

  lemma {:induction false} FilledInv(plan: Plan, s: State, now: nat)
    requires Inv(plan, s)
    ensures Inv(plan, Filled(plan, s, now))
    decreases |plan.incoming| - s.at
  {
    hide Inv, Counts;
    InvBound(plan, s);
    if |s.connections| >= plan.max {
    } else if s.done || s.at >= |plan.incoming| {
      EndSeenInv(plan, s);
    } else if plan.incoming[s.at].None? {
      PauseInv(plan, s);
    } else {
      AcceptInv(plan, s, now);
      FilledInv(plan, AcceptOne(plan, s, now), now);
    }
  }

  /** Between `s` and `t` exactly the incoming connections that come before the first poll that gives none have
      been added, each with its keep-alive running from now. */
  ghost predicate Added(plan: Plan, s: State, t: State, now: nat) {
    && s.at <= t.at <= |plan.incoming|
    && (forall j :: s.at <= j < t.at - 1 ==> plan.incoming[j].Some?)
    && (forall id :: id in s.connections ==> id in t.connections && t.connections[id] == s.connections[id])
    && (forall id :: id in t.connections && id !in s.connections ==> s.at <= id < t.at)
    && (forall id :: s.at <= id < t.at && plan.incoming[id].Some? ==>
          id in t.connections && t.connections[id] == Conn(plan.incoming[id].value, plan.keepAlive, 0, now))
    && (forall id :: s.at <= id < t.at && plan.incoming[id].None? ==> id !in t.connections)
  }

  /** It has stopped because the pool is full, no connection is waiting, or all have come. */
  predicate FillStops(plan: Plan, s: State, t: State) {
    if |s.connections| >= plan.max || s.done then t.at == s.at
    else |t.connections| == plan.max || t.at == |plan.incoming|
         || (s.at < t.at < |plan.incoming| && plan.incoming[t.at - 1].None?)
  }

  lemma AddedOne(plan: Plan, s: State, now: nat, t: State)
    requires s.at < |plan.incoming| && plan.incoming[s.at].Some?
    requires forall id :: id in s.connections ==> id < s.at
    requires Added(plan, AcceptOne(plan, s, now), t, now)
    ensures Added(plan, s, t, now)
  {
    var next := AcceptOne(plan, s, now);
    assert forall id :: id in s.connections ==> id in next.connections && next.connections[id] == s.connections[id];
    assert s.at in next.connections && s.at in t.connections;
  }

  lemma AddedNone(plan: Plan, s: State, now: nat, at: nat, done: bool)
    requires s.at <= |plan.incoming| && forall id :: id in s.connections ==> id < s.at
    requires at == s.at || (at == s.at + 1 <= |plan.incoming| && plan.incoming[s.at].None?)
    ensures Added(plan, s, s.(at := at, done := done), now)
  {
  }

  lemma {:induction false} FilledAdds(plan: Plan, s: State, now: nat)
    requires s.at <= |plan.incoming| && forall id :: id in s.connections ==> id < s.at
    ensures Added(plan, s, Filled(plan, s, now), now)
    decreases |plan.incoming| - s.at
  {
    hide Added, Filled;
    FillsOn(plan, s, now);
    if |s.connections| >= plan.max {
      AddedNone(plan, s, now, s.at, s.done);
    } else if s.done || s.at >= |plan.incoming| {
      AddedNone(plan, s, now, s.at, s.done || !plan.endless);
    } else if plan.incoming[s.at].None? {
      AddedNone(plan, s, now, s.at + 1, s.done);
    } else {
      FilledAdds(plan, AcceptOne(plan, s, now), now);
      AddedOne(plan, s, now, Filled(plan, s, now));
    }
  }

  lemma {:induction false} FilledStops(plan: Plan, s: State, now: nat)
    requires s.at <= |plan.incoming| && forall id :: id in s.connections ==> id < s.at
    ensures FillStops(plan, s, Filled(plan, s, now))
    decreases |plan.incoming| - s.at
  {
    hide Filled;
    FillsOn(plan, s, now);
    if |s.connections| < plan.max && !s.done && s.at < |plan.incoming| && plan.incoming[s.at].Some? {
      var next := AcceptOne(plan, s, now);
      MapGrows(s.connections, s.at, next.connections[s.at]);
      FillsOn(plan, next, now);
      FilledStops(plan, next, now);
      FilledAdds(plan, next, now);
    }
  }

  /** What filling up adds, and when it stops. */
  lemma FilledMeaning(plan: Plan, s: State, now: nat)
    requires Inv(plan, s)
    ensures Added(plan, s, Filled(plan, s, now), now) && FillStops(plan, s, Filled(plan, s, now))
  {
    hide Added, Filled, FillStops;
    assert forall id :: id in s.connections ==> Pooled(plan, s, id, s.connections[id]);
    FilledAdds(plan, s, now);
    FilledStops(plan, s, now);
  }

  /** Emitting a value for `id` keeps the account of every pooled connection. */
  lemma EmitPooled(plan: Plan, s: State, id: nat, now: nat, other: nat)
    requires Inv(plan, s) && PickReady(s, id, now) && Taken(s, id, now).1.Some? && other in s.connections
    ensures Pooled(plan, Taken(s, id, now).0, other, Taken(s, id, now).0.connections[other])
  {
    var c, v := s.connections[id], Taken(s, id, now).1.value;
    assert Pooled(plan, s, id, c) && Pooled(plan, s, other, s.connections[other]);
    LogSnoc(s.log, Entry(id, v, now), other);
    ValuesSnoc(c.script, c.next);
  }

  lemma EmitShape(s: State, id: nat, now: nat)
    requires PickReady(s, id, now) && Taken(s, id, now).1.Some?
    ensures var c, (t, v) := s.connections[id], Taken(s, id, now);
      && c.HasItem(now) && c.script[c.next].item == Value(v.value)
      && t == s.(connections := s.connections[id := c.(next := c.next + 1, since := now)],
                 log := s.log + [Entry(id, v.value, now)])
  {
  }

  lemma EmitAccounted(plan: Plan, s: State, id: nat, now: nat, other: nat)
    requires PickReady(s, id, now) && Taken(s, id, now).1.Some?
    requires Pooled(plan, s, id, s.connections[id]) && Accounted(plan, s, other)
    ensures Accounted(plan, Taken(s, id, now).0, other)
  {
    hide Taken, LastTime, Values, Projection;
    var c, v := s.connections[id], Taken(s, id, now).1.value;
    EmitShape(s, id, now);
    LogSnoc(s.log, Entry(id, v, now), other);
    if other == id {
      OneMoreValue(c.script, c.next);
    } else {
      assert Projection(s.log, other) + [] == Projection(s.log, other);
    }
  }

  lemma OneMoreValue(script: seq<Arrival>, n: nat)
    requires n < |script| && AllValues(script[..n]) && script[n].item.Value?
    ensures Values(script[..n]) + [script[n].item.value] <= Values(script)
  {
    ValuesSnoc(script, n);
    ValuesSplit(script, n + 1);
  }

  lemma EmitExpired(plan: Plan, s: State, id: nat, now: nat, other: nat)
    requires PickReady(s, id, now) && Taken(s, id, now).1.Some?
    requires other in s.expired && TimedOut(plan, s, other, s.expired[other])
    ensures TimedOut(plan, Taken(s, id, now).0, other, s.expired[other])
  {
    hide Taken;
    EmitShape(s, id, now);
    LogSnoc(s.log, Entry(id, Taken(s, id, now).1.value, now), other);
  }

  /** Emitting a value and putting its connection back keeps every account. */
  lemma EmitInv(plan: Plan, s: State, id: nat, now: nat)
    requires Inv(plan, s) && PickReady(s, id, now) && Taken(s, id, now).1.Some?
    ensures Inv(plan, Taken(s, id, now).0)
  {
    hide Pooled, TimedOut, Accounted;
    var t := Taken(s, id, now).0;
    MapGrows(s.connections, id, t.connections[id]);
    forall other | other in t.connections
      ensures Pooled(plan, t, other, t.connections[other])
    {
      EmitPooled(plan, s, id, now, other);
    }
    forall other: nat
      ensures Accounted(plan, t, other)
    {
      assert Pooled(plan, s, id, s.connections[id]) && Accounted(plan, s, other);
      EmitAccounted(plan, s, id, now, other);
    }
    forall other | other in t.expired
      ensures TimedOut(plan, t, other, t.expired[other])
    {
      assert TimedOut(plan, s, other, s.expired[other]);
      EmitExpired(plan, s, id, now, other);
    }
  }

  /** A connection that is dropped with an item has yielded an error or its end, and is settled. */
  lemma DroppedSettled(plan: Plan, s: State, id: nat, now: nat)
    requires Inv(plan, s) && id in s.connections && s.connections[id].HasItem(now)
    requires Taken(s, id, now).1.None?
    ensures Projection(s.log, id) == Budget(plan, id)
  {
    assert Pooled(plan, s, id, s.connections[id]);
    ValuesStop(s.connections[id].script, s.connections[id].next);
  }

  lemma DroppedExpired(plan: Plan, s: State, t: State, id: nat, now: nat)
    requires Inv(plan, s) && PickReady(s, id, now) && !s.connections[id].HasItem(now)
    requires Extends(plan, s, t) && id !in t.connections
    ensures TimedOut(plan, t, id, Expiry(s.connections[id], now))
  {
    hide Extends, Projection, LastTime, Values, Accounted;
    assert Pooled(plan, s, id, s.connections[id]);
    PooledStays(plan, s, t, id, s.connections[id]);
  }

  /** Dropping a connection keeps every other account; its own is settled, or it timed out. */
  lemma DropInv(plan: Plan, s: State, id: nat, now: nat)
    requires Inv(plan, s) && PickReady(s, id, now) && Taken(s, id, now).1.None?
    ensures Inv(plan, Taken(s, id, now).0)
  {
    hide Pooled, TimedOut, Accounted, Budget, Projection, Values;
    var t := Taken(s, id, now).0;
    RemoveOne(s.connections, id);
    if s.connections[id].HasItem(now) {
      DroppedSettled(plan, s, id, now);
    } else {
      DroppedExpired(plan, s, t, id, now);
    }
    ExpiredApart(plan, s);
    InvInherits(plan, s, t);
  }

  lemma ExpiredApart(plan: Plan, s: State)
    requires Inv(plan, s)
    ensures forall id :: id in s.expired ==> id !in s.connections
  {
    assert forall id :: id in s.expired ==> TimedOut(plan, s, id, s.expired[id]);
  }

  lemma {:induction false} AfterDropsInv(plan: Plan, s: State, now: nat, picks: seq<nat>)
    requires Inv(plan, s) && AllDrop(plan, s, now, picks)
    ensures Inv(plan, AfterDrops(plan, s, now, picks))
    ensures AfterDrops(plan, s, now, picks).log == s.log
  {
    if picks != [] {
      var before := picks[..|picks| - 1];
      AfterDropsInv(plan, s, now, before);
      var d := AfterDrops(plan, s, now, before);
      FilledInv(plan, d, now);
      FilledKeeps(plan, d, now);
      DropInv(plan, Filled(plan, d, now), picks[|picks| - 1], now);
    }
  }

  /** Filling up emits nothing, drops nothing, and stops only for a reason. */
  lemma {:induction false} FilledKeeps(plan: Plan, s: State, now: nat)
    requires s.at <= |plan.incoming|
    ensures var t := Filled(plan, s, now);
      && t.log == s.log && t.expired == s.expired && t.dropped == s.dropped && t.at >= s.at
      && (t.at == s.at ==> t.connections == s.connections)
      && (s.done ==> t.done) && (t.done ==> s.done || !plan.endless)
      && Topped(plan, t)
    decreases |plan.incoming| - s.at
  {
    if |s.connections| < plan.max && !s.done && s.at < |plan.incoming| && plan.incoming[s.at].Some? {
      FilledKeeps(plan, AcceptOne(plan, s, now), now);
    }
  }

  /** No more connections can be accepted: the pool is full, or the incoming give none. */
  predicate Topped(plan: Plan, s: State) {
    || |s.connections| >= plan.max
    || s.done
    || s.at == |plan.incoming|
    || (0 < s.at < |plan.incoming| && plan.incoming[s.at - 1].None?)
  }

  /** Every poll keeps the invariant. */
  lemma PollsInv(plan: Plan, s: State, now: nat, eager: bool, e: Emission, t: State)
    requires Inv(plan, s) && Polls(plan, s, now, eager, e, t)
    ensures Inv(plan, t)
  {
    var picks :| PollsBy(plan, s, now, eager, picks, e, t);
    AfterDropsInv(plan, s, now, picks);
    var d := AfterDrops(plan, s, now, picks);
    FilledInv(plan, d, now);
    if e.Emitted? {
      EmitInv(plan, Filled(plan, d, now), e.source, now);
    }
  }

  /** What is emitted is the next value of a connection, which had arrived; without an emission
      the log stays, no more connections can be accepted, and an eager queue has none ready. */
  lemma PollsEmit(plan: Plan, s: State, now: nat, eager: bool, e: Emission, t: State)
    requires Inv(plan, s) && Polls(plan, s, now, eager, e, t)
    ensures e.Emitted? ==>
      var n := |Projection(s.log, e.source)|;
      && t.log == s.log + [Entry(e.source, e.value, now)]
      && e.source < |plan.incoming| && plan.incoming[e.source].Some?
      && n < |plan.incoming[e.source].value|
      && plan.incoming[e.source].value[n].at <= now
      && plan.incoming[e.source].value[n].item == Value(e.value)
    ensures !e.Emitted? ==>
      t.log == s.log && Topped(plan, t) && (e.Finished? <==> t.done) && (eager ==> NothingReady(t, now))
  {
    hide AllDrop, AfterDrops, Inv, Taken, PickReady, Projection;
    var picks :| PollsBy(plan, s, now, eager, picks, e, t);
    AfterDropsInv(plan, s, now, picks);
    var d := AfterDrops(plan, s, now, picks);
    FilledInv(plan, d, now);
    InvBound(plan, d);
    FilledKeeps(plan, d, now);
    if e.Emitted? {
      NextArrived(plan, Filled(plan, d, now), e.source, now);
    }
  }

  /** What is taken from a ready connection is the next item of its script. */
  lemma NextArrived(plan: Plan, s: State, id: nat, now: nat)
    requires Inv(plan, s) && PickReady(s, id, now) && Taken(s, id, now).1.Some?
    ensures var n, (t, v) := |Projection(s.log, id)|, Taken(s, id, now);
      && t.log == s.log + [Entry(id, v.value, now)]
      && id < |plan.incoming| && plan.incoming[id].Some? && n < |plan.incoming[id].value|
      && plan.incoming[id].value[n].at <= now && plan.incoming[id].value[n].item == Value(v.value)
  {
    var c := s.connections[id];
    assert Pooled(plan, s, id, c);
    ValuesLength(c.script[..c.next]);
  }

  // The end.

  /** The connections that are not ready. */
  function Idle(s: State, now: nat): map<nat, Conn> {
    map id | id in s.connections && !s.connections[id].IsReady(now) :: s.connections[id]
  }

  /** Once all incoming have been polled, an eager poll without a value leaves the connections that were not
      ready. It reports the end exactly when the end has been seen before, or there is one and these do not
      fill the pool; whether there are any does not matter. */
  lemma FinishedIff(plan: Plan, s: State, now: nat, e: Emission, t: State)
    requires Inv(plan, s) && s.at == |plan.incoming|
    requires Polls(plan, s, now, true, e, t) && !e.Emitted?
    ensures t.connections == Idle(s, now)
    ensures e.Finished? <==> s.done || (!plan.endless && |Idle(s, now)| < plan.max)
  {
    hide AllDrop, AfterDrops, Inv, Idle;
    var picks :| PollsBy(plan, s, now, true, picks, e, t);
    DropsAtEnd(plan, s, now, picks);
    DropsKeepIdle(plan, s, now, picks);
    OnlyIdle(s, t, now);
  }

  lemma OnlyIdle(s: State, t: State, now: nat)
    requires forall id :: id in t.connections ==> id in s.connections && t.connections[id] == s.connections[id]
    requires forall id :: id in Idle(s, now) ==> id in t.connections
    requires NothingReady(t, now)
    ensures t.connections == Idle(s, now)
  {
  }

  /** If the incoming do not end, as those of a listening socket, the pool does not either. */
  lemma EndlessNeverFinishes(plan: Plan, s: State, now: nat, eager: bool, e: Emission, t: State)
    requires Inv(plan, s) && Polls(plan, s, now, eager, e, t)
    ensures plan.endless ==> !e.Finished?
  {
    PollsInv(plan, s, now, eager, e, t);
    PollsEmit(plan, s, now, eager, e, t);
  }

  /** At the end of the incoming, drops leave all that is not ready, and nothing new. */
  lemma {:induction false} DropsKeepIdle(plan: Plan, s: State, now: nat, picks: seq<nat>)
    requires s.at == |plan.incoming| && AllDrop(plan, s, now, picks)
    ensures var d := AfterDrops(plan, s, now, picks);
      && (forall id :: id in d.connections ==> id in s.connections && d.connections[id] == s.connections[id])
      && (forall id :: id in Idle(s, now) ==> id in d.connections)
  {
    if picks != [] {
      var before, id := picks[..|picks| - 1], picks[|picks| - 1];
      DropsAtEnd(plan, s, now, before);
      DropsKeepIdle(plan, s, now, before);
      TakenShape(Filled(plan, AfterDrops(plan, s, now, before), now), id, now);
    }
  }

  lemma {:induction false} DropsAtEnd(plan: Plan, s: State, now: nat, picks: seq<nat>)
    requires s.at == |plan.incoming| && AllDrop(plan, s, now, picks)
    ensures var d := AfterDrops(plan, s, now, picks);
      d.at == s.at && (d.done ==> s.done || (!plan.endless && |d.connections| < plan.max)) && (s.done ==> d.done)
  {
    if picks != [] {
      var before, id := picks[..|picks| - 1], picks[|picks| - 1];
      DropsAtEnd(plan, s, now, before);
      var f := Filled(plan, AfterDrops(plan, s, now, before), now);
      RemoveOne(f.connections, id);
    }
  }

  /** If nothing is ready after filling up, nothing is dropped. */
  lemma {:induction false} NoDropsFirst(plan: Plan, s: State, now: nat, picks: seq<nat>)
    requires AllDrop(plan, s, now, picks) && NothingReady(Filled(plan, s, now), now)
    ensures picks == []
  {
    if picks != [] {
      NoDropsFirst(plan, s, now, picks[..|picks| - 1]);
    }
  }

  lemma OneAccepted(plan: Plan, now: nat)
    requires |plan.incoming| == 1 && plan.incoming[0].Some? && plan.max > 0
    ensures var t := Filled(plan, INITIAL, now);
      && t.connections == map[0 := NewConn(plan.incoming[0].value, plan.keepAlive, now)]
      && t.log == [] && (t.done <==> !plan.endless && plan.max > 1)
  {
    var one := AcceptOne(plan, INITIAL, now);
    assert Filled(plan, INITIAL, now) == Filled(plan, one, now);
    MapGrows(INITIAL.connections, 0, NewConn(plan.incoming[0].value, plan.keepAlive, now));
  }

  /** A pool with one incoming connection that has nothing ready yet reports the end while it holds the
      connection, exactly when there is an end and room for another connection. */
  lemma EndsWhileHeld(plan: Plan, now: nat, eager: bool, e: Emission, t: State)
    requires |plan.incoming| == 1 && plan.incoming[0].Some? && plan.max > 0 && plan.keepAlive > 0
    requires plan.incoming[0].value != [] ==> plan.incoming[0].value[0].at > now
    requires Polls(plan, INITIAL, now, eager, e, t)
    ensures t.connections == map[0 := NewConn(plan.incoming[0].value, plan.keepAlive, now)]
    ensures e == if !plan.endless && plan.max > 1 then Finished else Waiting
  {
    hide Filled, Taken;
    var picks :| PollsBy(plan, INITIAL, now, eager, picks, e, t);
    OneAccepted(plan, now);
    NoDropsFirst(plan, INITIAL, now, picks);
  }

  lemma InitialInv(plan: Plan)
    ensures Inv(plan, INITIAL)
  {
  }

  // Runs.

  /** A run: the pool is polled at each of the times in turn. */
  ghost predicate IsRun(plan: Plan, times: seq<nat>, eager: bool, outcomes: seq<Emission>, states: seq<State>) {
    && |outcomes| == |times| && |states| == |times| + 1 && states[0] == INITIAL
    && forall k :: 0 <= k < |times| ==> Polls(plan, states[k], times[k], eager, outcomes[k], states[k + 1])
  }

  /** Keep-alives start and timeouts happen at poll times. */
  ghost predicate Clocked(s: State, past: seq<nat>) {
    && (forall id :: id in s.connections ==> s.connections[id].since in past)
    && (forall id :: id in s.expired ==> s.expired[id].time in past && s.expired[id].conn.since in past)
  }

  lemma {:induction false} FilledClocked(plan: Plan, s: State, now: nat, past: seq<nat>)
    requires Clocked(s, past) && now in past
    ensures Clocked(Filled(plan, s, now), past)
    decreases |plan.incoming| - s.at
  {
    if |s.connections| < plan.max && !s.done && s.at < |plan.incoming| && plan.incoming[s.at].Some? {
      FilledClocked(plan, AcceptOne(plan, s, now), now, past);
    }
  }

  lemma {:induction false} DropsClocked(plan: Plan, s: State, now: nat, picks: seq<nat>, past: seq<nat>)
    requires Clocked(s, past) && now in past
    ensures Clocked(AfterDrops(plan, s, now, picks), past)
  {
    if picks != [] {
      hide Clocked, Taken, Filled;
      var before, id := picks[..|picks| - 1], picks[|picks| - 1];
      var f := Filled(plan, AfterDrops(plan, s, now, before), now);
      DropsClocked(plan, s, now, before, past);
      FilledClocked(plan, AfterDrops(plan, s, now, before), now, past);
      if id in f.connections {
        TakenClocked(f, id, now, past);
      }
    }
  }

  lemma TakenClocked(s: State, id: nat, now: nat, past: seq<nat>)
    requires Clocked(s, past) && now in past && id in s.connections
    ensures Clocked(Taken(s, id, now).0, past)
  {
  }

  lemma PollsClocked(plan: Plan, s: State, now: nat, eager: bool, e: Emission, t: State, past: seq<nat>)
    requires Polls(plan, s, now, eager, e, t) && Clocked(s, past)
    ensures Clocked(t, past + [now])
  {
    hide Filled, Taken, AllDrop, AfterDrops;
    var picks :| PollsBy(plan, s, now, eager, picks, e, t);
    var d := AfterDrops(plan, s, now, picks);
    assert Clocked(s, past + [now]);
    DropsClocked(plan, s, now, picks, past + [now]);
    FilledClocked(plan, d, now, past + [now]);
    if e.Emitted? {
      TakenClocked(Filled(plan, d, now), e.source, now, past + [now]);
    }
  }

  /** From `s` to `t` only connections at new places have been accepted, and at the time `now`. */
  ghost predicate Joins(s: State, t: State, now: nat) {
    && s.at <= t.at
    && forall id :: id in t.joined ==>
         (id in s.joined && t.joined[id] == s.joined[id]) || (s.at <= id < t.at && t.joined[id] == now)
  }

  lemma {:induction false} FilledJoins(plan: Plan, s: State, now: nat)
    requires s.at <= |plan.incoming|
    ensures Joins(s, Filled(plan, s, now), now) && Filled(plan, s, now).at <= |plan.incoming|
    decreases |plan.incoming| - s.at
  {
    if |s.connections| < plan.max && !s.done && s.at < |plan.incoming| && plan.incoming[s.at].Some? {
      FilledJoins(plan, AcceptOne(plan, s, now), now);
    }
  }

  lemma TakenJoins(s: State, id: nat, now: nat)
    requires id in s.connections
    ensures Taken(s, id, now).0.at == s.at && Taken(s, id, now).0.joined == s.joined
  {
  }

  lemma {:induction false} DropsJoin(plan: Plan, s: State, now: nat, picks: seq<nat>)
    requires s.at <= |plan.incoming|
    ensures Joins(s, AfterDrops(plan, s, now, picks), now) && AfterDrops(plan, s, now, picks).at <= |plan.incoming|
  {
    if picks != [] {
      hide Taken, Filled;
      var before, id := picks[..|picks| - 1], picks[|picks| - 1];
      var f := Filled(plan, AfterDrops(plan, s, now, before), now);
      DropsJoin(plan, s, now, before);
      FilledJoins(plan, AfterDrops(plan, s, now, before), now);
      if id in f.connections {
        TakenJoins(f, id, now);
      }
    }
  }

  lemma PollsJoins(plan: Plan, s: State, now: nat, eager: bool, e: Emission, t: State)
    requires Polls(plan, s, now, eager, e, t) && s.at <= |plan.incoming|
    ensures Joins(s, t, now)
  {
    hide Taken, Filled, AllDrop, AfterDrops;
    var picks :| PollsBy(plan, s, now, eager, picks, e, t);
    DropsJoin(plan, s, now, picks);
    var d := AfterDrops(plan, s, now, picks);
    FilledJoins(plan, d, now);
    if e.Emitted? {
      TakenJoins(Filled(plan, d, now), e.source, now);
    }
  }

  /** Connection `id` was accepted at time `time`, by one of the first `k` polls. */
  ghost predicate AcceptedAt(times: seq<nat>, states: seq<State>, k: nat, id: nat, time: nat)
    requires k <= |times| < |states|
  {
    exists j :: 0 <= j < k && AcceptedBy(times, states, j, id, time)
  }

  predicate AcceptedBy(times: seq<nat>, states: seq<State>, j: nat, id: nat, time: nat)
    requires j < |times| < |states|
  {
    states[j].at <= id < states[j + 1].at && times[j] == time
  }

  /** What a state has recorded as the time of acceptance is that of the poll that accepted the connection. */
  lemma {:induction false} RunJoins(plan: Plan, times: seq<nat>, eager: bool, outcomes: seq<Emission>,
                                    states: seq<State>, k: nat, id: nat)
    requires IsRun(plan, times, eager, outcomes, states) && k <= |times| && id in states[k].joined
    ensures AcceptedAt(times, states, k, id, states[k].joined[id])
    decreases k
  {
    hide Polls, Inv, Clocked;
    if k > 0 {
      RunSafe(plan, times, eager, outcomes, states, k - 1);
      InvBound(plan, states[k - 1]);
      PollsJoins(plan, states[k - 1], times[k - 1], eager, outcomes[k - 1], states[k]);
      if id in states[k - 1].joined && states[k].joined[id] == states[k - 1].joined[id] {
        RunJoins(plan, times, eager, outcomes, states, k - 1, id);
      } else {
        assert AcceptedBy(times, states, k - 1, id, states[k].joined[id]);
      }
    }
  }

  lemma RunStart(plan: Plan, times: seq<nat>, eager: bool, outcomes: seq<Emission>, states: seq<State>)
    requires IsRun(plan, times, eager, outcomes, states)
    ensures Inv(plan, states[0]) && Clocked(states[0], times[..0])
  {
    InitialInv(plan);
  }

  lemma RunStep(plan: Plan, times: seq<nat>, eager: bool, outcomes: seq<Emission>, states: seq<State>, k: nat)
    requires IsRun(plan, times, eager, outcomes, states) && k < |times|
    requires Inv(plan, states[k]) && Clocked(states[k], times[..k])
    ensures Inv(plan, states[k + 1]) && Clocked(states[k + 1], times[..k + 1])
  {
    hide Polls, Inv, Clocked;
    PollsInv(plan, states[k], times[k], eager, outcomes[k], states[k + 1]);
    PollsClocked(plan, states[k], times[k], eager, outcomes[k], states[k + 1], times[..k]);
    assert times[..k + 1] == times[..k] + [times[k]];
  }

  /** In every state of every run the invariant holds, and each timeout happened at a poll, a keep-alive
      after the poll that accepted the connection or emitted its last value. */
  lemma {:induction false} RunSafe(plan: Plan, times: seq<nat>, eager: bool, outcomes: seq<Emission>,
                                   states: seq<State>, k: nat)
    requires IsRun(plan, times, eager, outcomes, states) && k <= |times|
    ensures Inv(plan, states[k]) && Clocked(states[k], times[..k])
    decreases k
  {
    hide *;
    if k == 0 {
      RunStart(plan, times, eager, outcomes, states);
    } else {
      RunSafe(plan, times, eager, outcomes, states, k - 1);
      RunStep(plan, times, eager, outcomes, states, k - 1);
    }
  }

  lemma RunNeverFinishes(plan: Plan, times: seq<nat>, eager: bool, outcomes: seq<Emission>,
                         states: seq<State>, k: nat)
    requires IsRun(plan, times, eager, outcomes, states) && plan.endless && k < |times|
    ensures !outcomes[k].Finished?
  {
    hide Polls, Inv, Clocked;
    RunSafe(plan, times, eager, outcomes, states, k);
    EndlessNeverFinishes(plan, states[k], times[k], eager, outcomes[k], states[k + 1]);
  }

  /** The emissions of a run and their times. */
  function Logged(times: seq<nat>, outcomes: seq<Emission>): seq<Entry>
    requires |times| == |outcomes|
  {
    if times == [] then []
    else
      var n := |times| - 1;
      Logged(times[..n], outcomes[..n])
      + match outcomes[n]
        case Emitted(id, v) => [Entry(id, v, times[n])]
        case _ => []
  }

  /** What a run has emitted is what its outcomes say, in order. */
  lemma {:induction false} RunLogs(plan: Plan, times: seq<nat>, eager: bool, outcomes: seq<Emission>,
                                   states: seq<State>, k: nat)
    requires IsRun(plan, times, eager, outcomes, states) && k <= |times|
    ensures states[k].log == Logged(times[..k], outcomes[..k])
    decreases k
  {
    hide Polls, Inv, Clocked, NothingReady, Topped;
    if k > 0 {
      RunLogs(plan, times, eager, outcomes, states, k - 1);
      RunSafe(plan, times, eager, outcomes, states, k - 1);
      PollsEmit(plan, states[k - 1], times[k - 1], eager, outcomes[k - 1], states[k]);
      assert times[..k][..k - 1] == times[..k - 1] && outcomes[..k][..k - 1] == outcomes[..k - 1];
    }
  }

  /** Connection `id` has nothing to offer at the time `now`: its next item has not arrived, and less than a
      keep-alive has passed since it was accepted, if it has emitted nothing, or since its last emission. */
  predicate InTime(plan: Plan, s: State, id: nat, now: nat) {
    var n := |Projection(s.log, id)|;
    && id < |plan.incoming| && plan.incoming[id].Some?
    && (n < |plan.incoming[id].value| ==> plan.incoming[id].value[n].at > now)
    && (if n == 0 then id in s.joined && now < s.joined[id] + plan.keepAlive
        else LastTime(s.log, id).Some? && now < LastTime(s.log, id).value + plan.keepAlive)
  }

  /** The connections that an eager poll leaves when it stops without a value: a silent one is not held
      once its keep-alive has run. */
  lemma HeldInTime(plan: Plan, s: State, id: nat, now: nat)
    requires Inv(plan, s) && NothingReady(s, now) && id in s.connections
    ensures InTime(plan, s, id, now)
  {
    var c := s.connections[id];
    assert Pooled(plan, s, id, c);
    ValuesLength(c.script[..c.next]);
  }

  lemma AllHeldInTime(plan: Plan, s: State, now: nat)
    requires Inv(plan, s) && NothingReady(s, now)
    ensures forall id :: id in s.connections ==> InTime(plan, s, id, now)
  {
    hide Inv, NothingReady, InTime;
    forall id | id in s.connections
      ensures InTime(plan, s, id, now)
    {
      HeldInTime(plan, s, id, now);
    }
  }

  /** The first `m` items of a script are values that have all arrived. */
  predicate Arrived(script: seq<Arrival>, m: nat, now: nat) {
    m <= |script| && forall k :: 0 <= k < m ==> script[k].item.Value? && script[k].at <= now
  }

  /** When an eager queue stops without a value, every held connection has emitted every run of
      values that has arrived. */
  lemma CaughtUp(plan: Plan, s: State, now: nat, id: nat, m: nat)
    requires Inv(plan, s) && NothingReady(s, now) && id in s.connections
    requires Arrived(s.connections[id].script, m, now)
    ensures Values(s.connections[id].script[..m]) <= Projection(s.log, id)
  {
    var c := s.connections[id];
    assert Pooled(plan, s, id, c) && !c.HasItem(now);
    assert m <= c.next;
    ValuesPrefix(c.script, m, c.next);
  }

  lemma ValuesPrefix(script: seq<Arrival>, m: nat, n: nat)
    requires m <= n <= |script| && AllValues(script[..n])
    ensures Values(script[..m]) <= Values(script[..n])
  {
    var longer := script[..n];
    assert longer[..m] == script[..m];
    ValuesSplit(longer, m);
  }

  lemma InvBound(plan: Plan, s: State)
    requires Inv(plan, s)
    ensures s.at <= |plan.incoming| && (s.done ==> s.at == |plan.incoming|)
  {
  }

  /** What a poll without a value leaves of the pool. */
  lemma TakenShape(s: State, id: nat, now: nat)
    requires id in s.connections
    ensures var t := Taken(s, id, now);
      t.1.None? ==> t.0.at == s.at && t.0.connections == s.connections - {id}
  {
  }

  /** One step of filling up. */
  lemma FillsOn(plan: Plan, s: State, now: nat)
    ensures |s.connections| >= plan.max ==> Filled(plan, s, now) == s
    ensures |s.connections| < plan.max && (s.done || s.at >= |plan.incoming|) ==>
      Filled(plan, s, now) == s.(done := s.done || !plan.endless)
    ensures |s.connections| < plan.max && !s.done && s.at < |plan.incoming| ==>
      Filled(plan, s, now)
      == if plan.incoming[s.at].None? then s.(at := s.at + 1) else Filled(plan, AcceptOne(plan, s, now), now)
  {
  }

  class Pool {
    const plan: Plan
    var at: nat
    var done: bool
    var connections: map<nat, Conn>
    var accepted: nat
    var dropped: nat
    ghost var joined: map<nat, nat>
    ghost var log: seq<Entry>
    ghost var expired: map<nat, Expiry>

    constructor (plan: Plan)
      ensures this.plan == plan && Snapshot() == INITIAL && Valid()
    {
      this.plan := plan;
      at, done, connections, accepted, dropped := 0, false, map[], 0, 0;
      joined, log, expired := map[], [], map[];
      new;
      InitialInv(plan);
    }

    ghost function Snapshot(): State
      reads this
    {
      State(at, done, connections, accepted, dropped, joined, log, expired)
    }

    ghost predicate Valid()
      reads this
    {
      Inv(plan, Snapshot())
    }

    /** Puts the next incoming connection into the pool. */
    method Hold(script: seq<Arrival>, now: nat)
      requires at < |plan.incoming| && plan.incoming[at] == Some(script)
      modifies this`at, this`connections, this`accepted, this`joined
      ensures Snapshot() == AcceptOne(plan, old(Snapshot()), now)
    {
      connections := connections[at := NewConn(script, plan.keepAlive, now)];
      joined := joined[at := now];
      at := at + 1;
      accepted := accepted + 1;
    }

    /** Accepts connections until the pool is full or none is waiting. */
    method Fill(now: nat)
      modifies this`at, this`done, this`connections, this`accepted, this`joined
      ensures Snapshot() == Filled(plan, old(Snapshot()), now)
    {
      hide Filled, NewConn;
      ghost var goal := Filled(plan, Snapshot(), now);
      FillsOn(plan, Snapshot(), now);
      while |connections| < plan.max
        invariant Filled(plan, Snapshot(), now) == goal
        invariant |connections| >= plan.max ==> Snapshot() == goal
        decreases |plan.incoming| - at
      {
        ghost var s := Snapshot();
        FillsOn(plan, s, now);
        if done || at >= |plan.incoming| {
          done := done || !plan.endless;
          assert Snapshot() == goal;
          break;
        }
        var polled := plan.incoming[at];
        if polled.None? {
          at := at + 1;
          assert Snapshot() == goal;
          break;
        }
        Hold(polled.value, now);
        FillsOn(plan, Snapshot(), now);
      }
    }

    /** Takes one connection out of the pool and polls it: its value is emitted
        and it goes back, or it is dropped. */
    method PollOne(id: nat, now: nat) returns (value: Option<Received>)
      requires id in connections
      modifies this`connections, this`dropped, this`log, this`expired
      ensures (Snapshot(), value) == Taken(old(Snapshot()), id, now)
    {
      var conn := connections[id];
      var (next, polled) := conn.Polled(now);
      if polled.Ready? && polled.item.Value? {
        log := log + [Entry(id, polled.item.value, now)];
        connections := connections[id := next];
        value := Some(polled.item.value);
      } else {
        connections := connections - {id};
        dropped := dropped + 1;
        if !conn.HasItem(now) {
          expired := expired[id := Expiry(conn, now)];
        }
        value := None;
      }
    }

    /** Any connection that is ready; a queue that is not eager may also make a pause. */
    method Pick(now: nat, eager: bool) returns (id: Option<nat>)
      ensures id.Some? ==> PickReady(Snapshot(), id.value, now)
      ensures id.None? && eager ==> NothingReady(Snapshot(), now)
    {
      var ready := set id | id in connections && connections[id].IsReady(now);
      var pause: bool := *;
      if ready == {} || (!eager && pause) {
        assert ready == {} ==> forall id :: id in connections && connections[id].IsReady(now) ==> id in ready;
        return None;
      }
      var any :| any in ready;
      return Some(any);
    }

    /** Fills up and polls one connection. An emission or a stop completes the poll that began in `s`;
        a dropped connection is one more of its `picks`. */
    method Turn(now: nat, eager: bool, ghost s: State, ghost picks: seq<nat>)
      returns (e: Option<Emission>, ghost dropped: nat)
      requires Valid() && AllDrop(plan, s, now, picks) && Snapshot() == AfterDrops(plan, s, now, picks)
      modifies this
      ensures e.Some? ==> PollsBy(plan, s, now, eager, picks, e.value, Snapshot())
      ensures e.None? ==>
        && Valid() && AllDrop(plan, s, now, picks + [dropped])
        && Snapshot() == AfterDrops(plan, s, now, picks + [dropped])
        && (at > old(at) || (at == old(at) && |connections| < old(|connections|)))
    {
      hide Inv, Filled, Taken;
      dropped := 0;
      InvBound(plan, Snapshot());
      FilledInv(plan, Snapshot(), now);
      FilledKeeps(plan, Snapshot(), now);
      Fill(now);
      var id := Pick(now, eager);
      if id.None? {
        return Some(if done then Finished else Waiting), 0;
      }
      RemoveOne(connections, id.value);
      ghost var filled := Snapshot();
      TakenShape(filled, id.value, now);
      var value := PollOne(id.value, now);
      if value.Some? {
        return Some(Emitted(id.value, value.value)), 0;
      }
      DropInv(plan, filled, id.value, now);
      assert (picks + [id.value])[..|picks|] == picks;
      return None, id.value;
    }

    /** Emits the next item, or reports that there is none, or that there will never be one. */
    method PollNext(now: nat, eager: bool) returns (e: Emission)
      requires Valid()
      modifies this
      ensures Valid()
      ensures Polls(plan, old(Snapshot()), now, eager, e, Snapshot())
    {
      hide Inv, AllDrop, AfterDrops, PollsBy;
      ghost var s, picks := Snapshot(), [];
      NoDropsYet(plan, s, now);
      while true
        invariant Valid() && AllDrop(plan, s, now, picks) && Snapshot() == AfterDrops(plan, s, now, picks)
        decreases |plan.incoming| - at, |connections|
      {
        InvBound(plan, Snapshot());
        var turn, dropped := Turn(now, eager, s, picks);
        if turn.Some? {
          e := turn.value;
          assert PollsBy(plan, s, now, eager, picks, e, Snapshot());
          break;
        }
        InvBound(plan, Snapshot());
        picks := picks + [dropped];
      }
      PollsInv(plan, s, now, eager, e, Snapshot());
    }
  }

  lemma NoDropsYet(plan: Plan, s: State, now: nat)
    ensures AllDrop(plan, s, now, []) && AfterDrops(plan, s, now, []) == s
  {
  }

  lemma PrefixesOnly(plan: Plan, s: State)
    requires Inv(plan, s)
    ensures forall id: nat :: Projection(s.log, id) <= Budget(plan, id)
  {
    forall id: nat
      ensures Projection(s.log, id) <= Budget(plan, id)
    {
      assert Accounted(plan, s, id);
    }
  }

  /** Polls a fresh pool at each of the times. What comes out is a run of the pool's steps, so of each
      connection it is a prefix of its values before its first error or close, whatever the others do;
      it is all of them once the connection has left without timing out. */
  method Serve(plan: Plan, times: seq<nat>, eager: bool)
    returns (outcomes: seq<Emission>, ghost states: seq<State>)
    ensures |outcomes| == |times|
    ensures forall id: nat :: Projection(Logged(times, outcomes), id) <= Budget(plan, id)
    ensures IsRun(plan, times, eager, outcomes, states)
    ensures Inv(plan, states[|times|]) && Clocked(states[|times|], times)
    ensures states[|times|].log == Logged(times, outcomes)
    ensures times != [] && eager && !outcomes[|times| - 1].Emitted? ==>
      NothingReady(states[|times|], times[|times| - 1]) && Topped(plan, states[|times|])
      && forall id :: id in states[|times|].connections ==> InTime(plan, states[|times|], id, times[|times| - 1])
  {
    hide Inv, Polls, Clocked, NothingReady, Topped, Logged, InTime;
    var pool := new Pool(plan);
    outcomes, states := [], [INITIAL];
    for i := 0 to |times|
      invariant fresh(pool) && pool.plan == plan && pool.Valid()
      invariant IsRun(plan, times[..i], eager, outcomes, states) && states[i] == pool.Snapshot()
    {
      var e := pool.PollNext(times[i], eager);
      RunGrows(plan, times[..i], eager, outcomes, states, times[i], e, pool.Snapshot());
      assert times[..i + 1] == times[..i] + [times[i]];
      outcomes, states := outcomes + [e], states + [pool.Snapshot()];
    }
    assert times[..|times|] == times;
    RunSafe(plan, times, eager, outcomes, states, |times|);
    RunLogs(plan, times, eager, outcomes, states, |times|);
    assert outcomes[..|times|] == outcomes;
    PrefixesOnly(plan, states[|times|]);
    if times != [] {
      var k := |times| - 1;
      RunSafe(plan, times, eager, outcomes, states, k);
      PollsEmit(plan, states[k], times[k], eager, outcomes[k], states[k + 1]);
      if eager && !outcomes[k].Emitted? {
        AllHeldInTime(plan, states[k + 1], times[k]);
      }
    }
  }

  lemma RunGrows(plan: Plan, times: seq<nat>, eager: bool, outcomes: seq<Emission>, states: seq<State>,
                 now: nat, e: Emission, t: State)
    requires IsRun(plan, times, eager, outcomes, states)
    requires Polls(plan, states[|times|], now, eager, e, t)
    ensures IsRun(plan, times + [now], eager, outcomes + [e], states + [t])
  {
    hide Polls;
    var longer, more := times + [now], states + [t];
    forall k | 0 <= k < |longer|
      ensures Polls(plan, more[k], longer[k], eager, (outcomes + [e])[k], more[k + 1])
    {
      if k < |times| {
        assert Polls(plan, states[k], times[k], eager, outcomes[k], states[k + 1]);
      }
    }
  }
}
