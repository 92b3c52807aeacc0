/** What the pool has emitted and which connections it has timed out, in terms of the script
    of each connection alone, whatever the others do. */
module Timing {
  import opened Prelude
  import opened Listen

  /** A connection that has timed out had been accepted, or had last emitted something, a keep-alive
      before the poll that dropped it. */
  lemma TimeoutOrigin(plan: Plan, times: seq<nat>, eager: bool, outcomes: seq<Emission>, states: seq<State>,
                      k: nat, id: nat)
    requires IsRun(plan, times, eager, outcomes, states) && k <= |times| && id in states[k].expired
    ensures var x := states[k].expired[id];
      && x.time in times[..k] && x.time >= x.conn.since + plan.keepAlive
      && (if Projection(states[k].log, id) == [] then AcceptedAt(times, states, k, id, x.conn.since)
          else LastTime(states[k].log, id) == Some(x.conn.since))
  {
    var x := states[k].expired[id];
    hide IsRun, AcceptedAt;
    RunSafe(plan, times, eager, outcomes, states, k);
    assert TimedOut(plan, states[k], id, x);
    ValuesLength(x.conn.script[..x.conn.next]);
    if x.conn.next == 0 {
      RunJoins(plan, times, eager, outcomes, states, k, id);
    }
  }

  // Keep-alive.

  /** What a poll does to the connections accepted before it: a held one stays as it is or has just emitted
      something, and one that has timed out did so before, or now, as it was held. */
  ghost predicate Follows(s: State, t: State, now: nat) {
    && (forall id :: id < s.at && id in t.connections ==>
          id in s.connections && (t.connections[id] == s.connections[id] || t.connections[id].since == now))
    && (forall id :: id < s.at && id in t.expired ==>
          (id in s.expired && t.expired[id] == s.expired[id])
          || (id in s.connections && t.expired[id].conn == s.connections[id]))
  }

  /** The same while nothing has been emitted. */
  ghost predicate FollowsQuietly(s: State, t: State) {
    && s.at <= t.at
    && (forall id :: id < s.at && id in t.connections ==>
          id in s.connections && t.connections[id] == s.connections[id])
    && (forall id :: id < s.at && id in t.expired ==>
          (id in s.expired && t.expired[id] == s.expired[id])
          || (id in s.connections && t.expired[id].conn == s.connections[id]))
  }

  lemma {:induction false} FilledFollows(plan: Plan, s: State, now: nat)
    requires s.at <= |plan.incoming|
    ensures FollowsQuietly(s, Filled(plan, s, now)) && Filled(plan, s, now).at <= |plan.incoming|
    decreases |plan.incoming| - s.at
  {
    if |s.connections| < plan.max && !s.done && s.at < |plan.incoming| && plan.incoming[s.at].Some? {
      FilledFollows(plan, AcceptOne(plan, s, now), now);
    }
  }

  lemma QuietlyOn(s: State, m: State, t: State)
    requires FollowsQuietly(s, m) && FollowsQuietly(m, t)
    ensures FollowsQuietly(s, t)
  {
  }

  lemma TakenFollows(s: State, id: nat, now: nat)
    requires id in s.connections
    ensures var t := Taken(s, id, now);
      if t.1.None? then FollowsQuietly(s, t.0) && t.0.at == s.at else Follows(s, t.0, now)
  {
  }

  lemma {:induction false} DropsFollow(plan: Plan, s: State, now: nat, picks: seq<nat>)
    requires s.at <= |plan.incoming| && AllDrop(plan, s, now, picks)
    ensures FollowsQuietly(s, AfterDrops(plan, s, now, picks)) && AfterDrops(plan, s, now, picks).at <= |plan.incoming|
  {
    if picks != [] {
      hide FollowsQuietly, Taken, Filled;
      var before, id := picks[..|picks| - 1], picks[|picks| - 1];
      var d := AfterDrops(plan, s, now, before);
      var f := Filled(plan, d, now);
      DropsFollow(plan, s, now, before);
      FilledFollows(plan, d, now);
      QuietlyOn(s, d, f);
      TakenFollows(f, id, now);
      QuietlyOn(s, f, Taken(f, id, now).0);
    } else {
      assert AfterDrops(plan, s, now, picks) == s;
    }
  }

  lemma PollsFollow(plan: Plan, s: State, now: nat, eager: bool, e: Emission, t: State)
    requires s.at <= |plan.incoming| && Polls(plan, s, now, eager, e, t)
    ensures Follows(s, t, now)
  {
    hide Taken, Filled, AllDrop, AfterDrops;
    var picks :| PollsBy(plan, s, now, eager, picks, e, t);
    var d := AfterDrops(plan, s, now, picks);
    DropsFollow(plan, s, now, picks);
    FilledFollows(plan, d, now);
    QuietlyOn(s, d, Filled(plan, d, now));
    if e.Emitted? {
      TakenFollows(Filled(plan, d, now), e.source, now);
    }
  }

  /** Connection `id` is held, or has timed out, with its keep-alive running from `since` or later. */
  ghost predicate RunsFrom(s: State, id: nat, since: nat) {
    && id < s.at
    && (id in s.connections ==> s.connections[id].since >= since)
    && (id in s.expired ==> s.expired[id].conn.since >= since)
  }

  lemma {:induction false} KeepsRunning(plan: Plan, times: seq<nat>, eager: bool, outcomes: seq<Emission>,
                                        states: seq<State>, id: nat, j: nat, k: nat)
    requires IsRun(plan, times, eager, outcomes, states) && Ascending(times) && j < k <= |times|
    requires id in states[j + 1].connections
    ensures RunsFrom(states[k], id, states[j + 1].connections[id].since)
    decreases k
  {
    hide Polls, Inv;
    var since := states[j + 1].connections[id].since;
    RunSafe(plan, times, eager, outcomes, states, j + 1);
    if k == j + 1 {
      HeldRuns(plan, states[k], id);
    } else {
      assert since <= times[k - 1];
      KeepsRunning(plan, times, eager, outcomes, states, id, j, k - 1);
      RunSafe(plan, times, eager, outcomes, states, k - 1);
      InvBound(plan, states[k - 1]);
      PollsFollow(plan, states[k - 1], times[k - 1], eager, outcomes[k - 1], states[k]);
      PollsJoins(plan, states[k - 1], times[k - 1], eager, outcomes[k - 1], states[k]);
    }
  }

  lemma HeldRuns(plan: Plan, s: State, id: nat)
    requires Inv(plan, s) && id in s.connections
    ensures RunsFrom(s, id, s.connections[id].since)
  {
    assert Pooled(plan, s, id, s.connections[id]);
    ExpiredApart(plan, s);
  }

  /** A timeout does not come late: every earlier stop of an eager queue that left the connection held came
      before its keep-alive had run. */
  lemma TimeoutLatest(plan: Plan, times: seq<nat>, outcomes: seq<Emission>, states: seq<State>,
                      id: nat, j: nat, k: nat)
    requires IsRun(plan, times, true, outcomes, states) && Ascending(times) && j < k <= |times|
    requires !outcomes[j].Emitted? && id in states[j + 1].connections && id in states[k].expired
    ensures times[j] < states[k].expired[id].conn.since + plan.keepAlive
  {
    hide Polls, Inv, Clocked, Topped;
    RunSafe(plan, times, true, outcomes, states, j);
    RunSafe(plan, times, true, outcomes, states, j + 1);
    PollsEmit(plan, states[j], times[j], true, outcomes[j], states[j + 1]);
    HeldInTime(plan, states[j + 1], id, times[j]);
    HeldSince(plan, states[j + 1], id);
    KeepsRunning(plan, times, true, outcomes, states, id, j, k);
  }

  lemma HeldSince(plan: Plan, s: State, id: nat)
    requires Inv(plan, s) && id in s.connections
    ensures if Projection(s.log, id) == [] then id in s.joined && s.joined[id] == s.connections[id].since
            else LastTime(s.log, id) == Some(s.connections[id].since)
  {
    var c := s.connections[id];
    assert Pooled(plan, s, id, c);
    ValuesLength(c.script[..c.next]);
  }

  /** Each item comes no later than a keep-alive after the one before it. */
  predicate Steady(script: seq<Arrival>, keepAlive: nat) {
    forall k :: 0 < k < |script| ==> script[k].at <= script[k - 1].at + keepAlive
  }

  /** Whatever its values are, complete messages or not, a steady connection times out only before
      its first item or after its last. */
  lemma SteadyStays(plan: Plan, s: State, id: nat)
    requires Inv(plan, s) && id in s.expired
    requires Steady(s.expired[id].conn.script, plan.keepAlive)
    ensures var x, script := s.expired[id], s.expired[id].conn.script;
      && plan.incoming[id] == Some(script)
      && (if x.conn.next == 0
          then id in s.joined && (script != [] ==> script[0].at > s.joined[id] + plan.keepAlive)
          else x.conn.next == |script| && x.time >= script[|script| - 1].at + plan.keepAlive)
  {
    assert TimedOut(plan, s, id, s.expired[id]);
  }

  // What has arrived.

  /** The values before the first error, close or item that has not arrived. */
  function Due(script: seq<Arrival>, now: nat): seq<Received> {
    if script == [] || !script[0].item.Value? || script[0].at > now then []
    else [script[0].item.value] + Due(script[1..], now)
  }

  lemma {:induction false} DuePrefix(script: seq<Arrival>, now: nat)
    ensures Due(script, now) <= Values(script)
  {
    if script != [] && script[0].item.Value? && script[0].at <= now {
      DuePrefix(script[1..], now);
    }
  }

  lemma {:induction false} DueGrows(script: seq<Arrival>, now: nat, later: nat)
    requires now <= later
    ensures |Due(script, now)| <= |Due(script, later)|
  {
    if script != [] && script[0].item.Value? && script[0].at <= now {
      DueGrows(script[1..], now, later);
    }
  }

  /** Item `n` is due once those before it are, if it is a value that has arrived; and only then. */
  lemma {:induction false} DueUpTo(script: seq<Arrival>, n: nat, now: nat)
    requires n <= |script|
    ensures n < |script| && script[n].item.Value? && script[n].at <= now && |Due(script, now)| >= n ==>
      |Due(script, now)| > n
    ensures !(n < |script| && script[n].item.Value? && script[n].at <= now) ==> |Due(script, now)| <= n
  {
    if n > 0 && script[0].item.Value? && script[0].at <= now {
      DueUpTo(script[1..], n - 1, now);
    }
  }

  /** Connection `id` has emitted no more than is due; all that was due when it timed out, if it did. */
  ghost predicate OnTime(plan: Plan, s: State, now: nat, id: nat) {
    id < |plan.incoming| && plan.incoming[id].Some? ==>
      var script := plan.incoming[id].value;
      if id in s.expired then Projection(s.log, id) == Due(script, s.expired[id].time)
      else |Projection(s.log, id)| <= |Due(script, now)|
  }

  ghost predicate AllOnTime(plan: Plan, s: State, now: nat) {
    forall id: nat :: OnTime(plan, s, now, id)
  }

  lemma SamePrefix(a: seq<Received>, b: seq<Received>, c: seq<Received>)
    requires a <= c && b <= c && |a| == |b|
    ensures a == b
  {
  }

  /** A connection without an item has emitted all that is due, if it has emitted no more. */
  lemma NoItemNoMore(plan: Plan, s: State, id: nat, c: Conn, now: nat)
    requires Pooled(plan, s, id, c) && !c.HasItem(now) && |Projection(s.log, id)| <= |Due(c.script, now)|
    ensures Projection(s.log, id) == Due(c.script, now)
  {
    hide Projection, LastTime;
    ValuesLength(c.script[..c.next]);
    DueUpTo(c.script, c.next, now);
    ValuesSplit(c.script, c.next);
    DuePrefix(c.script, now);
    SamePrefix(Projection(s.log, id), Due(c.script, now), Values(c.script));
  }

  /** Taking from a ready connection keeps every connection on time. */
  lemma TakenOnTime(plan: Plan, s: State, id: nat, now: nat, other: nat)
    requires PickReady(s, id, now) && Pooled(plan, s, id, s.connections[id]) && id !in s.expired
    requires OnTime(plan, s, now, id) && OnTime(plan, s, now, other)
    ensures OnTime(plan, Taken(s, id, now).0, now, other)
  {
    hide Projection, LastTime, Values, AllValues;
    var c, v := s.connections[id], Taken(s, id, now).1;
    if v.Some? {
      EmitShape(s, id, now);
      LogSnoc(s.log, Entry(id, v.value, now), other);
      DueUpTo(c.script, c.next, now);
      EmittedSoFar(plan, s, id, c);
    } else if !c.HasItem(now) {
      NoItemNoMore(plan, s, id, c, now);
    }
  }

  lemma EmittedSoFar(plan: Plan, s: State, id: nat, c: Conn)
    requires Pooled(plan, s, id, c)
    ensures |Projection(s.log, id)| == c.next
  {
    ValuesLength(c.script[..c.next]);
  }

  lemma LaterOnTime(plan: Plan, s: State, before: nat, now: nat)
    requires AllOnTime(plan, s, before) && before <= now
    ensures AllOnTime(plan, s, now)
  {
    forall id: nat
      ensures OnTime(plan, s, now, id)
    {
      assert OnTime(plan, s, before, id);
      if id < |plan.incoming| && plan.incoming[id].Some? {
        DueGrows(plan.incoming[id].value, before, now);
      }
    }
  }

  lemma TakenAllOnTime(plan: Plan, s: State, id: nat, now: nat)
    requires Inv(plan, s) && PickReady(s, id, now) && AllOnTime(plan, s, now)
    ensures AllOnTime(plan, Taken(s, id, now).0, now)
  {
    hide Taken, Pooled, OnTime;
    assert Pooled(plan, s, id, s.connections[id]);
    ExpiredApart(plan, s);
    forall other: nat
      ensures OnTime(plan, Taken(s, id, now).0, now, other)
    {
      assert OnTime(plan, s, now, id) && OnTime(plan, s, now, other);
      TakenOnTime(plan, s, id, now, other);
    }
  }

  lemma {:induction false} FilledSameLog(plan: Plan, s: State, now: nat)
    ensures Filled(plan, s, now).log == s.log && Filled(plan, s, now).expired == s.expired
    decreases |plan.incoming| - s.at
  {
    if |s.connections| < plan.max && !s.done && s.at < |plan.incoming| && plan.incoming[s.at].Some? {
      FilledSameLog(plan, AcceptOne(plan, s, now), now);
    }
  }

  lemma FilledOnTime(plan: Plan, s: State, now: nat)
    requires AllOnTime(plan, s, now)
    ensures AllOnTime(plan, Filled(plan, s, now), now)
  {
    hide Filled;
    FilledSameLog(plan, s, now);
    forall id: nat
      ensures OnTime(plan, Filled(plan, s, now), now, id)
    {
      assert OnTime(plan, s, now, id);
    }
  }

  lemma {:induction false} DropsOnTime(plan: Plan, s: State, now: nat, picks: seq<nat>)
    requires Inv(plan, s) && AllDrop(plan, s, now, picks) && AllOnTime(plan, s, now)
    ensures AllOnTime(plan, AfterDrops(plan, s, now, picks), now)
  {
    if picks != [] {
      hide Inv, AllOnTime, Taken, Filled;
      var before, id := picks[..|picks| - 1], picks[|picks| - 1];
      var d := AfterDrops(plan, s, now, before);
      DropsOnTime(plan, s, now, before);
      AfterDropsInv(plan, s, now, before);
      FilledInv(plan, d, now);
      FilledOnTime(plan, d, now);
      TakenAllOnTime(plan, Filled(plan, d, now), id, now);
    }
  }

  lemma PollsOnTime(plan: Plan, s: State, now: nat, eager: bool, e: Emission, t: State)
    requires Inv(plan, s) && AllOnTime(plan, s, now) && Polls(plan, s, now, eager, e, t)
    ensures AllOnTime(plan, t, now)
  {
    hide Inv, AllOnTime, Taken, Filled, AllDrop, AfterDrops;
    var picks :| PollsBy(plan, s, now, eager, picks, e, t);
    var d := AfterDrops(plan, s, now, picks);
    DropsOnTime(plan, s, now, picks);
    AfterDropsInv(plan, s, now, picks);
    FilledInv(plan, d, now);
    FilledOnTime(plan, d, now);
    if e.Emitted? {
      TakenAllOnTime(plan, Filled(plan, d, now), e.source, now);
    }
  }

  predicate Ascending(times: seq<nat>) {
    forall i, j :: 0 <= i < j < |times| ==> times[i] <= times[j]
  }

  lemma InitialOnTime(plan: Plan, now: nat)
    ensures AllOnTime(plan, INITIAL, now)
  {
  }

  lemma {:induction false} RunOnTime(plan: Plan, times: seq<nat>, eager: bool, outcomes: seq<Emission>,
                                     states: seq<State>, k: nat)
    requires IsRun(plan, times, eager, outcomes, states) && Ascending(times) && k < |times|
    ensures AllOnTime(plan, states[k + 1], times[k])
    decreases k
  {
    hide Polls, Inv, Clocked, AllOnTime;
    if k == 0 {
      InitialOnTime(plan, times[0]);
    } else {
      RunOnTime(plan, times, eager, outcomes, states, k - 1);
      LaterOnTime(plan, states[k], times[k - 1], times[k]);
    }
    RunSafe(plan, times, eager, outcomes, states, k);
    PollsOnTime(plan, states[k], times[k], eager, outcomes[k], states[k + 1]);
  }

  /** When an eager poll stops without a value, each accepted connection has emitted exactly what its own
      script makes due by then, or by the time it timed out. */
  lemma StopDetermines(plan: Plan, s: State, now: nat, id: nat)
    requires Inv(plan, s) && AllOnTime(plan, s, now) && NothingReady(s, now)
    requires id < s.at && plan.incoming[id].Some?
    ensures Projection(s.log, id)
         == Due(plan.incoming[id].value, if id in s.expired then s.expired[id].time else now)
  {
    hide Projection, LastTime, Values, AllValues;
    var script := plan.incoming[id].value;
    assert OnTime(plan, s, now, id) && Accounted(plan, s, id);
    if id in s.connections {
      assert Pooled(plan, s, id, s.connections[id]);
      ExpiredApart(plan, s);
      NoItemNoMore(plan, s, id, s.connections[id], now);
    } else if id !in s.expired {
      DuePrefix(script, now);
      SamePrefix(Projection(s.log, id), Due(script, now), Values(script));
    }
  }

  /** The same for the outcomes of a run. */
  lemma RunDetermines(plan: Plan, times: seq<nat>, outcomes: seq<Emission>, states: seq<State>, id: nat)
    requires IsRun(plan, times, true, outcomes, states) && Ascending(times)
    requires times != [] && !outcomes[|times| - 1].Emitted?
    requires id < states[|times|].at && id < |plan.incoming| && plan.incoming[id].Some?
    ensures var s := states[|times|];
      Projection(Logged(times, outcomes), id)
      == Due(plan.incoming[id].value, if id in s.expired then s.expired[id].time else times[|times| - 1])
    ensures id in states[|times|].connections ==> InTime(plan, states[|times|], id, times[|times| - 1])
  {
    hide Polls, Inv, Clocked, NothingReady, Topped, AllOnTime, InTime;
    var k := |times| - 1;
    RunSafe(plan, times, true, outcomes, states, k);
    RunSafe(plan, times, true, outcomes, states, k + 1);
    PollsEmit(plan, states[k], times[k], true, outcomes[k], states[k + 1]);
    RunOnTime(plan, times, true, outcomes, states, k);
    RunLogs(plan, times, true, outcomes, states, k + 1);
    assert times[..k + 1] == times && outcomes[..k + 1] == outcomes;
    InvBound(plan, states[k + 1]);
    StopDetermines(plan, states[k + 1], times[k], id);
    AllHeldInTime(plan, states[k + 1], times[k]);
  }
}
