/** The two-index receiver refines the log machine, as long as its counter does not wrap. */
module Refinement {
  import opened Prelude
  import opened ChunkHeader
  import opened Message
  import opened Gelf
  import opened History

  /** The two indexes are each other's inverse. */
  ghost predicate Agreement(s: State) {
    && (forall id :: id in s.byId ==>
          s.byId[id].arrival in s.byArrival && s.byArrival[s.byId[id].arrival] == id)
    && (forall ts :: ts in s.byArrival ==>
          s.byArrival[ts] in s.byId && s.byId[s.byArrival[ts]].arrival == ts)
  }

  function Lookup(inner: map<u8, Bytes>, i: int): Option<Bytes> {
    if i in inner then Some(inner[i]) else None
  }

  /** Every pending message expects a permitted number of chunks and misses at least one. */
  predicate Incomplete(config: Config, c: Chunks) {
    && 2 <= c.expectedTotal <= config.maxChunksPerMessage
    && (forall i :: i in c.inner ==> i < c.expectedTotal)
    && 1 <= |c.inner| < c.expectedTotal
  }

  ghost predicate AllIncomplete(config: Config, s: State) {
    forall id :: id in s.byId ==> Incomplete(config, s.byId[id].chunks)
  }

  ghost predicate Matches(p: Pending, e: Entry) {
    && p.chunks.expectedTotal == e.total
    && p.arrival.time == e.started
    && forall i: int :: LastWrite(e.writes, i) == Lookup(p.chunks.inner, i)
  }

  ghost predicate Refines(config: Config, s: State, log: Log) {
    && Agreement(s)
    && AllIncomplete(config, s)
    && s.byId.Keys == log.Keys
    && forall id :: id in log ==> Matches(s.byId[id], log[id])
  }

  // Counting keys.

  function Below(n: nat): (r: set<int>)
    ensures forall i :: i in r <==> 0 <= i < n
  {
    if n == 0 then {} else Below(n - 1) + {n - 1}
  }

  lemma {:induction false} BelowSize(n: nat)
    ensures |Below(n)| == n
  {
    if n != 0 {
      BelowSize(n - 1);
    }
  }

  /** Keys below `n`, as many as `n`, are all of them. */
  lemma Pigeonhole(inner: map<u8, Bytes>, n: nat)
    requires forall i :: i in inner ==> i < n
    ensures |inner| <= n
    ensures |inner| == n <==> forall i :: 0 <= i < n ==> i in inner
  {
    BelowSize(n);
    var keys: set<int> := inner.Keys;
    assert keys <= Below(n);
    var missing := Below(n) - keys;
    assert Below(n) == keys + missing;
    assert |inner| == |keys|;
    if forall i :: 0 <= i < n ==> i in inner {
      assert keys == Below(n);
    }
  }

  /** A sorted map with exactly the keys from `from` to below `n` lists its values in index order. */
  lemma {:induction false} FullKeyOrder(inner: map<u8, Bytes>, from: nat, n: nat)
    requires from <= n
    requires forall i: int :: i in inner <==> from <= i < n
    ensures |InKeyOrder(inner)| == n - from
    ensures forall k :: 0 <= k < n - from ==> InKeyOrder(inner)[k] == inner[from + k]
    decreases n - from
  {
    if from == n {
      assert inner.Keys == {};
    } else {
      assert from in inner;
      assert LeastKey(inner) == from;
      FullKeyOrder(inner - {from}, from + 1, n);
    }
  }

  /** One more chunk leaves a pending message complete, or still incomplete. */
  lemma GrownIncomplete(config: Config, c: Chunks, seqNum: u8, bytes: Bytes)
    requires Incomplete(config, c) && seqNum < c.expectedTotal
    ensures c.Insert(seqNum, bytes).IsComplete() || Incomplete(config, c.Insert(seqNum, bytes))
  {
  }

  lemma FirstIncomplete(config: Config, h: Header, bytes: Bytes)
    requires h.seqNum < h.seqCount && 2 <= h.seqCount <= config.maxChunksPerMessage
    ensures Incomplete(config, Chunks(h.seqCount, map[h.seqNum := bytes]))
  {
  }

  // One step.

  /** Under agreement, an id goes with the expired arrivals exactly when it arrived too early. */
  lemma ExpireById(s: State, since: nat)
    requires Agreement(s)
    ensures forall id :: id in Expire(s, UniqueTimestamp(since, 0)).byId
                    <==> id in s.byId && s.byId[id].arrival.time >= since
    ensures forall id :: id in Expire(s, UniqueTimestamp(since, 0)).byId ==>
              Expire(s, UniqueTimestamp(since, 0)).byId[id] == s.byId[id]
    ensures Agreement(Expire(s, UniqueTimestamp(since, 0)))
  {
  }

  lemma WipeRefines(config: Config, s: State, log: Log)
    requires Refines(config, s, log)
    ensures Refines(config, Wipe(config, s), LogWipe(config, log))
  {
    assert |s.byId| == |s.byId.Keys| == |log.Keys| == |log|;
  }

  lemma ExpireRefines(config: Config, s: State, log: Log, since: nat)
    requires Refines(config, s, log)
    ensures Refines(config, Expire(s, UniqueTimestamp(since, 0)), LogExpire(log, since))
  {
    hide Expire, Agreement, Incomplete;
    var c, l := Expire(s, UniqueTimestamp(since, 0)), LogExpire(log, since);
    ExpireById(s, since);
    forall id
      ensures id in c.byId <==> id in l
      ensures id in l ==> c.byId[id] == s.byId[id] && l[id] == log[id]
    {
      assert id in log ==> Matches(s.byId[id], log[id]);
    }
    assert c.byId.Keys == l.Keys;
    hide Matches;
    forall id | id in l
      ensures Matches(c.byId[id], l[id]) && Incomplete(config, c.byId[id].chunks)
    {
      assert id in log && Matches(s.byId[id], log[id]) && Incomplete(config, s.byId[id].chunks);
    }
  }

  lemma CollectRefines(config: Config, s: State, log: Log, now: nat)
    requires Refines(config, s, log)
    ensures Refines(config, Collect(config, s, now), LogCollect(config, log, now))
  {
    hide Refines, Wipe, Expire, LogWipe, LogExpire;
    WipeRefines(config, s, log);
    if now >= config.Timeout() {
      ExpireRefines(config, Wipe(config, s), LogWipe(config, log), now - config.Timeout());
    }
  }

  /** What survives a collection of the receiver, with the period in nanoseconds written out. */
  lemma Survives(config: Config, s: State, id: u64, gc: nat)
    requires Agreement(s)
    ensures var period := config.incompleteTimeoutMs * 1_000_000;
      id in Collect(config, s, gc).byId <==>
        id in s.byId && |s.byId| < config.incompleteCapacity
        && (gc >= period ==> gc <= s.byId[id].arrival.time + period)
    ensures id in Collect(config, s, gc).byId ==> Collect(config, s, gc).byId[id] == s.byId[id]
  {
    hide Expire;
    if gc >= config.Timeout() {
      ExpireById(Wipe(config, s), gc - config.Timeout());
    }
  }

  /** Filing one more chunk keeps the stored pieces equal to the last writes. */
  lemma InsertMatches(p: Pending, e: Entry, seqNum: u8, bytes: Bytes)
    requires Matches(p, e)
    ensures Matches(p.(chunks := p.chunks.Insert(seqNum, bytes)), e.(writes := e.writes + [Write(seqNum, bytes)]))
  {
  }

  /** The count test holds exactly when the log covers the message, and then the pieces agree. */
  lemma CompletionMatches(c: Chunks, ws: seq<Write>)
    requires forall i :: i in c.inner ==> i < c.expectedTotal
    requires forall i: int :: LastWrite(ws, i) == Lookup(c.inner, i)
    ensures c.IsComplete() <==> Covers(ws, c.expectedTotal)
    ensures c.IsComplete() ==> InKeyOrder(c.inner) == Assemble(ws, c.expectedTotal)
  {
    Pigeonhole(c.inner, c.expectedTotal);
    assert Covers(ws, c.expectedTotal) <==> forall i :: 0 <= i < c.expectedTotal ==> i in c.inner by {
      assert forall i: int :: LastWrite(ws, i).Some? <==> i in c.inner;
    }
    if c.IsComplete() {
      FullKeyOrder(c.inner, 0, c.expectedTotal);
    }
  }

  /** Filing a new id keeps the indexes in agreement exactly when its arrival key is unused. */
  lemma StartAgrees(s: State, h: Header, bytes: Bytes, now: nat)
    requires Agreement(s) && h.id !in s.byId
    ensures Agreement(Start(s, h, bytes, now)) <==> UniqueTimestamp(now, s.counter) !in s.byArrival
  {
    var ts := UniqueTimestamp(now, s.counter);
    var t := Start(s, h, bytes, now);
    if ts in s.byArrival {
      var other := s.byArrival[ts];
      assert other in t.byId && t.byId[other].arrival == ts && t.byArrival[ts] == h.id;
    }
  }

  lemma FirstWriteMatches(total: u8, ts: UniqueTimestamp, seqNum: u8, bytes: Bytes)
    ensures Matches(Pending(Chunks(total, map[seqNum := bytes]), ts),
                    Entry(total, ts.time, [Write(seqNum, bytes)]))
  {
  }

  lemma StartRefines(config: Config, s: State, log: Log, h: Header, bytes: Bytes, now: nat)
    requires Refines(config, s, log)
    requires h.id !in s.byId
    requires h.seqNum < h.seqCount && 2 <= h.seqCount <= config.maxChunksPerMessage
    requires UniqueTimestamp(now, s.counter) !in s.byArrival
    ensures Refines(config, Start(s, h, bytes, now),
                    log[h.id := Entry(h.seqCount, now, [Write(h.seqNum, bytes)])])
  {
    StartAgrees(s, h, bytes, now);
    FirstWriteMatches(h.seqCount, UniqueTimestamp(now, s.counter), h.seqNum, bytes);
    FirstIncomplete(config, h, bytes);
    forall id | id in s.byId
      ensures Incomplete(config, s.byId[id].chunks) && Matches(s.byId[id], log[id])
    {
    }
  }

  /** Removing a pending id together with its arrival keeps everything else in step. */
  lemma RemoveRefines(config: Config, s: State, log: Log, id: u64)
    requires Refines(config, s, log) && id in s.byId
    ensures Refines(config, s.(byId := s.byId - {id}, byArrival := s.byArrival - {s.byId[id].arrival}), log - {id})
  {
  }

  /** Replacing the chunks of a pending id under the same arrival keeps everything else in step. */
  lemma ReplaceRefines(config: Config, s: State, log: Log, id: u64, chunks: Chunks, entry: Entry)
    requires Refines(config, s, log) && id in s.byId
    requires Incomplete(config, chunks) && Matches(Pending(chunks, s.byId[id].arrival), entry)
    ensures Refines(config, s.(byId := s.byId[id := Pending(chunks, s.byId[id].arrival)]), log[id := entry])
  {
    hide Matches, Incomplete;
    var t := s.(byId := s.byId[id := Pending(chunks, s.byId[id].arrival)]);
    assert t.byId.Keys == log[id := entry].Keys;
    forall other | other in t.byId
      ensures Incomplete(config, t.byId[other].chunks) && Matches(t.byId[other], log[id := entry][other])
    {
      if other != id {
        assert Matches(s.byId[other], log[other]) && Incomplete(config, s.byId[other].chunks);
      }
    }
  }

  /** What the next chunk of a pending message leads to, on both sides. */
  lemma GrownMatches(config: Config, p: Pending, e: Entry, h: Header, bytes: Bytes)
    requires Matches(p, e) && Incomplete(config, p.chunks)
    requires h.seqNum < h.seqCount == p.chunks.expectedTotal
    ensures var grown, ws := p.chunks.Insert(h.seqNum, bytes), e.writes + [Write(h.seqNum, bytes)];
      && Matches(p.(chunks := grown), e.(writes := ws))
      && (grown.IsComplete() <==> Covers(ws, e.total))
      && (if grown.IsComplete() then InKeyOrder(grown.inner) == Assemble(ws, e.total) && grown.inner != map[]
          else Incomplete(config, grown))
  {
    var grown, ws := p.chunks.Insert(h.seqNum, bytes), e.writes + [Write(h.seqNum, bytes)];
    InsertMatches(p, e, h.seqNum, bytes);
    CompletionMatches(grown, ws);
    GrownIncomplete(config, p.chunks, h.seqNum, bytes);
    assert h.seqNum in grown.inner;
  }

  lemma ExtendRefines(config: Config, s: State, log: Log, h: Header, bytes: Bytes, now: nat)
    requires Refines(config, s, log)
    requires h.id in s.byId
    requires h.seqNum < h.seqCount
    ensures Refines(config, PushPiece(s, h, bytes, now).state, LogPush(log, h, bytes, now).log)
    ensures PushPiece(s, h, bytes, now).result == LogPush(log, h, bytes, now).result
  {
    var p, e := s.byId[h.id], log[h.id];
    assert Matches(p, e) && Incomplete(config, p.chunks);
    if p.chunks.expectedTotal == h.seqCount {
      var grown, ws := p.chunks.Insert(h.seqNum, bytes), e.writes + [Write(h.seqNum, bytes)];
      GrownMatches(config, p, e, h, bytes);
      if grown.IsComplete() {
        RemoveRefines(config, s, log, h.id);
        assert |Assemble(ws, e.total)| == e.total;
      } else {
        ReplaceRefines(config, s, log, h.id, grown, e.(writes := ws));
      }
    }
  }

  /** A state whose arrival keys all carry counters below the number of starts so far. */
  ghost predicate CountersBelow(s: State, starts: nat) {
    && s.counter == starts % TWO_64
    && forall ts :: ts in s.byArrival ==> ts.counter < starts
  }

  lemma CountersCollect(config: Config, s: State, now: nat, starts: nat)
    requires CountersBelow(s, starts)
    ensures CountersBelow(Collect(config, s, now), starts)
  {
  }

  lemma CollectKeepsCounter(config: Config, s: State, now: nat)
    ensures Collect(config, s, now).counter == s.counter
  {
  }

  lemma CountersPush(s: State, h: Header, bytes: Bytes, now: nat, starts: nat)
    requires CountersBelow(s, starts)
    requires h.id !in s.byId ==> starts < TWO_64
    ensures CountersBelow(PushPiece(s, h, bytes, now).state, starts + if h.id in s.byId then 0 else 1)
  {
  }

  /** Whether a datagram begins a message, read off the receiver's own index. */
  predicate Files(config: Config, s: State, e: Event) {
    var datagram := Classify(config, e.src);
    && datagram.Piece?
    && e.clock.gc >= config.Timeout()
    && datagram.header.id !in Collect(config, s, e.clock.gc).byId
  }

  lemma CountersStep(config: Config, s: State, e: Event, starts: nat)
    requires CountersBelow(s, starts)
    requires Files(config, s, e) ==> starts < TWO_64
    ensures CountersBelow(Step(config, s, e.src, e.clock).state, starts + if Files(config, s, e) then 1 else 0)
  {
    hide Collect, PushPiece, CountersBelow;
    CountersCollect(config, s, e.clock.gc, starts);
    var datagram := Classify(config, e.src);
    if datagram.Piece? && e.clock.gc >= config.Timeout() {
      StepOnPiece(config, s, e.src, e.clock);
      CountersPush(Collect(config, s, e.clock.gc), datagram.header, datagram.payload, e.clock.arrival, starts);
    }
  }

  /** Before 2^64 starts, the next arrival key is unused whatever the clock says. */
  lemma CountersFresh(config: Config, s: State, e: Event, starts: nat)
    requires CountersBelow(s, starts) && starts < TWO_64
    ensures UniqueTimestamp(e.clock.arrival, s.counter) !in Collect(config, s, e.clock.gc).byArrival
  {
  }

  lemma PushRefines(config: Config, s: State, log: Log, h: Header, bytes: Bytes, now: nat)
    requires Refines(config, s, log)
    requires h.seqNum < h.seqCount && 2 <= h.seqCount <= config.maxChunksPerMessage
    requires h.id !in s.byId ==> UniqueTimestamp(now, s.counter) !in s.byArrival
    ensures Refines(config, PushPiece(s, h, bytes, now).state, LogPush(log, h, bytes, now).log)
    ensures PushPiece(s, h, bytes, now).result == LogPush(log, h, bytes, now).result
  {
    if h.id !in s.byId {
      assert h.id !in log;
      StartRefines(config, s, log, h, bytes, now);
    } else {
      ExtendRefines(config, s, log, h, bytes, now);
    }
  }

  lemma LogStepOnPiece(config: Config, log: Log, e: Event)
    requires Classify(config, e.src).Piece? && e.clock.gc >= config.Timeout()
    ensures var datagram := Classify(config, e.src);
      LogStep(config, log, e)
      == LogPush(LogCollect(config, log, e.clock.gc), datagram.header, datagram.payload, e.clock.arrival)
    ensures var h := Classify(config, e.src).header;
      h.seqNum < h.seqCount && 2 <= h.seqCount <= config.maxChunksPerMessage
  {
  }

  lemma StepRefines(config: Config, s: State, log: Log, e: Event)
    requires Refines(config, s, log)
    requires Files(config, s, e) ==>
      UniqueTimestamp(e.clock.arrival, s.counter) !in Collect(config, s, e.clock.gc).byArrival
    ensures Refines(config, Step(config, s, e.src, e.clock).state, LogStep(config, log, e).log)
    ensures Step(config, s, e.src, e.clock).result == LogStep(config, log, e).result
  {
    hide Collect, LogCollect, PushPiece, LogPush, Refines;
    CollectRefines(config, s, log, e.clock.gc);
    CollectKeepsCounter(config, s, e.clock.gc);
    var datagram := Classify(config, e.src);
    if datagram.Piece? && e.clock.gc >= config.Timeout() {
      StepOnPiece(config, s, e.src, e.clock);
      LogStepOnPiece(config, log, e);
      PushRefines(config, Collect(config, s, e.clock.gc), LogCollect(config, log, e.clock.gc),
                  datagram.header, datagram.payload, e.clock.arrival);
    }
  }

  lemma BeginsIffFiles(config: Config, s: State, log: Log, e: Event)
    requires Refines(config, s, log)
    ensures Files(config, s, e) <==> Begins(config, log, e)
  {
    CollectRefines(config, s, log, e.clock.gc);
  }

  /** In every run that begins at most 2^64 messages, whatever the clock does, the receiver's
      state and its answers are those of the log machine. */
  lemma {:induction false} RunRefines(config: Config, es: seq<Event>)
    requires Starts(config, es) <= TWO_64
    ensures Refines(config, Run(config, es), LogRun(config, es))
    ensures CountersBelow(Run(config, es), Starts(config, es))
    ensures es != [] ==> Answer(config, es) == LogAnswer(config, es)
  {
    if es != [] {
      var before, e := es[..|es| - 1], es[|es| - 1];
      RunRefines(config, before);
      var s, log := Run(config, before), LogRun(config, before);
      BeginsIffFiles(config, s, log, e);
      CountersStep(config, s, e, Starts(config, before));
      if Files(config, s, e) {
        CountersFresh(config, s, e, Starts(config, before));
      }
      StepRefines(config, s, log, e);
    }
  }
}
