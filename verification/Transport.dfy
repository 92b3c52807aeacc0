/** Ways of sending one payload, and the limit of the receiver's uniqueness counter. */
module Transport {
  import opened Prelude
  import opened ChunkHeader
  import opened Message
  import opened Gelf
  import opened History
  import opened Refinement
  import opened Delivery
  import opened Reassembly

  /** What the receiver answers to one payload sent in three ways, whatever it has seen before.
      Unchunked and as a lone chunk the answers are the same exactly if the payload does not begin
      with the chunk magic: the payload as one message, or nothing for an empty one. Reassembled
      from chunks there is always a message; it has the same bytes, and the same compression exactly
      when the first chunk has at least two bytes or there is no compression to see. */
  lemma TransportIndependence(config: Config, before: seq<Event>, clock: Clock, loneId: u64, payload: Bytes,
                              pre: seq<Event>, mid: seq<Event>, id: u64, pieces: seq<Bytes>)
    requires clock.gc >= config.Timeout()
    requires Starts(config, pre + mid) <= TWO_64
    requires Underway(config, pre, mid, id, pieces) && AllSupplied(config, mid, id, |pieces|)
    requires Concat(pieces) == payload
    ensures var plain := Answer(config, before + [Event(payload, clock)]);
      var lone := Answer(config, before + [Event(Encode(Header(loneId, 0, 1), payload), clock)]);
      var whole := Answer(config, pre + mid);
      && (plain == lone <==> PeekMagic(payload) != Some(MAGIC_CHUNKED))
      && whole.Ok? && whole.value.Some? && Payload(whole.value.value) == payload
      && lone.Ok? && (lone.value.Some? <==> payload != [])
      && (payload != [] ==>
            var m := lone.value.value;
            && Payload(m) == payload && CompressionOf(m) == Sniff(payload)
            && (CompressionOf(whole.value.value) == CompressionOf(m) <==>
                  |pieces[0]| >= 2 || CompressionOf(m) == None))
  {
    hide Run, Underway, AllSupplied, Encode;
    var lone := Encode(Header(loneId, 0, 1), payload);
    assert (before + [Event(payload, clock)])[..|before|] == before;
    assert (before + [Event(lone, clock)])[..|before|] == before;
    ParseInvertsEncode(Header(loneId, 0, 1), payload);
    MagicTells(config, Run(config, before), payload, clock);
    TwoPieces(config, pre, mid, id, pieces);
    Reassembles(config, pre, mid, id, pieces);
    ChunkedCompression(pieces);
  }

  /** A datagram is answered with itself as one message exactly if it does not begin with the magic. */
  lemma MagicTells(config: Config, s: State, src: Bytes, clock: Clock)
    ensures Step(config, s, src, clock).result == Ok(SingleMessage(src))
       <==> PeekMagic(src) != Some(MAGIC_CHUNKED)
  {
  }

  lemma TwoPieces(config: Config, pre: seq<Event>, mid: seq<Event>, id: u64, pieces: seq<Bytes>)
    requires Underway(config, pre, mid, id, pieces)
    ensures |pieces| >= 2
  {
  }

  // The counter wraps at 2^64: a run that begins one message more can file two messages under
  // one arrival key, if the clock stands still.

  /** Room for three pending messages of two chunks, and a clock the collector can work with. */
  predicate Roomy(config: Config, now: nat) {
    config.incompleteCapacity >= 3 && config.maxChunksPerMessage >= 2 && now >= config.Timeout()
  }

  function Chunk(now: nat, id: u64, seqNum: u8, bytes: Bytes): Event {
    Event(Encode(Header(id, seqNum, 2), bytes), Clock(now, now))
  }

  /** Message `x` is begun; then message `y` is begun and completed `rounds` times. */
  function Busy(rounds: nat, now: nat, x: u64, y: u64, b: Bytes): seq<Event> {
    if rounds == 0 then [Chunk(now, x, 0, b)]
    else Busy(rounds - 1, now, x, y, b) + [Chunk(now, y, 0, b)] + [Chunk(now, y, 1, b)]
  }

  function Waiting(now: nat, counter: u64, x: u64, b: Bytes): State {
    var ts := UniqueTimestamp(now, 0);
    State(map[x := Pending(Chunks(2, map[0 := b]), ts)], map[ts := x], counter)
  }

  /** Everything pending has arrived at the time `now`. */
  ghost predicate Current(s: State, now: nat) {
    forall ts :: ts in s.byArrival ==> ts.time == now
  }

  lemma WithoutNothing(s: State)
    ensures Without(s, {}) == s
  {
  }

  /** With a standing clock and room left, the collector leaves the state alone. */
  lemma NothingToCollect(config: Config, now: nat, s: State)
    requires Roomy(config, now) && |s.byId| < 3 && Current(s, now)
    ensures Collect(config, s, now) == s
  {
    assert Wipe(config, s) == s;
    assert Expired(s, UniqueTimestamp(now - config.Timeout(), 0)) == {};
    WithoutNothing(s);
  }

  lemma StepIsPush(config: Config, now: nat, s: State, id: u64, seqNum: u8, b: Bytes)
    requires Roomy(config, now) && |s.byId| < 3 && Current(s, now) && seqNum < 2
    ensures var e := Chunk(now, id, seqNum, b);
      Step(config, s, e.src, e.clock) == PushPiece(s, Header(id, seqNum, 2), b, now)
  {
    ParseInvertsEncode(Header(id, seqNum, 2), b);
    NothingToCollect(config, now, s);
  }

  /** The state between the two chunks of message `y`. */
  function Halfway(now: nat, s: State, y: u64, b: Bytes): State {
    Start(s, Header(y, 0, 2), b, now)
  }

  lemma CompletingPush(now: nat, s: State, h: Header, b: Bytes)
    requires h.id in s.byId && s.byId[h.id].chunks.expectedTotal == h.seqCount
    requires s.byId[h.id].chunks.Insert(h.seqNum, b).IsComplete()
    ensures PushPiece(s, h, b, now).state
         == s.(byId := s.byId - {h.id}, byArrival := s.byArrival - {s.byId[h.id].arrival})
  {
  }

  lemma TwoAreComplete(c: Chunks, b: Bytes)
    requires c.inner.Keys == {0} && c.expectedTotal == 2
    ensures c.Insert(1, b).IsComplete()
  {
  }

  lemma StartUndone(now: nat, s: State, h: Header, b: Bytes)
    requires h.id !in s.byId && UniqueTimestamp(now, s.counter) !in s.byArrival
    ensures Start(s, h, b, now).byId - {h.id} == s.byId
    ensures Start(s, h, b, now).byArrival - {UniqueTimestamp(now, s.counter)} == s.byArrival
  {
  }

  /** A message completed under a fresh arrival key leaves only a higher counter behind. */
  lemma Finish(now: nat, s: State, y: u64, b: Bytes)
    requires y !in s.byId && UniqueTimestamp(now, s.counter) !in s.byArrival
    ensures PushPiece(Halfway(now, s, y, b), Header(y, 1, 2), b, now).state
         == s.(counter := (s.counter + 1) % TWO_64)
  {
    hide InKeyOrder, Chunks.IsComplete;
    var half := Halfway(now, s, y, b);
    TwoAreComplete(half.byId[y].chunks, b);
    CompletingPush(now, half, Header(y, 1, 2), b);
    StartUndone(now, s, Header(y, 0, 2), b);
  }

  lemma HalfwayFacts(now: nat, s: State, y: u64, b: Bytes)
    requires |s.byId| < 2 && Current(s, now)
    ensures |Halfway(now, s, y, b).byId| < 3 && Current(Halfway(now, s, y, b), now)
  {
  }

  /** One message begun and completed. */
  lemma Round(config: Config, now: nat, es: seq<Event>, s: State, y: u64, b: Bytes)
    requires Roomy(config, now) && Run(config, es) == s && |s.byId| < 2 && Current(s, now)
    requires y !in s.byId && UniqueTimestamp(now, s.counter) !in s.byArrival
    ensures Run(config, es + [Chunk(now, y, 0, b)] + [Chunk(now, y, 1, b)]) == s.(counter := (s.counter + 1) % TWO_64)
  {
    StepIsPush(config, now, s, y, 0, b);
    RunSnoc(config, es, Chunk(now, y, 0, b));
    HalfwayFacts(now, s, y, b);
    StepIsPush(config, now, Halfway(now, s, y, b), y, 1, b);
    RunSnoc(config, es + [Chunk(now, y, 0, b)], Chunk(now, y, 1, b));
    Finish(now, s, y, b);
  }

  lemma Opening(config: Config, now: nat, x: u64, b: Bytes)
    requires Roomy(config, now)
    ensures Run(config, [Chunk(now, x, 0, b)]) == Waiting(now, 1, x, b)
  {
    hide Step, Classify, Encode;
    StepIsPush(config, now, EMPTY, x, 0, b);
    RunSnoc(config, [], Chunk(now, x, 0, b));
    assert [] + [Chunk(now, x, 0, b)] == [Chunk(now, x, 0, b)];
  }

  lemma WaitingFacts(now: nat, counter: u64, x: u64, b: Bytes)
    ensures var s := Waiting(now, counter, x, b);
      && |s.byId| == 1 && Agreement(s)
      && (forall y :: y in s.byId <==> y == x)
      && (forall ts :: ts in s.byArrival <==> ts == UniqueTimestamp(now, 0))
  {
  }

  /** One more datagram adds one start if the receiver files it under a new id. */
  lemma StartsNext(config: Config, es: seq<Event>, e: Event)
    requires Starts(config, es) <= TWO_64
    ensures Starts(config, es + [e]) == Starts(config, es) + if Files(config, Run(config, es), e) then 1 else 0
  {
    RunRefines(config, es);
    BeginsIffFiles(config, Run(config, es), LogRun(config, es), e);
    assert (es + [e])[..|es|] == es;
  }

  lemma FilesIfNew(config: Config, now: nat, s: State, id: u64, seqNum: u8, b: Bytes)
    requires Roomy(config, now) && |s.byId| < 3 && Current(s, now) && seqNum < 2
    ensures Files(config, s, Chunk(now, id, seqNum, b)) <==> id !in s.byId
  {
    ParseInvertsEncode(Header(id, seqNum, 2), b);
    NothingToCollect(config, now, s);
  }

  lemma RoundStarts(config: Config, now: nat, es: seq<Event>, s: State, y: u64, b: Bytes)
    requires Roomy(config, now) && Run(config, es) == s && |s.byId| < 2 && Current(s, now)
    requires y !in s.byId && Starts(config, es) < TWO_64
    ensures Starts(config, es + [Chunk(now, y, 0, b)] + [Chunk(now, y, 1, b)]) == Starts(config, es) + 1
  {
    hide Run, Files, Chunk, Roomy, Starts;
    FilesIfNew(config, now, s, y, 0, b);
    StartsNext(config, es, Chunk(now, y, 0, b));
    FirstOfRound(config, now, es, s, y, b);
    HalfwayFacts(now, s, y, b);
    FilesIfNew(config, now, Halfway(now, s, y, b), y, 1, b);
    StartsNext(config, es + [Chunk(now, y, 0, b)], Chunk(now, y, 1, b));
  }

  lemma BusyStep(config: Config, now: nat, es: seq<Event>, rounds: nat, x: u64, y: u64, b: Bytes)
    requires Roomy(config, now) && 0 < rounds < TWO_64 && x != y
    requires Run(config, es) == Waiting(now, rounds, x, b) && Starts(config, es) == rounds
    ensures Run(config, es + [Chunk(now, y, 0, b)] + [Chunk(now, y, 1, b)]) == Waiting(now, (rounds + 1) % TWO_64, x, b)
    ensures Starts(config, es + [Chunk(now, y, 0, b)] + [Chunk(now, y, 1, b)]) == rounds + 1
  {
    hide Run, Starts, Chunk, Roomy, Agreement;
    WaitingFacts(now, rounds, x, b);
    Round(config, now, es, Waiting(now, rounds, x, b), y, b);
    RoundStarts(config, now, es, Waiting(now, rounds, x, b), y, b);
  }

  lemma FirstOfRound(config: Config, now: nat, es: seq<Event>, s: State, y: u64, b: Bytes)
    requires Roomy(config, now) && Run(config, es) == s && |s.byId| < 3 && Current(s, now) && y !in s.byId
    ensures Run(config, es + [Chunk(now, y, 0, b)]) == Halfway(now, s, y, b)
  {
    hide Run, Step, Collect, Roomy, Classify, Encode;
    StepIsPush(config, now, s, y, 0, b);
    RunSnoc(config, es, Chunk(now, y, 0, b));
  }

  lemma OpeningStarts(config: Config, now: nat, x: u64, b: Bytes)
    requires Roomy(config, now)
    ensures Starts(config, [Chunk(now, x, 0, b)]) == 1
  {
    hide Chunk, Files, Roomy;
    FilesIfNew(config, now, EMPTY, x, 0, b);
    StartsNext(config, [], Chunk(now, x, 0, b));
    assert [] + [Chunk(now, x, 0, b)] == [Chunk(now, x, 0, b)];
  }

  lemma BusyNext(rounds: nat, now: nat, x: u64, y: u64, b: Bytes) returns (es: seq<Event>)
    requires rounds > 0
    ensures es == Busy(rounds - 1, now, x, y, b)
    ensures Busy(rounds, now, x, y, b) == es + [Chunk(now, y, 0, b)] + [Chunk(now, y, 1, b)]
  {
    es := Busy(rounds - 1, now, x, y, b);
  }

  lemma {:induction false} BusyRun(config: Config, rounds: nat, now: nat, x: u64, y: u64, b: Bytes, es: seq<Event>)
    requires Roomy(config, now) && rounds < TWO_64 && x != y
    requires es == Busy(rounds, now, x, y, b)
    ensures Run(config, es) == Waiting(now, (rounds + 1) % TWO_64, x, b)
    ensures Starts(config, es) == rounds + 1
    decreases rounds
  {
    hide Run, Starts, Step, Chunk, Waiting, Roomy;
    if rounds == 0 {
      Opening(config, now, x, b);
      OpeningStarts(config, now, x, b);
    } else {
      var before := BusyNext(rounds, now, x, y, b);
      BusyRun(config, rounds - 1, now, x, y, b, before);
      BusyStep(config, now, before, rounds, x, y, b);
    }
  }

  /** Two messages filed under one arrival key, of which the arrival index only knows `z`. */
  function Doubled(now: nat, x: u64, z: u64, b: Bytes): State {
    Start(Waiting(now, 0, x, b), Header(z, 0, 2), b, now)
  }

  lemma WrappedStart(config: Config, now: nat, es: seq<Event>, x: u64, z: u64, b: Bytes)
    requires Roomy(config, now) && x != z
    requires Run(config, es) == Waiting(now, 0, x, b) && Starts(config, es) == TWO_64
    ensures Run(config, es + [Chunk(now, z, 0, b)]) == Doubled(now, x, z, b)
    ensures Starts(config, es + [Chunk(now, z, 0, b)]) == TWO_64 + 1
    ensures !Agreement(Doubled(now, x, z, b))
  {
    hide Run, Step, PushPiece, Files, Chunk, Collect, Roomy, Starts;
    var s := Waiting(now, 0, x, b);
    WaitingFacts(now, 0, x, b);
    FirstOfRound(config, now, es, s, z, b);
    FilesIfNew(config, now, s, z, 0, b);
    StartsNext(config, es, Chunk(now, z, 0, b));
    StartAgrees(s, Header(z, 0, 2), b, now);
  }

  /** The limit on message starts is sharp: a run that begins one message, then 2^64 - 1 others,
      then one more ends with two pending messages filed under one arrival key. */
  lemma WrapBreaksAgreement(config: Config, rounds: nat, now: nat, x: u64, y: u64, z: u64, b: Bytes)
    requires Roomy(config, now) && rounds + 1 == TWO_64
    requires x != y && x != z
    ensures var es := Busy(rounds, now, x, y, b) + [Chunk(now, z, 0, b)];
      Starts(config, es) == TWO_64 + 1 && !Agreement(Run(config, es))
  {
    var busy := Busy(rounds, now, x, y, b);
    BusyRun(config, rounds, now, x, y, b, busy);
    WrappedStart(config, now, busy, x, z, b);
  }

  /** Only the message in the arrival index expires. */
  lemma DoubledExpires(config: Config, now: nat, x: u64, z: u64, b: Bytes, gc: nat)
    requires Roomy(config, now) && x != z && gc > now + config.Timeout()
    ensures var s := Collect(config, Doubled(now, x, z, b), gc);
      x in s.byId && s.byId[x].chunks == Chunks(2, map[0 := b])
  {
    var s, since := Doubled(now, x, z, b), UniqueTimestamp(gc - config.Timeout(), 0);
    assert s.byId.Keys == {x, z};
    assert Wipe(config, s) == s;
    assert Expired(s, since) == {UniqueTimestamp(now, 0)};
    assert (set ts | ts in Expired(s, since) :: s.byArrival[ts]) == {z};
  }

  lemma LateCompletes(s: State, x: u64, b: Bytes, now: nat)
    requires x in s.byId && s.byId[x].chunks == Chunks(2, map[0 := b])
    ensures PushPiece(s, Header(x, 1, 2), b, now).result == Ok(Some(Message.Chunked([b, b])))
  {
    var grown := map[0 := b, 1 := b];
    TwoAreComplete(Chunks(2, map[0 := b]), b);
    assert map[0 := b][1 := b] == grown;
    FullKeyOrder(grown, 0, 2);
    assert InKeyOrder(grown) == [b, b];
  }

  lemma StartedAtStays(config: Config, log: Log, e: Event, now: nat)
    requires e.clock.arrival == now && forall id :: id in log ==> log[id].started == now
    ensures var next := LogStep(config, log, e).log;
      forall id :: id in next ==> next[id].started == now
  {
  }

  /** In the log everything has expired. */
  lemma LateBegins(config: Config, log: Log, now: nat, late: Event)
    requires forall id :: id in log ==> log[id].started == now
    requires late.clock.gc > now + config.Timeout() && Classify(config, late.src).Piece?
    ensures LogStep(config, log, late).result == Ok(None)
  {
    assert LogExpire(LogWipe(config, log), late.clock.gc - config.Timeout()) == map[];
  }

  /** And it shows in the answers: when everything has expired, the second chunk of the first
      message ought to begin a message, but completes one that began before the timeout. */
  lemma WrapBreaksAnswers(config: Config, rounds: nat, now: nat, x: u64, y: u64, z: u64, b: Bytes, clock: Clock)
    requires Roomy(config, now) && rounds + 1 == TWO_64
    requires x != y && x != z && clock.gc > now + config.Timeout()
    ensures var late := Event(Encode(Header(x, 1, 2), b), clock);
      var es := Busy(rounds, now, x, y, b) + [Chunk(now, z, 0, b)];
      && Starts(config, es) == TWO_64 + 1
      && Answer(config, es + [late]) == Ok(Some(Message.Chunked([b, b])))
      && LogAnswer(config, es + [late]) == Ok(None)
  {
    var busy, late := Busy(rounds, now, x, y, b), Event(Encode(Header(x, 1, 2), b), clock);
    BusyRun(config, rounds, now, x, y, b, busy);
    WrappedStart(config, now, busy, x, z, b);
    ParseInvertsEncode(Header(x, 1, 2), b);
    LateAnswer(config, now, busy + [Chunk(now, z, 0, b)], x, z, b, late);
    LateLogAnswer(config, now, busy, x, z, b, late);
  }

  lemma LateAnswer(config: Config, now: nat, es: seq<Event>, x: u64, z: u64, b: Bytes, late: Event)
    requires Roomy(config, now) && x != z && late.clock.gc > now + config.Timeout()
    requires Run(config, es) == Doubled(now, x, z, b)
    requires Classify(config, late.src) == Piece(Header(x, 1, 2), b)
    ensures Answer(config, es + [late]) == Ok(Some(Message.Chunked([b, b])))
  {
    hide PushPiece, Collect, Classify, Doubled;
    var collected := Collect(config, Doubled(now, x, z, b), late.clock.gc);
    DoubledExpires(config, now, x, z, b, late.clock.gc);
    LateCompletes(collected, x, b, late.clock.arrival);
    assert (es + [late])[..|es|] == es;
  }

  lemma LateLogAnswer(config: Config, now: nat, es: seq<Event>, x: u64, z: u64, b: Bytes, late: Event)
    requires late.clock.gc > now + config.Timeout() && Classify(config, late.src).Piece?
    requires Run(config, es) == Waiting(now, 0, x, b) && Starts(config, es) <= TWO_64
    ensures LogAnswer(config, es + [Chunk(now, z, 0, b)] + [late]) == Ok(None)
  {
    var log := LogRun(config, es);
    RunRefines(config, es);
    assert forall id :: id in log ==> Matches(Run(config, es).byId[id], log[id]);
    StartedAtStays(config, log, Chunk(now, z, 0, b), now);
    LogRunSnoc(config, es, Chunk(now, z, 0, b));
    LogRunSnoc(config, es + [Chunk(now, z, 0, b)], late);
    LateBegins(config, LogRun(config, es + [Chunk(now, z, 0, b)]), now, late);
  }
}
