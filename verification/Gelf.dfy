/** The GELF receiver: single messages pass through, chunks are collected per message id. */
module Gelf {
  import opened Prelude
  import opened ChunkHeader
  import opened Message

  datatype Config = Config(incompleteCapacity: nat, maxChunksPerMessage: u8, incompleteTimeoutMs: u64) {
    /** The timeout in nanoseconds. */
    function Timeout(): nat {
      incompleteTimeoutMs * 1_000_000
    }
  }

  /** A time since the epoch in nanoseconds, made unique by a counter. */
  datatype UniqueTimestamp = UniqueTimestamp(time: nat, counter: u64)

  predicate Before(a: UniqueTimestamp, b: UniqueTimestamp) {
    a.time < b.time || (a.time == b.time && a.counter < b.counter)
  }

  datatype Chunks = Chunks(expectedTotal: u8, inner: map<u8, Bytes>) {
    function Insert(seqNum: u8, bytes: Bytes): Chunks {
      Chunks(expectedTotal, inner[seqNum := bytes])
    }

    predicate IsComplete() {
      expectedTotal == |inner|
    }
  }

  datatype Pending = Pending(chunks: Chunks, arrival: UniqueTimestamp)

  /** The two indexes and the counter that makes arrival keys unique. */
  datatype State = State(byId: map<u64, Pending>, byArrival: map<UniqueTimestamp, u64>, counter: u64)

  const EMPTY := State(map[], map[], 0)

  /** The clock readings of one step: by the collector, and when a new message is filed. */
  datatype Clock = Clock(gc: nat, arrival: nat)

  datatype Outcome = Outcome(state: State, result: Result<Option<Message>, Error>)

  /** What a datagram asks of the receiver. */
  datatype Datagram =
    | Plain(payload: Bytes)
    | Lone(payload: Bytes)
    | Rejected(error: Error)
    | Piece(header: Header, payload: Bytes)

  function Classify(config: Config, src: Bytes): Datagram {
    if PeekMagic(src) != Some(MAGIC_CHUNKED) then Plain(src)
    else
      match Parse(src)
      case Err(error) => Rejected(error)
      case Ok(header) =>
        if header.seqNum == 0 && header.seqCount == 1 then Lone(src[SIZE..])
        else if header.seqCount > config.maxChunksPerMessage then Rejected(TooManyChunks)
        else Piece(header, src[SIZE..])
  }

  /** What a datagram asks, byte by byte: it is a chunk if and only if it begins with 30 and 15. */
  lemma ClassifyMeaning(config: Config, src: Bytes)
    ensures var chunk := |src| >= 2 && src[0] == 30 && src[1] == 15;
      var d := Classify(config, src);
      && (d == Plain(src) <==> !chunk) && (d.Plain? <==> !chunk)
      && (d == Rejected(ShortHeader) <==> chunk && |src| < 12)
      && (d == Rejected(BadSequence) <==> chunk && |src| >= 12 && src[10] >= src[11])
      && (d.Lone? <==> chunk && |src| >= 12 && src[10] == 0 && src[11] == 1)
      && (d == Rejected(TooManyChunks) <==>
            chunk && |src| >= 12 && src[10] < src[11] && src[11] > 1 && src[11] > config.maxChunksPerMessage)
      && (d.Piece? <==>
            chunk && |src| >= 12 && src[10] < src[11] && 1 < src[11] <= config.maxChunksPerMessage)
      && (d.Lone? || d.Piece? ==> d.payload == src[12..])
      && (d.Piece? ==>
            d.header.id == WireId(src) && d.header.seqNum == src[10] && d.header.seqCount == src[11])
  {
    ParseMeaning(src);
    if |src| >= 2 {
      assert src[..2] == [src[0], src[1]];
    }
  }

  predicate IsLeast(k: u8, keys: set<u8>) {
    k in keys && forall other :: other in keys ==> k <= other
  }

  lemma {:induction false} LeastExists(keys: set<u8>)
    requires keys != {}
    ensures exists k :: IsLeast(k, keys)
  {
    var k :| k in keys;
    var rest := keys - {k};
    assert forall other :: other in keys ==> other == k || other in rest;
    if rest == {} {
      assert IsLeast(k, keys);
    } else {
      LeastExists(rest);
      var least :| IsLeast(least, rest);
      var smaller := if k <= least then k else least;
      assert IsLeast(smaller, keys);
    }
  }

  function LeastKey(inner: map<u8, Bytes>): (k: u8)
    requires inner != map[]
    ensures k in inner && forall other :: other in inner ==> k <= other
  {
    LeastExists(inner.Keys);
    var k :| k in inner.Keys && forall other :: other in inner.Keys ==> k <= other;
    k
  }

  /** The values of a sorted map, by ascending key. */
  function InKeyOrder(inner: map<u8, Bytes>): seq<Bytes>
    decreases inner.Keys
  {
    if inner == map[] then []
    else
      var k := LeastKey(inner);
      [inner[k]] + InKeyOrder(inner - {k})
  }

  /** Drops everything once the number of pending messages has reached the capacity. */
  function Wipe(config: Config, s: State): State {
    if |s.byId| >= config.incompleteCapacity then s.(byId := map[], byArrival := map[]) else s
  }

  function Expired(s: State, since: UniqueTimestamp): set<UniqueTimestamp> {
    set ts | ts in s.byArrival && Before(ts, since)
  }

  /** The state without the given arrivals and the ids filed under them. */
  function Without(s: State, gone: set<UniqueTimestamp>): State
    requires gone <= s.byArrival.Keys
  {
    s.(byId := s.byId - (set ts | ts in gone :: s.byArrival[ts]), byArrival := s.byArrival - gone)
  }

  lemma WithoutOneMore(s: State, gone: set<UniqueTimestamp>, ts: UniqueTimestamp)
    requires gone <= s.byArrival.Keys && ts in s.byArrival
    ensures Without(s, gone + {ts}).byId == Without(s, gone).byId - {s.byArrival[ts]}
    ensures Without(s, gone + {ts}).byArrival == Without(s, gone).byArrival - {ts}
  {
  }

  function Expire(s: State, since: UniqueTimestamp): State {
    Without(s, Expired(s, since))
  }

  /** The collector; it needs a clock that has passed the timeout since the epoch. */
  function Collect(config: Config, s: State, now: nat): State {
    if now < config.Timeout() then Wipe(config, s)
    else Expire(Wipe(config, s), UniqueTimestamp(now - config.Timeout(), 0))
  }

  function Start(s: State, h: Header, bytes: Bytes, now: nat): State {
    var ts := UniqueTimestamp(now, s.counter);
    State(s.byId[h.id := Pending(Chunks(h.seqCount, map[h.seqNum := bytes]), ts)],
          s.byArrival[ts := h.id],
          (s.counter + 1) % TWO_64)
  }

  function PushPiece(s: State, h: Header, bytes: Bytes, now: nat): Outcome {
    if h.id !in s.byId then Outcome(Start(s, h, bytes, now), Ok(None))
    else
      var Pending(chunks, arrival) := s.byId[h.id];
      if chunks.expectedTotal != h.seqCount then Outcome(s, Err(InconsistentTotal))
      else
        var grown := chunks.Insert(h.seqNum, bytes);
        if grown.IsComplete() then
          Outcome(s.(byId := s.byId - {h.id}, byArrival := s.byArrival - {arrival}),
                  Ok(ChunkedMessage(InKeyOrder(grown.inner))))
        else Outcome(s.(byId := s.byId[h.id := Pending(grown, arrival)]), Ok(None))
  }

  /** One datagram. */
  function Step(config: Config, s: State, src: Bytes, clock: Clock): Outcome {
    var datagram := Classify(config, src);
    if datagram.Plain? then Outcome(s, Ok(SingleMessage(datagram.payload)))
    else
      var collected := Collect(config, s, clock.gc);
      if clock.gc < config.Timeout() then Outcome(collected, Err(ClockBeforeEpoch))
      else
        match datagram
        case Lone(payload) => Outcome(collected, Ok(SingleMessage(payload)))
        case Rejected(error) => Outcome(collected, Err(error))
        case Piece(header, payload) => PushPiece(collected, header, payload, clock.arrival)
  }

  /** A chunk that gets past the collector's clock and the header checks is pushed. */
  lemma StepOnPiece(config: Config, s: State, src: Bytes, clock: Clock)
    requires Classify(config, src).Piece? && clock.gc >= config.Timeout()
    ensures var datagram := Classify(config, src);
      Step(config, s, src, clock)
      == PushPiece(Collect(config, s, clock.gc), datagram.header, datagram.payload, clock.arrival)
  {
  }

  /** Which datagrams are refused, and why, with the period in nanoseconds written out. */
  lemma RefusedIff(config: Config, s: State, src: Bytes, clock: Clock)
    ensures var chunk := |src| >= 2 && src[0] == 30 && src[1] == 15;
      var early := clock.gc < config.incompleteTimeoutMs * 1_000_000;
      var r := Step(config, s, src, clock).result;
      && (r == Err(ClockBeforeEpoch) <==> chunk && early)
      && (r == Err(ShortHeader) <==> chunk && !early && |src| < 12)
      && (r == Err(BadSequence) <==> chunk && !early && |src| >= 12 && src[10] >= src[11])
      && (r == Err(TooManyChunks) <==>
            chunk && !early && |src| >= 12 && src[10] < src[11] && src[11] > 1 && src[11] > config.maxChunksPerMessage)
      && (r == Err(InconsistentTotal) <==>
            chunk && !early && |src| >= 12 && src[10] < src[11] && 1 < src[11] <= config.maxChunksPerMessage
            && var pending := Collect(config, s, clock.gc).byId;
            WireId(src) in pending && pending[WireId(src)].chunks.expectedTotal != src[11])
  {
    hide Classify, Collect;
    ClassifyMeaning(config, src);
  }

  /** A datagram that is no chunk leaves the state alone; any chunk sets off a collection, and one that is
      refused or complete by itself leaves what the collection leaves. */
  lemma OthersOnlyCollect(config: Config, s: State, src: Bytes, clock: Clock)
    ensures var chunk := |src| >= 2 && src[0] == 30 && src[1] == 15;
      var o := Step(config, s, src, clock);
      && (!chunk ==> o.state == s && o.result == Ok(SingleMessage(src)))
      && (chunk && (o.result.Err? || (|src| >= 12 && src[10] == 0 && src[11] == 1)) ==>
            o.state == Collect(config, s, clock.gc))
      && (chunk && o.result.Ok? && |src| >= 12 && src[10] == 0 && src[11] == 1 ==> o.result == Ok(SingleMessage(src[12..])))
  {
    hide Classify, Collect;
    ClassifyMeaning(config, src);
    RefusedIff(config, s, src, clock);
  }

  class Decoder {
    const config: Config
    var byId: map<u64, Pending>
    var byArrival: map<UniqueTimestamp, u64>
    var counter: u64

    constructor (config: Config)
      ensures this.config == config && Snapshot() == EMPTY
    {
      this.config := config;
      byId, byArrival, counter := map[], map[], 0;
    }

    function Snapshot(): State
      reads this
    {
      State(byId, byArrival, counter)
    }

    /** Feeds one datagram to the receiver. */
    method Decode(src: Bytes, clock: Clock) returns (r: Result<Option<Message>, Error>)
      modifies this
      ensures Outcome(Snapshot(), r) == Step(config, old(Snapshot()), src, clock)
    {
      if PeekMagic(src) == Some(MAGIC_CHUNKED) {
        var buf := new Buffer(src);
        r := Chunked(buf, clock);
      } else {
        r := Ok(SingleMessage(src));
      }
    }

    method Chunked(buf: Buffer, clock: Clock) returns (r: Result<Option<Message>, Error>)
      requires PeekMagic(buf.data) == Some(MAGIC_CHUNKED)
      modifies this, buf
      ensures Outcome(Snapshot(), r) == Step(config, old(Snapshot()), old(buf.data), clock)
    {
      var swept := Gc(clock.gc);
      if !swept {
        return Err(ClockBeforeEpoch);
      }
      var parsed := Get(buf);
      match parsed
      case Err(error) =>
        r := Err(error);
      case Ok(header) =>
        if header.seqNum == 0 && header.seqCount == 1 {
          r := Ok(SingleMessage(buf.data));
        } else if header.seqCount > config.maxChunksPerMessage {
          r := Err(TooManyChunks);
        } else {
          r := Push(header, buf.data, clock.arrival);
        }
    }

    /** Wipes a full store and removes the expired messages from both indexes. */
    method Gc(now: nat) returns (ok: bool)
      modifies this`byId, this`byArrival
      ensures ok <==> now >= config.Timeout()
      ensures Snapshot() == Collect(config, old(Snapshot()), now)
    {
      if |byId| >= config.incompleteCapacity {
        byId := map[];
        byArrival := map[];
      }
      if now < config.Timeout() {
        return false;
      }
      RemoveBefore(UniqueTimestamp(now - config.Timeout(), 0));
      return true;
    }

    /** Collects the arrivals before `since`, then removes them one by one. */
    method RemoveBefore(since: UniqueTimestamp)
      modifies this`byId, this`byArrival
      ensures Snapshot() == Expire(old(Snapshot()), since)
    {
      ghost var s, gone := Snapshot(), Expired(Snapshot(), since);
      var toRemove := map ts | ts in byArrival && Before(ts, since) :: byArrival[ts];
      var left := toRemove.Keys;
      assert left == gone;
      assert gone - left == {};
      while left != {}
        invariant left <= gone
        invariant Snapshot() == Without(s, gone - left)
      {
        var ts :| ts in left;
        assert toRemove[ts] == s.byArrival[ts];
        WithoutOneMore(s, gone - left, ts);
        assert gone - (left - {ts}) == (gone - left) + {ts};
        left := left - {ts};
        byId := byId - {toRemove[ts]};
        byArrival := byArrival - {ts};
      }
      assert gone - left == gone;
    }

    method Ts(now: nat) returns (ts: UniqueTimestamp)
      modifies this`counter
      ensures ts == UniqueTimestamp(now, old(counter))
      ensures counter == (old(counter) + 1) % TWO_64
    {
      ts := UniqueTimestamp(now, counter);
      counter := (counter + 1) % TWO_64;
    }

    method Push(header: Header, bytes: Bytes, now: nat) returns (r: Result<Option<Message>, Error>)
      modifies this
      ensures Outcome(Snapshot(), r) == PushPiece(old(Snapshot()), header, bytes, now)
    {
      if header.id !in byId {
        var ts := Ts(now);
        byArrival := byArrival[ts := header.id];
        byId := byId[header.id := Pending(Chunks(header.seqCount, map[header.seqNum := bytes]), ts)];
        return Ok(None);
      }
      var Pending(chunks, arrival) := byId[header.id];
      if chunks.expectedTotal != header.seqCount {
        return Err(InconsistentTotal);
      }
      chunks := chunks.Insert(header.seqNum, bytes);
      if chunks.IsComplete() {
        byId := byId - {header.id};
        byArrival := byArrival - {arrival};
        return Ok(ChunkedMessage(InKeyOrder(chunks.inner)));
      } else {
        byId := byId[header.id := Pending(chunks, arrival)];
        return Ok(None);
      }
    }
  }

  datatype Event = Event(src: Bytes, clock: Clock)

  /** The state after a run of datagrams. */
  function Run(config: Config, es: seq<Event>): State {
    if es == [] then EMPTY
    else
      var last := es[|es| - 1];
      Step(config, Run(config, es[..|es| - 1]), last.src, last.clock).state
  }

  /** What the receiver answers to the last datagram of a run. */
  function Answer(config: Config, es: seq<Event>): Result<Option<Message>, Error>
    requires es != []
  {
    var last := es[|es| - 1];
    Step(config, Run(config, es[..|es| - 1]), last.src, last.clock).result
  }

  /** The answers to all datagrams of a run. */
  function Answers(config: Config, es: seq<Event>): (rs: seq<Result<Option<Message>, Error>>)
    ensures |rs| == |es|
  {
    if es == [] then [] else Answers(config, es[..|es| - 1]) + [Answer(config, es)]
  }

  lemma {:induction false} AnswersAt(config: Config, es: seq<Event>, k: nat)
    requires k < |es|
    ensures Answers(config, es)[k] == Answer(config, es[..k + 1])
  {
    if k < |es| - 1 {
      AnswersAt(config, es[..|es| - 1], k);
      assert es[..|es| - 1][..k + 1] == es[..k + 1];
    } else {
      assert es[..k + 1] == es;
    }
  }

  lemma RunSnoc(config: Config, es: seq<Event>, e: Event)
    ensures Run(config, es + [e]) == Step(config, Run(config, es), e.src, e.clock).state
    ensures Answers(config, es + [e])
         == Answers(config, es) + [Step(config, Run(config, es), e.src, e.clock).result]
  {
  }

  /** A fresh decoder fed a whole run. */
  method DecodeAll(config: Config, es: seq<Event>) returns (rs: seq<Result<Option<Message>, Error>>)
    ensures rs == Answers(config, es)
  {
    var decoder := new Decoder(config);
    rs := [];
    for i := 0 to |es|
      invariant fresh(decoder) && decoder.config == config
      invariant decoder.Snapshot() == Run(config, es[..i])
      invariant rs == Answers(config, es[..i])
    {
      var r := decoder.Decode(es[i].src, es[i].clock);
      RunSnoc(config, es[..i], es[i]);
      assert es[..i + 1] == es[..i] + [es[i]];
      rs := rs + [r];
    }
    assert es[..|es|] == es;
  }
}
