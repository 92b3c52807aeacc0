/** What the receiver can hold, in every reachable state and with no assumption on the clock. */
module Bounds {
  import opened Prelude
  import opened ChunkHeader
  import opened Message
  import opened Gelf
  import opened Refinement

  function Max(a: nat, b: nat): nat {
    if a >= b then a else b
  }

  ghost function AnyId(byId: map<u64, Pending>): (id: u64)
    requires byId != map[]
    ensures id in byId
  {
    var id :| id in byId;
    id
  }

  /** The number of stored chunks, message by message. */
  ghost function Stored(byId: map<u64, Pending>): nat
    decreases |byId|
  {
    if byId == map[] then 0
    else
      var id := AnyId(byId);
      RemoveOne(byId, id);
      |byId[id].chunks.inner| + Stored(byId - {id})
  }

  lemma CollectBounded(config: Config, s: State, now: nat)
    requires AllIncomplete(config, s)
    ensures AllIncomplete(config, Collect(config, s, now))
    ensures |Collect(config, s, now).byId| < Max(1, config.incompleteCapacity)
  {
    var w, c := Wipe(config, s), Collect(config, s, now);
    assert c.byId.Keys <= w.byId.Keys;
    SubsetSize(c.byId.Keys, w.byId.Keys);
    assert |c.byId| == |c.byId.Keys| && |w.byId| == |w.byId.Keys|;
  }

  lemma PushSize(s: State, h: Header, bytes: Bytes, now: nat)
    ensures |PushPiece(s, h, bytes, now).state.byId| <= |s.byId| + 1
  {
  }

  /** Pushing a piece keeps every pending message incomplete. */
  lemma PushIncomplete(config: Config, s: State, h: Header, bytes: Bytes, now: nat)
    requires AllIncomplete(config, s)
    requires h.seqNum < h.seqCount && 2 <= h.seqCount <= config.maxChunksPerMessage
    ensures AllIncomplete(config, PushPiece(s, h, bytes, now).state)
  {
    if h.id !in s.byId {
      FirstIncomplete(config, h, bytes);
    } else if s.byId[h.id].chunks.expectedTotal == h.seqCount {
      GrownIncomplete(config, s.byId[h.id].chunks, h.seqNum, bytes);
    }
  }

  lemma StepBounded(config: Config, s: State, e: Event)
    requires AllIncomplete(config, s) && |s.byId| <= Max(1, config.incompleteCapacity)
    ensures var t := Step(config, s, e.src, e.clock).state;
      AllIncomplete(config, t) && |t.byId| <= Max(1, config.incompleteCapacity)
  {
    var c, t := Collect(config, s, e.clock.gc), Step(config, s, e.src, e.clock).state;
    var datagram := Classify(config, e.src);
    if datagram.Plain? {
      assert t == s;
    } else {
      CollectBounded(config, s, e.clock.gc);
      if datagram.Piece? && e.clock.gc >= config.Timeout() {
        PushSize(c, datagram.header, datagram.payload, e.clock.arrival);
        PushIncomplete(config, c, datagram.header, datagram.payload, e.clock.arrival);
      } else {
        assert t == c;
      }
    }
  }

  /** In every reachable state at most max(1, capacity) messages are pending, each expecting
      between 2 and the permitted number of chunks, holding at least one and missing at least one. */
  lemma {:induction false} RunBounded(config: Config, es: seq<Event>)
    ensures AllIncomplete(config, Run(config, es))
    ensures |Run(config, es).byId| <= Max(1, config.incompleteCapacity)
  {
    if es != [] {
      RunBounded(config, es[..|es| - 1]);
      StepBounded(config, Run(config, es[..|es| - 1]), es[|es| - 1]);
    }
  }

  lemma {:induction false} StoredSize(byId: map<u64, Pending>, most: nat)
    requires forall id :: id in byId ==> |byId[id].chunks.inner| <= most
    ensures Stored(byId) <= |byId| * most
    decreases |byId|
  {
    if byId != map[] {
      var id := AnyId(byId);
      RemoveOne(byId, id);
      StoredSize(byId - {id}, most);
      OneMore(|byId - {id}|, most);
    }
  }

  lemma OneMore(a: nat, most: nat)
    ensures (a + 1) * most == a * most + most
  {
  }

  lemma Scale(a: nat, b: nat, most: nat)
    requires a <= b
    ensures a * most <= b * most
  {
  }

  lemma StoredInState(config: Config, s: State)
    requires AllIncomplete(config, s)
    ensures config.maxChunksPerMessage >= 2 ==> Stored(s.byId) <= |s.byId| * (config.maxChunksPerMessage - 1)
    ensures config.maxChunksPerMessage < 2 ==> s.byId == map[]
  {
    if config.maxChunksPerMessage >= 2 {
      StoredSize(s.byId, config.maxChunksPerMessage - 1);
    } else {
      assert s.byId.Keys == {};
    }
  }

  /** The number of stored chunks is bounded too, and nothing at all is stored
      when no chunked message is permitted. */
  lemma StoredBounded(config: Config, es: seq<Event>)
    ensures config.maxChunksPerMessage >= 2 ==>
      Stored(Run(config, es).byId) <= Max(1, config.incompleteCapacity) * (config.maxChunksPerMessage - 1)
    ensures config.maxChunksPerMessage < 2 ==> Run(config, es).byId == map[]
  {
    RunBounded(config, es);
    var s := Run(config, es);
    StoredInState(config, s);
    if config.maxChunksPerMessage >= 2 {
      Scale(|s.byId|, Max(1, config.incompleteCapacity), config.maxChunksPerMessage - 1);
    }
  }

  /** A datagram that is answered with an error leaves behind what the collector alone would. */
  lemma ErrorsOnlyCollect(config: Config, s: State, src: Bytes, clock: Clock)
    requires Step(config, s, src, clock).result.Err?
    ensures Step(config, s, src, clock).state == Collect(config, s, clock.gc)
  {
  }
}
