/** From a cut payload to the bytes a reader gets back: the end-to-end promise of chunking. */
module Reassembly {
  import opened Prelude
  import opened ChunkHeader
  import opened Message
  import opened Gelf
  import opened History
  import opened Refinement
  import opened Delivery
  import opened ChunkRead

  lemma SuppliedGrows(config: Config, es: seq<Event>, m: nat, id: u64, total: nat)
    requires m <= |es| && AllSupplied(config, es[..m], id, total)
    ensures AllSupplied(config, es, id, total)
  {
    forall i | 0 <= i < total
      ensures Supplied(config, es, id, total, i)
    {
      assert Supplied(config, es[..m], id, total, i);
      var k :| 0 <= k < m && Supplies(config, es[..m][k], id, total, i);
      assert Supplies(config, es[k], id, total, i);
    }
  }

  /** Until all chunks have been supplied, no prefix covers the message. */
  lemma NotYetCovered(config: Config, es: seq<Event>, id: u64, pieces: seq<Bytes>)
    requires Carries(config, es, id, pieces)
    requires !AllSupplied(config, es, id, |pieces|)
    ensures NeverCovers(config, es, id, |pieces|)
  {
    forall m | 0 < m <= |es|
      ensures !Covers(Pieces(config, es[..m], id, |pieces|), |pieces|)
    {
      CarriesPrefix(config, es, m, id, pieces);
      CoversIffAllSupplied(config, es[..m], id, pieces);
      if AllSupplied(config, es[..m], id, |pieces|) {
        SuppliedGrows(config, es, m, id, |pieces|);
      }
    }
  }

  lemma CarriesPrefix(config: Config, es: seq<Event>, m: nat, id: u64, pieces: seq<Bytes>)
    requires m <= |es| && Carries(config, es, id, pieces)
    ensures Carries(config, es[..m], id, pieces)
  {
  }

  /** After the run `pre`, the first datagram of `mid` begins message `id`, all chunks of which in
      `mid` carry `pieces`; no collection drops it, and only the last datagram may complete it. */
  ghost predicate Underway(config: Config, pre: seq<Event>, mid: seq<Event>, id: u64, pieces: seq<Bytes>) {
    && mid != []
    && Begun(config, LogRun(config, pre), mid[0], id) && IsPiece(config, mid[0], id, |pieces|)
    && Undisturbed(config, pre, mid)
    && Carries(config, mid, id, pieces)
    && !AllSupplied(config, mid[..|mid| - 1], id, |pieces|)
  }

  /** The chunks of one message, in any order, repeated at will and interleaved with any other
      datagrams, are answered with the message exactly when the last missing one arrives. */
  lemma LogReassembles(config: Config, pre: seq<Event>, mid: seq<Event>, id: u64, pieces: seq<Bytes>)
    requires Underway(config, pre, mid, id, pieces)
    ensures if AllSupplied(config, mid, id, |pieces|)
      then LogAnswer(config, pre + mid) == Ok(Some(Message.Chunked(pieces))) && id !in LogRun(config, pre + mid)
      else id in LogRun(config, pre + mid)
           && (IsPiece(config, mid[|mid| - 1], id, |pieces|) ==> LogAnswer(config, pre + mid) == Ok(None))
  {
    CoversIffAllSupplied(config, mid, id, pieces);
    CarriesPrefix(config, mid, |mid| - 1, id, pieces);
    if AllSupplied(config, mid, id, |pieces|) {
      NotYetCovered(config, mid[..|mid| - 1], id, pieces);
      DeliversWhenCovered(config, pre, mid, id, |pieces|);
    } else {
      NotYetCovered(config, mid, id, pieces);
      StaysPending(config, pre, mid, id, |pieces|);
    }
  }

  /** The same for the receiver itself: whatever it has seen before, a message that no collection
      drops is answered with nothing for its chunks but the last missing one, and that one is
      answered with the message. */
  lemma Reassembles(config: Config, pre: seq<Event>, mid: seq<Event>, id: u64, pieces: seq<Bytes>)
    requires Starts(config, pre + mid) <= TWO_64
    requires Underway(config, pre, mid, id, pieces)
    ensures if AllSupplied(config, mid, id, |pieces|)
      then Answer(config, pre + mid) == Ok(Some(Message.Chunked(pieces))) && id !in Run(config, pre + mid).byId
      else id in Run(config, pre + mid).byId
           && (IsPiece(config, mid[|mid| - 1], id, |pieces|) ==> Answer(config, pre + mid) == Ok(None))
  {
    RunRefines(config, pre + mid);
    LogReassembles(config, pre, mid, id, pieces);
  }

  // Conditions a sender and an operator can check.

  /** A datagram the sender of message `id` puts on the wire. */
  ghost predicate Sent(e: Event, id: u64, pieces: seq<Bytes>, i: int) {
    0 <= i < |pieces| < 0x100 && e.src == Encode(Header(id, i, |pieces|), pieces[i])
  }

  ghost predicate SentOf(e: Event, id: u64, pieces: seq<Bytes>) {
    exists i :: Sent(e, id, pieces, i)
  }

  /** A datagram that is no acceptable chunk of message `id`. */
  predicate Foreign(config: Config, e: Event, id: u64) {
    var datagram := Classify(config, e.src);
    !(datagram.Piece? && datagram.header.id == id)
  }

  /** A collector clock that has passed the timeout since the epoch, but not since `started`. */
  predicate Timely(config: Config, e: Event, started: nat) {
    var period := config.incompleteTimeoutMs * 1_000_000;
    period <= e.clock.gc <= started + period
  }

  lemma SentIsPiece(config: Config, e: Event, id: u64, pieces: seq<Bytes>, i: nat)
    requires Sent(e, id, pieces, i) && 2 <= |pieces| <= config.maxChunksPerMessage
    requires e.clock.gc >= config.Timeout()
    ensures Supplies(config, e, id, |pieces|, i) && WriteOf(config, e).bytes == pieces[i]
  {
    ParseInvertsEncode(Header(id, i, |pieces|), pieces[i]);
  }

  /** One datagram adds at most the id of the chunk it carries. */
  lemma LogStepKeys(config: Config, log: Log, e: Event) returns (more: set<u64>)
    ensures LogStep(config, log, e).log.Keys <= log.Keys + more
    ensures |more| <= 1 && forall id :: id in more ==> !Foreign(config, e, id)
  {
    var datagram := Classify(config, e.src);
    var l := LogCollect(config, log, e.clock.gc);
    assert l.Keys <= log.Keys;
    more := {};
    if datagram.Piece? {
      more := {datagram.header.id};
      LogPushKeys(l, datagram.header, datagram.payload, e.clock.arrival);
    }
  }

  lemma LogPushKeys(log: Log, h: Header, bytes: Bytes, now: nat)
    ensures LogPush(log, h, bytes, now).log.Keys <= log.Keys + {h.id}
  {
  }

  /** The ids of the acceptable chunks among `es`. */
  function Ids(config: Config, es: seq<Event>): set<u64> {
    set k | 0 <= k < |es| && Classify(config, es[k].src).Piece? :: Classify(config, es[k].src).header.id
  }

  /** A run leaves no id pending that was not pending before or among its chunks. */
  lemma {:induction false} LogRunKeys(config: Config, pre: seq<Event>, mid: seq<Event>)
    ensures LogRun(config, pre + mid).Keys <= LogRun(config, pre).Keys + Ids(config, mid)
  {
    hide LogRun, LogStep, Ids, Foreign;
    if mid == [] {
      assert pre + mid == pre;
    } else {
      var before, e := mid[..|mid| - 1], mid[|mid| - 1];
      LogRunKeys(config, pre, before);
      assert pre + mid == (pre + before) + [e];
      LogRunSnoc(config, pre + before, e);
      var more := LogStepKeys(config, LogRun(config, pre + before), e);
      IdsSnoc(config, before, e);
      assert mid == before + [e];
    }
  }

  lemma IdsSnoc(config: Config, es: seq<Event>, e: Event)
    ensures Ids(config, es) <= Ids(config, es + [e])
    ensures forall id :: !Foreign(config, e, id) ==> id in Ids(config, es + [e])
  {
    var longer := es + [e];
    assert longer[|es|] == e;
    forall id | id in Ids(config, es)
      ensures id in Ids(config, longer)
    {
      var k :| 0 <= k < |es| && Classify(config, es[k].src).Piece? && Classify(config, es[k].src).header.id == id;
      assert longer[k] == es[k];
    }
  }

  lemma IdsPrefix(config: Config, es: seq<Event>, m: nat)
    requires m <= |es|
    ensures Ids(config, es[..m]) <= Ids(config, es)
  {
  }

  lemma {:induction false} StartsPrefix(config: Config, pre: seq<Event>, mid: seq<Event>)
    ensures Starts(config, pre) <= Starts(config, pre + mid)
  {
    if mid == [] {
      assert pre + mid == pre;
    } else {
      StartsPrefix(config, pre, mid[..|mid| - 1]);
      assert (pre + mid)[..|pre + mid| - 1] == pre + mid[..|mid| - 1];
      StartsSnoc(config, pre + mid);
    }
  }

  /** Timely datagrams that cannot fill the receiver cause no collection that matters. */
  lemma TimelyIsUndisturbed(config: Config, pre: seq<Event>, mid: seq<Event>)
    requires mid != [] && |LogRun(config, pre).Keys + Ids(config, mid)| < config.incompleteCapacity
    requires forall k :: 0 <= k < |mid| ==> Timely(config, mid[k], mid[0].clock.arrival)
    ensures Undisturbed(config, pre, mid)
  {
    forall k | 0 < k < |mid|
      ensures Spares(config, LogRun(config, pre + mid[..k]), mid[k], mid[0].clock.arrival)
    {
      var log := LogRun(config, pre + mid[..k]);
      LogRunKeys(config, pre, mid[..k]);
      IdsPrefix(config, mid, k);
      SubsetSize(log.Keys, LogRun(config, pre).Keys + Ids(config, mid));
      assert |log| == |log.Keys| && Timely(config, mid[k], mid[0].clock.arrival);
    }
  }

  /** A transmission: the chunks of `pieces` in any order and with any repetitions, interleaved
      with other datagrams, timely, while the id is not pending and the receiver has room for
      everything that is pending or may become so. */
  ghost predicate Transmission(config: Config, pre: seq<Event>, mid: seq<Event>, id: u64, pieces: seq<Bytes>) {
    && 2 <= |pieces| <= config.maxChunksPerMessage
    && Starts(config, pre + mid) <= TWO_64
    && id !in Run(config, pre).byId
    && |Run(config, pre).byId.Keys + Ids(config, mid)| < config.incompleteCapacity
    && mid != [] && SentOf(mid[0], id, pieces)
    && (forall k :: 0 <= k < |mid| ==>
          Timely(config, mid[k], mid[0].clock.arrival)
          && (Foreign(config, mid[k], id) || SentOf(mid[k], id, pieces)))
  }

  ghost predicate SentAmong(es: seq<Event>, id: u64, pieces: seq<Bytes>, i: int) {
    exists k :: 0 <= k < |es| && Sent(es[k], id, pieces, i)
  }

  ghost predicate AllSent(es: seq<Event>, id: u64, pieces: seq<Bytes>) {
    forall i :: 0 <= i < |pieces| ==> SentAmong(es, id, pieces, i)
  }

  lemma TransmissionCarries(config: Config, pre: seq<Event>, mid: seq<Event>, id: u64, pieces: seq<Bytes>)
    requires Transmission(config, pre, mid, id, pieces)
    ensures Carries(config, mid, id, pieces)
  {
    hide Run, Starts, Ids;
    forall k | 0 <= k < |mid| && IsPiece(config, mid[k], id, |pieces|)
      ensures WriteOf(config, mid[k]).bytes == pieces[WriteOf(config, mid[k]).seqNum]
    {
      assert Timely(config, mid[k], mid[0].clock.arrival);
      var i :| Sent(mid[k], id, pieces, i);
      SentIsPiece(config, mid[k], id, pieces, i);
    }
  }

  lemma SuppliedIffSent(config: Config, es: seq<Event>, id: u64, pieces: seq<Bytes>, i: nat)
    requires 2 <= |pieces| <= config.maxChunksPerMessage && i < |pieces|
    requires forall k :: 0 <= k < |es| ==>
               es[k].clock.gc >= config.Timeout()
               && (Foreign(config, es[k], id) || SentOf(es[k], id, pieces))
    ensures Supplied(config, es, id, |pieces|, i) <==> SentAmong(es, id, pieces, i)
  {
    forall k | 0 <= k < |es|
      ensures Supplies(config, es[k], id, |pieces|, i) <==> Sent(es[k], id, pieces, i)
    {
      if !Foreign(config, es[k], id) {
        var i' :| Sent(es[k], id, pieces, i');
        SentIsPiece(config, es[k], id, pieces, i');
      }
      if Sent(es[k], id, pieces, i) {
        SentIsPiece(config, es[k], id, pieces, i);
      }
    }
  }

  lemma TransmissionPieces(config: Config, pre: seq<Event>, mid: seq<Event>, id: u64, pieces: seq<Bytes>)
    requires Transmission(config, pre, mid, id, pieces)
    ensures forall k :: 0 <= k < |mid| && !Foreign(config, mid[k], id) ==> IsPiece(config, mid[k], id, |pieces|)
    ensures IsPiece(config, mid[0], id, |pieces|)
  {
    forall k | 0 <= k < |mid| && !Foreign(config, mid[k], id)
      ensures IsPiece(config, mid[k], id, |pieces|)
    {
      assert Timely(config, mid[k], mid[0].clock.arrival);
      var i :| Sent(mid[k], id, pieces, i);
      SentIsPiece(config, mid[k], id, pieces, i);
    }
    assert Timely(config, mid[0], mid[0].clock.arrival);
    var first :| Sent(mid[0], id, pieces, first);
    SentIsPiece(config, mid[0], id, pieces, first);
  }

  /** A chunk of an id that is not pending begins it. */
  lemma NotPendingBegins(config: Config, log: Log, e: Event, id: u64, total: nat)
    requires id !in log && IsPiece(config, e, id, total)
    ensures Begun(config, log, e, id)
  {
  }

  lemma TransmissionUnderway(config: Config, pre: seq<Event>, mid: seq<Event>, id: u64, pieces: seq<Bytes>)
    requires Transmission(config, pre, mid, id, pieces)
    requires !AllSent(mid[..|mid| - 1], id, pieces)
    ensures Underway(config, pre, mid, id, pieces)
  {
    hide LogRun, Run, Begun, IsPiece, Spares, Undisturbed, Carries, AllSent, AllSupplied, Foreign, Ids, Sent, Starts;
    StartsPrefix(config, pre, mid);
    RunRefines(config, pre);
    TransmissionPieces(config, pre, mid, id, pieces);
    NotPendingBegins(config, LogRun(config, pre), mid[0], id, |pieces|);
    TimelyIsUndisturbed(config, pre, mid);
    TransmissionCarries(config, pre, mid, id, pieces);
    SentIffSupplied(config, mid[..|mid| - 1], id, pieces);
  }

  /** Each transmission is answered with nothing for its chunks but the last missing one,
      and that one is answered with the message. */
  lemma TransmissionReassembles(config: Config, pre: seq<Event>, mid: seq<Event>, id: u64, pieces: seq<Bytes>)
    requires Transmission(config, pre, mid, id, pieces)
    requires !AllSent(mid[..|mid| - 1], id, pieces)
    ensures AllSent(mid, id, pieces) ==>
      Answer(config, pre + mid) == Ok(Some(Message.Chunked(pieces))) && id !in Run(config, pre + mid).byId
    ensures !AllSent(mid, id, pieces) ==>
      id in Run(config, pre + mid).byId
      && (!Foreign(config, mid[|mid| - 1], id) ==> Answer(config, pre + mid) == Ok(None))
  {
    hide Step, Run, LogRun, Answer, IsPiece, Underway, AllSent, AllSupplied, Foreign, Ids, Sent, Starts;
    TransmissionPieces(config, pre, mid, id, pieces);
    TransmissionUnderway(config, pre, mid, id, pieces);
    SentIffSupplied(config, mid, id, pieces);
    Reassembles(config, pre, mid, id, pieces);
  }

  /** All pieces in order, at a standing clock. */
  function InOrder(id: u64, pieces: seq<Bytes>, now: nat): seq<Event>
    requires |pieces| < 0x100
  {
    seq(|pieces|, i requires 0 <= i < |pieces| => Event(Encode(Header(id, i, |pieces|), pieces[i]), Clock(now, now)))
  }

  lemma InOrderSent(config: Config, id: u64, pieces: seq<Bytes>, now: nat, k: nat)
    requires 2 <= |pieces| <= config.maxChunksPerMessage && now >= config.Timeout() && k < |pieces|
    ensures var e := InOrder(id, pieces, now)[k];
      && Sent(e, id, pieces, k) && Timely(config, e, now)
      && Classify(config, e.src).Piece? && Classify(config, e.src).header.id == id
  {
    ParseInvertsEncode(Header(id, k, |pieces|), pieces[k]);
  }

  lemma OneId(config: Config, es: seq<Event>, id: u64)
    requires forall k :: 0 <= k < |es| ==> Classify(config, es[k].src).Piece? && Classify(config, es[k].src).header.id == id
    ensures |Run(config, []).byId.Keys + Ids(config, es)| <= 1
  {
    SubsetSize(Run(config, []).byId.Keys + Ids(config, es), {id});
  }

  lemma EachSent(es: seq<Event>, id: u64, pieces: seq<Bytes>)
    requires |es| == |pieces| && forall k :: 0 <= k < |es| ==> Sent(es[k], id, pieces, k)
    ensures AllSent(es, id, pieces)
  {
    hide Sent;
    forall i | 0 <= i < |pieces|
      ensures SentAmong(es, id, pieces, i)
    {
      assert Sent(es[i], id, pieces, i);
    }
  }

  lemma InOrderTimely(config: Config, id: u64, pieces: seq<Bytes>, now: nat, k: nat)
    requires 2 <= |pieces| <= config.maxChunksPerMessage && now >= config.Timeout() && k < |pieces|
    ensures var mid := InOrder(id, pieces, now);
      Timely(config, mid[k], mid[0].clock.arrival) && SentOf(mid[k], id, pieces)
  {
    hide Encode, Sent, Classify;
    InOrderSent(config, id, pieces, now, k);
  }

  lemma FreshTransmission(config: Config, mid: seq<Event>, id: u64, pieces: seq<Bytes>)
    requires 2 <= |pieces| <= config.maxChunksPerMessage && config.incompleteCapacity >= 2
    requires mid != [] && |mid| <= 0x100
    requires forall k :: 0 <= k < |mid| ==>
               Timely(config, mid[k], mid[0].clock.arrival) && SentOf(mid[k], id, pieces)
    requires |Run(config, []).byId.Keys + Ids(config, mid)| <= 1
    ensures Transmission(config, [], mid, id, pieces)
  {
    assert id !in Run(config, []).byId;
    hide Run, Classify, Encode, Ids, Starts, SentOf, Timely, Foreign;
    assert [] + mid == mid;
    StartsBound(config, mid);
  }

  /** Sending all pieces in order to a fresh receiver is a transmission, complete with the last one. */
  lemma InOrderTransmission(config: Config, id: u64, pieces: seq<Bytes>, now: nat)
    requires 2 <= |pieces| <= config.maxChunksPerMessage && config.incompleteCapacity >= 2
    requires now >= config.Timeout()
    ensures var mid := InOrder(id, pieces, now);
      && Transmission(config, [], mid, id, pieces)
      && AllSent(mid, id, pieces) && !AllSent(mid[..|mid| - 1], id, pieces)
  {
    var mid := InOrder(id, pieces, now);
    assert |mid| == |pieces|;
    hide *;
    forall k | 0 <= k < |mid|
      ensures Timely(config, mid[k], mid[0].clock.arrival) && SentOf(mid[k], id, pieces)
      ensures Sent(mid[k], id, pieces, k)
      ensures Classify(config, mid[k].src).Piece? && Classify(config, mid[k].src).header.id == id
    {
      InOrderSent(config, id, pieces, now, k);
      InOrderTimely(config, id, pieces, now, k);
    }
    OneId(config, mid, id);
    FreshTransmission(config, mid, id, pieces);
    EachSent(mid, id, pieces);
    LastNotSent(id, pieces, now);
  }

  lemma LastNotSent(id: u64, pieces: seq<Bytes>, now: nat)
    requires 2 <= |pieces| < 0x100
    ensures !AllSent(InOrder(id, pieces, now)[..|pieces| - 1], id, pieces)
  {
    var mid, last := InOrder(id, pieces, now)[..|pieces| - 1], |pieces| - 1;
    forall k | 0 <= k < |mid|
      ensures !Sent(mid[k], id, pieces, last)
    {
      ParseInvertsEncode(Header(id, k, |pieces|), pieces[k]);
      ParseInvertsEncode(Header(id, last, |pieces|), pieces[last]);
    }
    assert !SentAmong(mid, id, pieces, last);
  }

  lemma SentIffSupplied(config: Config, es: seq<Event>, id: u64, pieces: seq<Bytes>)
    requires 2 <= |pieces| <= config.maxChunksPerMessage
    requires forall k :: 0 <= k < |es| ==>
               es[k].clock.gc >= config.Timeout()
               && (Foreign(config, es[k], id) || SentOf(es[k], id, pieces))
    ensures AllSent(es, id, pieces) <==> AllSupplied(config, es, id, |pieces|)
  {
    forall i: nat | i < |pieces|
      ensures Supplied(config, es, id, |pieces|, i) <==> SentAmong(es, id, pieces, i)
    {
      SuppliedIffSent(config, es, id, pieces, i);
    }
  }

  /** Chunk `i` of a message of two. */
  function OfTwo(id: u64, i: u8, pieces: seq<Bytes>, clock: Clock): Event
    requires |pieces| == 2 && i < 2
  {
    Event(Encode(Header(id, i, 2), pieces[i]), clock)
  }

  lemma FirstOfTwo(config: Config, log: Log, id: u64, i: u8, pieces: seq<Bytes>, clock: Clock)
    requires |pieces| == 2 && i < 2 && config.maxChunksPerMessage >= 2
    requires id !in log && clock.gc >= config.Timeout()
    ensures var next := LogStep(config, log, OfTwo(id, i, pieces, clock)).log;
      id in next && next[id] == Entry(2, clock.arrival, [Write(i, pieces[i])])
  {
    hide LogStep;
    var e := OfTwo(id, i, pieces, clock);
    ParseInvertsEncode(Header(id, i, 2), pieces[i]);
    assert IsPiece(config, e, id, 2) && WriteOf(config, e) == Write(i, pieces[i]);
    NotPendingBegins(config, log, e, id, 2);
    BegunStep(config, log, e, id, 2);
  }

  lemma BothWritten(pieces: seq<Bytes>, i: u8)
    requires |pieces| == 2 && i < 2
    ensures var ws := [Write(i, pieces[i])] + [Write(1 - i, pieces[1 - i])];
      Covers(ws, 2) && Assemble(ws, 2) == pieces
  {
    var ws := [Write(i, pieces[i])] + [Write(1 - i, pieces[1 - i])];
    LastWriteSnoc([Write(i, pieces[i])], Write(1 - i, pieces[1 - i]), 0);
    LastWriteSnoc([Write(i, pieces[i])], Write(1 - i, pieces[1 - i]), 1);
    LastWriteSnoc([], Write(i, pieces[i]), i);
    assert [] + [Write(i, pieces[i])] == [Write(i, pieces[i])];
    assert LastWrite(ws, 0) == Some(pieces[0]) && LastWrite(ws, 1) == Some(pieces[1]);
  }

  lemma SecondOfTwo(config: Config, log: Log, id: u64, i: u8, pieces: seq<Bytes>, started: nat, clock: Clock)
    requires |pieces| == 2 && i < 2 && config.maxChunksPerMessage >= 2 && |log| < config.incompleteCapacity
    requires id in log && log[id] == Entry(2, started, [Write(i, pieces[i])])
    ensures var period := config.incompleteTimeoutMs * 1_000_000;
      LogStep(config, log, OfTwo(id, 1 - i, pieces, clock)).result
      == if clock.gc < period then Err(ClockBeforeEpoch)
         else if clock.gc <= started + period then Ok(Some(Message.Chunked(pieces)))
         else Ok(None)
  {
    hide LogCollect, Encode, Covers, Assemble;
    ParseInvertsEncode(Header(id, 1 - i, 2), pieces[1 - i]);
    LogSurvives(config, log, id, clock.gc);
    BothWritten(pieces, i);
  }

  /** When the period ends: after any run, the second chunk of a message of two completes it exactly up to the
      configured milliseconds after the first, by the collector's clock; later it begins a new message. */
  lemma TwoChunks(config: Config, pre: seq<Event>, id: u64, i: u8, pieces: seq<Bytes>, first: Clock, second: Clock)
    requires |pieces| == 2 && i < 2 && config.maxChunksPerMessage >= 2
    requires var begun := pre + [OfTwo(id, i, pieces, first)];
      && Starts(config, begun + [OfTwo(id, 1 - i, pieces, second)]) <= TWO_64
      && |Run(config, begun).byId| < config.incompleteCapacity
    requires id !in Run(config, pre).byId && first.gc >= config.incompleteTimeoutMs * 1_000_000
    ensures var period := config.incompleteTimeoutMs * 1_000_000;
      Answer(config, pre + [OfTwo(id, i, pieces, first)] + [OfTwo(id, 1 - i, pieces, second)])
      == if second.gc < period then Err(ClockBeforeEpoch)
         else if second.gc <= first.arrival + period then Ok(Some(Message.Chunked(pieces)))
         else Ok(None)
  {
    hide Run, LogRun, Starts, Answer, LogStep, OfTwo;
    var e, f := OfTwo(id, i, pieces, first), OfTwo(id, 1 - i, pieces, second);
    StartsPrefix(config, pre + [e], [f]);
    StartsPrefix(config, pre, [e]);
    RunRefines(config, pre);
    RunRefines(config, pre + [e]);
    RunRefines(config, pre + [e] + [f]);
    LogRunSnoc(config, pre, e);
    LogRunSnoc(config, pre + [e], f);
    FirstOfTwo(config, LogRun(config, pre), id, i, pieces, first);
    SameSize(Run(config, pre + [e]).byId, LogRun(config, pre + [e]));
    SecondOfTwo(config, LogRun(config, pre + [e]), id, i, pieces, first.arrival, second);
  }

  lemma SameSize(byId: map<u64, Pending>, log: Log)
    requires byId.Keys == log.Keys
    ensures |byId| == |log|
  {
    assert |byId| == |byId.Keys| && |log| == |log.Keys|;
  }

  /** A receiver and a reader behind it: the bytes of the last message, if there is one. */
  method ReceiveAndRead(config: Config, es: seq<Event>, bufferSize: nat) returns (out: Option<Bytes>)
    requires es != [] && bufferSize > 0
    ensures match Answer(config, es)
      case Ok(Some(m)) => out == Some(Payload(m))
      case _ => out == None
  {
    var answers := DecodeAll(config, es);
    var last := answers[|es| - 1];
    AnswersAt(config, es, |es| - 1);
    assert es[..|es|] == es;
    if last.Ok? && last.value.Some? {
      var bytes := ReadToEnd(last.value.value, bufferSize);
      out := Some(bytes);
    } else {
      out := None;
    }
  }

  /** The round trip: what comes out of the reader is the payload that was cut into chunks. */
  method RoundTrip(config: Config, pre: seq<Event>, mid: seq<Event>, ghost id: u64, ghost pieces: seq<Bytes>,
                   bufferSize: nat)
    returns (out: Option<Bytes>)
    requires Starts(config, pre + mid) <= TWO_64 && bufferSize > 0
    requires Underway(config, pre, mid, id, pieces) && AllSupplied(config, mid, id, |pieces|)
    ensures out == Some(Concat(pieces))
  {
    out := ReceiveAndRead(config, pre + mid, bufferSize);
    Reassembles(config, pre, mid, id, pieces);
  }
}
