/** The receiver behind a TCP connection: no frame contains a NUL, so no chunked message
    is ever put together there, because its first chunk carries sequence number 0. */
module TcpReceive {
  import opened Prelude
  import opened ChunkHeader
  import opened Message
  import opened Gelf
  import opened Refinement
  import opened Bounds
  import opened Framing
  import opened Decode
  import opened TcpStream

  lemma {:induction false} KeepMembers(max: nat, segments: seq<Bytes>)
    requires forall k :: 0 <= k < |segments| ==> NulFree(segments[k])
    ensures forall k :: 0 <= k < |Keep(max, segments)| ==>
              NulFree(Keep(max, segments)[k]) && |Keep(max, segments)[k]| <= max
  {
    if segments != [] {
      KeepMembers(max, segments[1..]);
    }
  }

  /** Every frame is NUL-free and within the size limit. */
  lemma FramesFit(max: nat, s: Bytes)
    ensures forall k :: 0 <= k < |Frames(max, s)| ==> NulFree(Frames(max, s)[k]) && |Frames(max, s)[k]| <= max
  {
    SegmentsPartition(s);
    KeepMembers(max, Segments(s));
  }

  /** A NUL-free datagram is no lone chunk and no first chunk. */
  lemma NulFreeDatagram(config: Config, src: Bytes)
    requires NulFree(src)
    ensures !Classify(config, src).Lone?
    ensures Classify(config, src).Piece? ==> Classify(config, src).header.seqNum != 0
  {
  }

  /** No pending message has its first chunk. */
  ghost predicate Headless(s: State) {
    forall id :: id in s.byId ==> 0 !in s.byId[id].chunks.inner
  }

  /** Without a first chunk nothing completes. */
  lemma HeadlessPush(config: Config, s: State, h: Header, bytes: Bytes, now: nat)
    requires Headless(s) && AllIncomplete(config, s)
    requires 0 < h.seqNum < h.seqCount
    ensures Headless(PushPiece(s, h, bytes, now).state)
    ensures PushPiece(s, h, bytes, now).result in {Ok(None), Err(InconsistentTotal)}
  {
    if h.id in s.byId && s.byId[h.id].chunks.expectedTotal == h.seqCount {
      var c := s.byId[h.id].chunks;
      assert Incomplete(config, c);
      var grown := c.Insert(h.seqNum, bytes);
      Pigeonhole(grown.inner, grown.expectedTotal);
      assert 0 !in grown.inner;
    }
  }

  lemma HeadlessCollect(config: Config, s: State, now: nat)
    requires Headless(s)
    ensures Headless(Collect(config, s, now))
  {
  }

  lemma HeadlessStep(config: Config, s: State, e: Event)
    requires Headless(s) && AllIncomplete(config, s) && NulFree(e.src)
    ensures Headless(Step(config, s, e.src, e.clock).state)
    ensures MessageIn(Step(config, s, e.src, e.clock).result) == Delivered(e.src)
  {
    NulFreeDatagram(config, e.src);
    HeadlessCollect(config, s, e.clock.gc);
    var datagram := Classify(config, e.src);
    if datagram.Piece? && e.clock.gc >= config.Timeout() {
      CollectBounded(config, s, e.clock.gc);
      StepOnPiece(config, s, e.src, e.clock);
      HeadlessPush(config, Collect(config, s, e.clock.gc), datagram.header, datagram.payload, e.clock.arrival);
    }
  }

  lemma {:induction false} HeadlessRun(config: Config, es: seq<Event>)
    requires forall k :: 0 <= k < |es| ==> NulFree(es[k].src)
    ensures Headless(Run(config, es))
  {
    if es != [] {
      HeadlessRun(config, es[..|es| - 1]);
      RunBounded(config, es[..|es| - 1]);
      HeadlessStep(config, Run(config, es[..|es| - 1]), es[|es| - 1]);
    }
  }

  /** What becomes of a frame: itself as a single message, if it is not empty and does
      not pass itself off as a chunk; and no message otherwise. */
  function Delivered(frame: Bytes): Option<Message> {
    if frame == [] || PeekMagic(frame) == Some(MAGIC_CHUNKED) then None
    else Some(Single(Sniff(frame), frame))
  }

  function MessageIn(r: Result<Option<Message>, Error>): Option<Message> {
    if r.Ok? then r.value else None
  }

  lemma NulFreeAnswer(config: Config, es: seq<Event>)
    requires es != [] && forall k :: 0 <= k < |es| ==> NulFree(es[k].src)
    ensures MessageIn(Answer(config, es)) == Delivered(es[|es| - 1].src)
  {
    HeadlessRun(config, es[..|es| - 1]);
    RunBounded(config, es[..|es| - 1]);
    HeadlessStep(config, Run(config, es[..|es| - 1]), es[|es| - 1]);
  }

  /** A connection with its own receiver, whatever the clock reads at each frame: the messages
      are the fitting non-empty segments of the stream that do not begin with the chunk magic. */
  method ServeConnection(config: Config, maxSizeBytes: usize, pieces: seq<Bytes>, clock: nat -> Clock)
    returns (messages: seq<Option<Message>>)
    ensures var frames := Frames(maxSizeBytes, Concat(pieces));
      && |messages| == |frames|
      && forall k :: 0 <= k < |frames| ==> messages[k] == Delivered(frames[k])
  {
    var frames, overflows, inspected := DecodeStream(maxSizeBytes, pieces);
    var es := seq(|frames|, i requires 0 <= i < |frames| => Event(frames[i], clock(i)));
    var answers := DecodeAll(config, es);
    FramesFit(maxSizeBytes, Concat(pieces));
    messages := seq(|answers|, i requires 0 <= i < |answers| => MessageIn(answers[i]));
    forall k | 0 <= k < |frames|
      ensures messages[k] == Delivered(frames[k])
    {
      AnswersAt(config, es, k);
      NulFreeAnswer(config, es[..k + 1]);
    }
  }
}
