/** A whole connection: reads of any sizes, the decoder after each, and the end of the stream. */
module TcpStream {
  import opened Prelude
  import opened Framing
  import opened Decode

  /** Of the stream `all`, the frames of `consumed` are out and the rest is in view. */
  ghost predicate InStep(d: Decoder, src: Buffer, all: Bytes, consumed: Bytes, frames: seq<Bytes>)
    reads d, src
  {
    && d.Valid(src)
    && d.Disposed(src, all, consumed, frames, 0)
    && d.taken + |src.data| == |all|
  }

  lemma ConsumeMore(max: nat, consumed: Bytes, passed: Bytes)
    requires Closed(consumed) && Closed(passed)
    ensures Closed(consumed + passed)
    ensures Keep(max, Segments(consumed + passed)) == Keep(max, Segments(consumed)) + Keep(max, Segments(passed))
    ensures TooLong(max, Segments(consumed + passed))
         == TooLong(max, Segments(consumed)) + TooLong(max, Segments(passed))
  {
    ClosedAppend(consumed, passed);
    SegmentsAppend(consumed, passed);
    KeepAppend(max, Segments(consumed), Segments(passed));
  }

  lemma ClosedAppend(a: Bytes, b: Bytes)
    requires Closed(a) && Closed(b)
    ensures Closed(a + b)
  {
  }

  /** More data arrives in the buffer. */
  method Arrive(d: Decoder, src: Buffer, ghost all: Bytes, ghost consumed: Bytes, ghost frames: seq<Bytes>,
                more: Bytes)
    requires InStep(d, src, all, consumed, frames)
    modifies src
    ensures InStep(d, src, all + more, consumed, frames)
  {
    ghost var data := src.data;
    src.Extend(more);
    assert src.data[..d.readHead] == data[..d.readHead];
    AppendAssoc(d.dropped, data, more);
    AppendAssoc(consumed, d.dropped + data, more);
  }

  /** One call of the decoder on a connection. */
  method Next(d: Decoder, src: Buffer, ghost all: Bytes, ghost before: Bytes, ghost frames: seq<Bytes>)
    returns (frame: Option<Bytes>, ghost consumed: Bytes)
    requires InStep(d, src, all, before, frames)
    modifies d, src
    ensures InStep(d, src, all, consumed, frames + if frame.Some? then [frame.value] else [])
    ensures |src.data| <= old(|src.data|) && (frame.Some? ==> |src.data| < old(|src.data|))
    ensures frame.None? ==> d.Drained(src)
  {
    ghost var passed;
    frame, passed := d.DecodeFrame(src);
    ConsumeMore(d.maxSizeBytes, before, passed);
    AppendAssoc(before, passed, d.View(src));
    consumed := before + passed;
  }

  /** Calls the decoder until it asks for more data. */
  method Pump(d: Decoder, src: Buffer, ghost all: Bytes, ghost before: Bytes, sofar: seq<Bytes>)
    returns (frames: seq<Bytes>, ghost consumed: Bytes)
    requires InStep(d, src, all, before, sofar)
    modifies d, src
    ensures InStep(d, src, all, consumed, frames) && d.Drained(src)
  {
    frames, consumed := sofar, before;
    var more := true;
    while more
      invariant InStep(d, src, all, consumed, frames)
      invariant !more ==> d.Drained(src)
      decreases |src.data|, more
    {
      var frame;
      frame, consumed := Next(d, src, all, consumed, frames);
      match frame
      case Some(bytes) => frames := frames + [bytes];
      case None => more := false; assert frames + [] == frames;
    }
  }

  /** A rest without a separator is no frame if it is empty or too long. */
  lemma NoFrameLeft(max: nat, rest: Bytes)
    requires NulFree(rest) && (rest == [] || |rest| > max)
    ensures Frames(max, rest) == [] && Oversized(max, rest) == if rest == [] then 0 else 1
  {
    NoSegment(rest);
  }

  /** Calls the decoder until nothing is left at the end of the stream. */
  method PumpEof(d: Decoder, src: Buffer, ghost all: Bytes, ghost before: Bytes, sofar: seq<Bytes>)
    returns (frames: seq<Bytes>)
    requires InStep(d, src, all, before, sofar)
    modifies d, src
    ensures frames == Frames(d.maxSizeBytes, all)
    ensures d.overflows == Oversized(d.maxSizeBytes, all)
    ensures Seen(d.inspected, |all|, d.overflows)
  {
    hide Seen, Span, Segments, Tail, Keep, TooLong, Oversized;
    FramesSplit(d.maxSizeBytes, before, d.View(src));
    frames := sofar;
    var more := true;
    while more
      invariant d.Valid(src)
      invariant d.taken + |src.data| == |all|
      invariant frames + Frames(d.maxSizeBytes, d.View(src)) == Frames(d.maxSizeBytes, all)
      invariant d.overflows - d.Owed() + Oversized(d.maxSizeBytes, d.View(src)) == Oversized(d.maxSizeBytes, all)
      invariant !more ==> d.Drained(src) && src.data == []
      decreases |src.data|, more
    {
      var frame := d.DecodeEof(src);
      ghost var rest := Frames(d.maxSizeBytes, d.View(src));
      match frame
      case Some(bytes) =>
        AppendAssoc(frames, [bytes], rest);
        frames := frames + [bytes];
      case None =>
        assert [] + rest == rest;
        more := false;
    }
    NoFrameLeft(d.maxSizeBytes, d.View(src));
    assert frames + [] == frames;
  }

  /** However a stream is cut into reads, exactly its fitting segments are delivered, in order;
      every oversized segment is counted once; and the separator search looks at every byte, in
      order and just once if and only if no segment is oversized. */
  method DecodeStream(maxSizeBytes: usize, pieces: seq<Bytes>)
    returns (frames: seq<Bytes>, overflows: nat, ghost inspected: seq<nat>)
    ensures frames == Frames(maxSizeBytes, Concat(pieces))
    ensures overflows == Oversized(maxSizeBytes, Concat(pieces))
    ensures forall i: nat :: i < |Concat(pieces)| ==> i in inspected
    ensures inspected == Span(0, |Concat(pieces)|) <==> Oversized(maxSizeBytes, Concat(pieces)) == 0
    ensures |inspected| > |Concat(pieces)| <==> Oversized(maxSizeBytes, Concat(pieces)) > 0
  {
    var src := new Buffer([]);
    var d := new Decoder(maxSizeBytes, src);
    frames := [];
    ghost var consumed: Bytes := [];
    for i := 0 to |pieces|
      invariant fresh(d) && fresh(src) && d.maxSizeBytes == maxSizeBytes
      invariant InStep(d, src, Concat(pieces[..i]), consumed, frames)
    {
      assert pieces[..i + 1] == pieces[..i] + [pieces[i]];
      ConcatSnoc(pieces[..i], pieces[i]);
      Arrive(d, src, Concat(pieces[..i]), consumed, frames, pieces[i]);
      frames, consumed := Pump(d, src, Concat(pieces[..i + 1]), consumed, frames);
    }
    assert pieces[..|pieces|] == pieces;
    frames := PumpEof(d, src, Concat(pieces), consumed, frames);
    overflows := d.overflows;
    inspected := d.inspected;
  }
}
