/** The incremental frame decoder of a TCP connection. */
module Decode {
  import opened Prelude
  import opened Framing

  const USIZE_MAX: nat := 0xffff_ffff_ffff_ffff
  type usize = x: int | 0 <= x <= USIZE_MAX

  function SaturatingAdd(a: usize, b: usize): usize {
    Min(a + b, USIZE_MAX)
  }

  class Decoder {
    const maxSizeBytes: usize
    var readHead: nat
    var discarding: bool
    /** The overflow metric. */
    var overflows: nat
    /** The stream offsets the separator search has looked at, one by one. */
    ghost var inspected: seq<nat>
    /** How many bytes have been removed from the buffer. */
    ghost var taken: nat
    /** What has been thrown away of the current segment. */
    ghost var dropped: Bytes

    constructor (maxSizeBytes: usize, src: Buffer)
      requires src.data == []
      ensures this.maxSizeBytes == maxSizeBytes && Valid(src)
      ensures dropped == [] && !discarding && overflows == 0 && inspected == [] && taken == 0
    {
      this.maxSizeBytes := maxSizeBytes;
      readHead, discarding, overflows := 0, false, 0;
      inspected, taken, dropped := [], 0, [];
    }

    /** What holds between calls, also after more data has arrived in `src`. */
    ghost predicate Valid(src: Buffer)
      reads this, src
    {
      && HeadInRange(src)
      && CostsAddUp()
      && NulFree(dropped)
      && (if discarding then readHead == 0 && |dropped| > maxSizeBytes else dropped == [])
    }

    ghost predicate HeadInRange(src: Buffer)
      reads this, src
    {
      readHead <= |src.data| && readHead <= maxSizeBytes && NulFree(src.data[..readHead])
    }

    /** Nothing is inspected twice, except because of an overflow. */
    ghost predicate CostsAddUp()
      reads this
    {
      Seen(inspected, taken + readHead, overflows) && (discarding ==> overflows > 0)
    }

    /** The current segment and what follows it, thrown away bytes included. */
    ghost function View(src: Buffer): Bytes
      reads this, src
    {
      dropped + src.data
    }

    ghost function Owed(): nat
      reads this
    {
      if discarding then 1 else 0
    }

    /** Searches for the next separator from the read head. */
    method Search(src: Buffer) returns (end: nat)
      requires HeadInRange(src) && Seen(inspected, taken + readHead, overflows)
      modifies this`inspected
      ensures readHead <= end <= |src.data| && NulFree(src.data[..end])
      ensures end < |src.data| ==> src.data[end] == 0
      ensures inspected == old(inspected) + Span(taken + readHead, Min(end + 1, |src.data|) - readHead)
      ensures Seen(inspected, taken + Min(end + 1, |src.data|), overflows)
    {
      end := FindNul(src.data, readHead);
      assert forall k :: 0 <= k < end ==> src.data[k] == if k < readHead then src.data[..readHead][k] else src.data[k];
      SeenMore(inspected, taken + readHead, Min(end + 1, |src.data|) - readHead, overflows);
      inspected := inspected + Span(taken + readHead, Min(end + 1, |src.data|) - readHead);
    }

    /** What holds within the loop: a segment being discarded is known to be too long. */
    ghost predicate Working(src: Buffer)
      reads this, src
    {
      && HeadInRange(src)
      && CostsAddUp()
      && NulFree(dropped)
      && (if discarding then LongStart(maxSizeBytes, View(src)) else dropped == [])
    }

    method StartDiscarding(ghost scanned: nat)
      requires !discarding && Seen(inspected, taken + scanned, overflows) && scanned > readHead
      modifies this`overflows, this`discarding
      ensures discarding && overflows == old(overflows) + 1 && CostsAddUp()
    {
      SeenAgain(inspected, taken + scanned, taken + readHead, overflows);
      overflows := overflows + 1;
      discarding := true;
    }

    /** Splits the segment that ends at `end` off the buffer. */
    method TakeFrame(src: Buffer, end: nat) returns (frame: Bytes)
      requires !discarding && end < |src.data| && Seen(inspected, taken + (end + 1), overflows)
      modifies this`readHead, this`taken, src
      ensures frame == old(src.data)[..end] && src.data == old(src.data)[end + 1..]
      ensures readHead == 0 && taken == old(taken) + end + 1 && CostsAddUp()
    {
      readHead := 0;
      taken := taken + end + 1;
      var split := src.SplitTo(end + 1);
      frame := split[..|split| - 1];
    }

    /** Throws away the rest of an oversized segment, which ends at `end`. */
    method SkipSegment(src: Buffer, end: nat)
      requires discarding && overflows > 0 && end < |src.data| && Seen(inspected, taken + (end + 1), overflows)
      modifies this`readHead, this`taken, this`dropped, this`discarding, src
      ensures src.data == old(src.data)[end + 1..] && dropped == []
      ensures !discarding && readHead == 0 && taken == old(taken) + end + 1 && CostsAddUp()
    {
      src.Advance(end + 1);
      discarding := false;
      readHead := 0;
      dropped := [];
      taken := taken + end + 1;
    }

    /** Throws away `n` bytes of an oversized segment whose end is not in sight. */
    method DropBuffered(src: Buffer, n: nat)
      requires discarding && overflows > 0 && n <= |src.data| && Seen(inspected, taken + |src.data|, overflows)
      requires NulFree(dropped) && NulFree(src.data)
      modifies this`readHead, this`taken, this`dropped, src
      ensures src.data == old(src.data)[n..] && View(src) == old(View(src))
      ensures NulFree(dropped) && NulFree(src.data)
      ensures readHead == 0 && taken == old(taken) + n && CostsAddUp()
    {
      DropMore(dropped, src.data, n);
      SeenLess(inspected, taken + |src.data|, taken + n, overflows);
      dropped := dropped + src.data[..n];
      taken := taken + n;
      src.Advance(n);
      readHead := 0;
    }

    /** Of the stream `all`, `passed` has been disposed of with the frames `kept`,
        and every oversized segment met so far has been counted on top of `base`. */
    ghost predicate Disposed(src: Buffer, all: Bytes, passed: Bytes, kept: seq<Bytes>, base: int)
      reads this, src
    {
      && all == passed + View(src) && Closed(passed)
      && Keep(maxSizeBytes, Segments(passed)) == kept
      && overflows == base + TooLong(maxSizeBytes, Segments(passed)) + Owed()
    }

    /** The search has looked at the first `scanned` bytes of the buffer. */
    ghost predicate Searched(src: Buffer, scanned: nat)
      reads this, src
    {
      && readHead <= scanned <= |src.data| && readHead <= maxSizeBytes && NulFree(src.data[..readHead])
      && Seen(inspected, taken + scanned, overflows)
      && (discarding ==> overflows > 0)
      && NulFree(dropped)
      && (if discarding then LongStart(maxSizeBytes, View(src)) else dropped == [])
    }

    /** Where a separator is found. */
    ghost predicate Found(src: Buffer, end: nat)
      reads this, src
    {
      && end < |src.data| && NulFree(src.data[..end]) && src.data[end] == 0
      && readHead <= end && Searched(src, end + 1)
    }

    method EmitFrame(src: Buffer, end: nat, ghost all: Bytes, ghost passed: Bytes, ghost base: int)
      returns (frame: Bytes, ghost next: Bytes)
      requires Found(src, end) && !discarding && end <= maxSizeBytes
      requires Disposed(src, all, passed, [], base)
      modifies this, src
      ensures Valid(src) && Disposed(src, all, next, [frame], base)
      ensures taken + |src.data| == old(taken + |src.data|) && |src.data| < old(|src.data|)
      ensures !discarding
    {
      hide Keep, TooLong, Segments;
      ghost var data := src.data;
      CloseView(maxSizeBytes, passed, [], data, end);
      frame := TakeFrame(src, end);
      assert [] + frame == frame && [] + data == data && [] + src.data == src.data;
      next := passed + (frame + [0]);
    }

    method EndDiscard(src: Buffer, end: nat, ghost all: Bytes, ghost passed: Bytes, ghost base: int)
      returns (ghost next: Bytes)
      requires Found(src, end) && discarding
      requires Disposed(src, all, passed, [], base)
      modifies this, src
      ensures Valid(src) && Disposed(src, all, next, [], base)
      ensures taken + |src.data| == old(taken + |src.data|) && |src.data| < old(|src.data|)
    {
      ghost var gone, data := dropped, src.data;
      CloseView(maxSizeBytes, passed, gone, data, end);
      SkipSegment(src, end);
      assert [] + src.data == src.data;
      next := passed + (gone + data[..end] + [0]);
    }

    /** A separator is at `end`: a frame, or the end of an oversized segment. */
    method OnSeparator(src: Buffer, end: nat, ghost all: Bytes, ghost passed: Bytes, ghost base: int)
      returns (verdict: Verdict, ghost next: Bytes)
      requires Found(src, end)
      requires Disposed(src, all, passed, [], base)
      modifies this, src
      ensures Working(src) && !verdict.NeedMore?
      ensures Disposed(src, all, next, if verdict.Frame? then [verdict.bytes] else [], base)
      ensures taken + |src.data| == old(taken + |src.data|)
      ensures verdict.Frame? ==> Valid(src) && |src.data| < old(|src.data|)
      ensures verdict.Again? ==>
        |src.data| < old(|src.data|) || (|src.data| == old(|src.data|) && discarding && !old(discarding))
    {
      if !discarding && end > maxSizeBytes {
        assert forall k :: 0 <= k < end ==> src.data[k] == src.data[..end][k];
        StartDiscarding(end + 1);
        verdict, next := Again, passed;
      } else if !discarding {
        var bytes;
        bytes, next := EmitFrame(src, end, all, passed, base);
        verdict := Frame(bytes);
      } else {
        next := EndDiscard(src, end, all, passed, base);
        verdict := Again;
      }
    }

    /** No separator is in sight: wait, or throw away what is too long already. */
    method OnNoSeparator(src: Buffer, ghost all: Bytes, ghost passed: Bytes, ghost base: int)
      returns (verdict: Verdict)
      requires NulFree(src.data) && Searched(src, |src.data|)
      requires Disposed(src, all, passed, [], base)
      modifies this, src
      ensures Working(src) && !verdict.Frame?
      ensures old(discarding) ==>
        taken == old(taken) + Min(Min(maxSizeBytes + 1, 0xffff_ffff_ffff_ffff), |old(src.data)|)
      ensures Disposed(src, all, passed, [], base)
      ensures taken + |src.data| == old(taken + |src.data|)
      ensures verdict.NeedMore? ==> Valid(src) && Drained(src) && |src.data| <= old(|src.data|)
      ensures verdict.Again? ==>
        |src.data| < old(|src.data|) || (|src.data| == old(|src.data|) && discarding && !old(discarding))
    {
      hide Keep, TooLong, Segments, Closed;
      var readTo := Min(SaturatingAdd(maxSizeBytes, 1), |src.data|);
      if !discarding {
        if |src.data| > maxSizeBytes {
          StartDiscarding(|src.data|);
          return Again;
        }
        readHead := readTo;
        return NeedMore;
      }
      DropBuffered(src, readTo);
      return if src.data == [] then NeedMore else Again;
    }

    /** What holds when more data is needed: the buffer is within the limit and searched through. */
    ghost predicate Drained(src: Buffer)
      reads this, src
    {
      && NulFree(View(src)) && |src.data| <= maxSizeBytes && readHead == |src.data|
      && (discarding ==> src.data == [])
    }

    /** One turn of the decoding loop. */
    method Turn(src: Buffer, ghost all: Bytes, ghost passed: Bytes, ghost base: int)
      returns (verdict: Verdict, ghost next: Bytes)
      requires Working(src) && Disposed(src, all, passed, [], base)
      modifies this, src
      ensures Working(src)
      ensures Disposed(src, all, next, if verdict.Frame? then [verdict.bytes] else [], base)
      ensures taken + |src.data| == old(taken + |src.data|)
      ensures verdict.Frame? ==> Valid(src) && |src.data| < old(|src.data|)
      ensures verdict.NeedMore? ==> Valid(src) && Drained(src) && |src.data| <= old(|src.data|)
      ensures verdict.Again? ==>
        |src.data| < old(|src.data|) || (|src.data| == old(|src.data|) && discarding && !old(discarding))
    {
      var end := Search(src);
      if end < |src.data| {
        verdict, next := OnSeparator(src, end, all, passed, base);
      } else {
        next := passed;
        assert src.data[..end] == src.data;
        verdict := OnNoSeparator(src, all, passed, base);
      }
    }

    /** Takes the next frame that fits out of `src`, throwing away oversized segments before it;
        `passed` is the part of the stream that this call disposes of. */
    method DecodeFrame(src: Buffer) returns (frame: Option<Bytes>, ghost passed: Bytes)
      requires Valid(src)
      modifies this, src
      ensures Valid(src)
      ensures Disposed(src, old(View(src)), passed, if frame.Some? then [frame.value] else [],
                       old(overflows) - old(Owed()))
      ensures taken + |src.data| == old(taken + |src.data|)
      ensures |src.data| <= old(|src.data|)
      ensures frame.Some? ==> |src.data| < old(|src.data|)
      ensures frame.None? ==> Drained(src)
    {
      ghost var all, base := View(src), overflows - Owed();
      passed := [];
      var verdict := Again;
      while verdict.Again?
        invariant Working(src)
        invariant Disposed(src, all, passed, if verdict.Frame? then [verdict.bytes] else [], base)
        invariant taken + |src.data| == old(taken + |src.data|)
        invariant |src.data| <= old(|src.data|)
        invariant verdict.Frame? ==> Valid(src) && |src.data| < old(|src.data|)
        invariant verdict.NeedMore? ==> Valid(src) && Drained(src)
        decreases verdict.Again?, |src.data|, if discarding then 0 else 1
      {
        verdict, passed := Turn(src, all, passed, base);
      }
      frame := if verdict.Frame? then Some(verdict.bytes) else None;
    }

    /** At the end of the stream what is left in the buffer is a frame, too. */
    method DecodeEof(src: Buffer) returns (frame: Option<Bytes>)
      requires Valid(src)
      modifies this, src
      ensures Valid(src)
      ensures Frames(maxSizeBytes, old(View(src)))
           == (if frame.Some? then [frame.value] else []) + Frames(maxSizeBytes, View(src))
      ensures overflows - Owed() + Oversized(maxSizeBytes, View(src))
           == old(overflows - Owed() + Oversized(maxSizeBytes, View(src)))
      ensures taken + |src.data| == old(taken + |src.data|)
      ensures frame.Some? ==> |src.data| < old(|src.data|)
      ensures frame.None? ==> Drained(src) && src.data == []
    {
      hide Segments, Tail;
      ghost var passed;
      frame, passed := DecodeFrame(src);
      FramesSplit(maxSizeBytes, passed, View(src));
      if frame.None? && src.data != [] {
        NoSegment(View(src));
        assert View(src) == src.data;
        var rest := TakeRest(src);
        NoSegment(View(src));
        frame := Some(rest);
      }
    }

    method TakeRest(src: Buffer) returns (rest: Bytes)
      requires Valid(src) && Drained(src) && !discarding
      modifies this`readHead, this`taken, src
      ensures Valid(src) && rest == old(src.data) && src.data == []
      ensures taken == old(taken + |src.data|)
    {
      taken := taken + |src.data|;
      rest := src.SplitTo(|src.data|);
      readHead := 0;
    }
  }

  function Span(from: nat, n: nat): seq<nat> {
    seq(n, i requires 0 <= i < n => from + i)
  }

  /** Every offset below `upTo` has been looked at; in order and once without an overflow,
      and some more than once with one. */
  ghost predicate Seen(inspected: seq<nat>, upTo: nat, overflows: nat) {
    && (forall i: nat :: i < upTo ==> i in inspected)
    && (if overflows == 0 then inspected == Span(0, upTo) else |inspected| > upTo)
  }

  lemma SeenMore(inspected: seq<nat>, upTo: nat, n: nat, overflows: nat)
    requires Seen(inspected, upTo, overflows)
    ensures Seen(inspected + Span(upTo, n), upTo + n, overflows)
  {
    forall i: nat | i < upTo + n
      ensures i in inspected + Span(upTo, n)
    {
      if i >= upTo {
        assert Span(upTo, n)[i - upTo] == i;
      }
    }
    assert Span(0, upTo) + Span(upTo, n) == Span(0, upTo + n);
  }

  lemma SeenLess(inspected: seq<nat>, upTo: nat, less: nat, overflows: nat)
    requires Seen(inspected, upTo, overflows) && overflows > 0 && less <= upTo
    ensures Seen(inspected, less, overflows)
  {
  }

  /** Going back to search again costs at least one more inspection. */
  lemma SeenAgain(inspected: seq<nat>, upTo: nat, less: nat, overflows: nat)
    requires Seen(inspected, upTo, overflows) && less < upTo
    ensures Seen(inspected, less, overflows + 1)
  {
  }

  /** Frames and oversized segments of a stream split after a NUL add up. */
  lemma FramesSplit(max: nat, c: Bytes, z: Bytes)
    requires Closed(c)
    ensures Frames(max, c + z) == Keep(max, Segments(c)) + Frames(max, z)
    ensures Oversized(max, c + z) == TooLong(max, Segments(c)) + Oversized(max, z)
  {
    SegmentsAppend(c, z);
    KeepAppend(max, Segments(c), Segments(z));
  }

  datatype Verdict = Frame(bytes: Bytes) | NeedMore | Again

  /** The current segment is longer than `max` so far. */
  predicate LongStart(max: nat, view: Bytes) {
    |view| > max && forall k :: 0 <= k <= max ==> view[k] != 0
  }

  lemma Rejoin(passed: Bytes, v: Bytes, dropped: Bytes, data: Bytes, end: nat)
    requires end < |data| && data[end] == 0 && v == dropped + data[..end]
    ensures passed + (v + [0]) + data[end + 1..] == passed + (dropped + data)
  {
  }

  /** Passing the segment that ends at `end`, `dropped` bytes of which are gone already. */
  lemma CloseView(max: nat, passed: Bytes, dropped: Bytes, data: Bytes, end: nat)
    requires Closed(passed) && NulFree(dropped)
    requires end < |data| && NulFree(data[..end]) && data[end] == 0
    ensures var v := dropped + data[..end];
      var next := passed + (v + [0]);
      && Closed(next) && next + data[end + 1..] == passed + (dropped + data)
      && Keep(max, Segments(next)) == Keep(max, Segments(passed)) + (if |v| <= max then [v] else [])
      && TooLong(max, Segments(next)) == TooLong(max, Segments(passed)) + (if |v| <= max then 0 else 1)
      && (LongStart(max, dropped + data) ==> |v| > max)
  {
    var v := dropped + data[..end];
    CloseSegment(max, passed, v);
    Rejoin(passed, v, dropped, data, end);
    assert (dropped + data)[|v|] == data[end];
  }

  lemma DropMore(dropped: Bytes, data: Bytes, n: nat)
    requires n <= |data| && NulFree(dropped) && NulFree(data)
    ensures (dropped + data[..n]) + data[n..] == dropped + data
    ensures NulFree(dropped + data[..n]) && NulFree(data[n..])
  {
  }
}
