/** The meaning of NUL-delimited framing, on whole streams. */
module Framing {
  import opened Prelude

  predicate NulFree(s: Bytes) {
    forall i :: 0 <= i < |s| ==> s[i] != 0
  }

  /** Position of the first NUL at or after `from`, or the length when there is none. */
  function FindNul(s: Bytes, from: nat): (i: nat)
    requires from <= |s|
    ensures from <= i <= |s|
    ensures forall k :: from <= k < i ==> s[k] != 0
    ensures i < |s| ==> s[i] == 0
    decreases |s| - from
  {
    if from == |s| || s[from] == 0 then from else FindNul(s, from + 1)
  }

  /** The terminated segments of a stream, without their terminators. */
  function Segments(s: Bytes): seq<Bytes>
    decreases |s|
  {
    var i := FindNul(s, 0);
    if i == |s| then [] else [s[..i]] + Segments(s[i + 1..])
  }

  /** What follows the last NUL. */
  function Tail(s: Bytes): Bytes
    decreases |s|
  {
    var i := FindNul(s, 0);
    if i == |s| then s else Tail(s[i + 1..])
  }

  /** The stream that has these terminated segments. */
  function Join(segments: seq<Bytes>): Bytes {
    if segments == [] then [] else segments[0] + [0] + Join(segments[1..])
  }

  predicate Closed(s: Bytes) {
    s == [] || s[|s| - 1] == 0
  }

  /** The segments of at most `max` bytes, in order. */
  function Keep(max: nat, segments: seq<Bytes>): seq<Bytes> {
    if segments == [] then []
    else (if |segments[0]| <= max then [segments[0]] else []) + Keep(max, segments[1..])
  }

  function TooLong(max: nat, segments: seq<Bytes>): nat {
    if segments == [] then 0
    else (if |segments[0]| <= max then 0 else 1) + TooLong(max, segments[1..])
  }

  /** All frames a stream stands for: the segments that fit, and the rest if it fits and is not empty. */
  function Frames(max: nat, s: Bytes): seq<Bytes> {
    Keep(max, Segments(s)) + if Tail(s) != [] && |Tail(s)| <= max then [Tail(s)] else []
  }

  /** How many segments of a stream are too long, the unterminated one included. */
  function Oversized(max: nat, s: Bytes): nat {
    TooLong(max, Segments(s)) + if |Tail(s)| > max then 1 else 0
  }

  lemma FirstNulIs(s: Bytes, i: nat)
    requires i <= |s| && (forall k :: 0 <= k < i ==> s[k] != 0) && (i < |s| ==> s[i] == 0)
    ensures FindNul(s, 0) == i
  {
  }

  /** The first segment of a stream that begins with a terminated NUL-free part. */
  lemma FirstSegment(v: Bytes, rest: Bytes)
    requires NulFree(v)
    ensures Segments(v + [0] + rest) == [v] + Segments(rest)
    ensures Tail(v + [0] + rest) == Tail(rest)
  {
    var s := v + [0] + rest;
    assert forall k :: 0 <= k < |v| ==> s[k] == v[k];
    FirstNulIs(s, |v|);
    assert s[|v| + 1..] == rest && s[..|v|] == v;
  }

  lemma NoSegment(v: Bytes)
    requires NulFree(v)
    ensures Segments(v) == [] && Tail(v) == v
  {
  }

  /** A stream either is one unterminated part or begins with a terminated one. */
  lemma SplitFirst(s: Bytes) returns (v: Bytes, rest: Bytes)
    requires !NulFree(s)
    ensures NulFree(v) && s == v + [0] + rest && |rest| < |s|
  {
    var i := FindNul(s, 0);
    v, rest := s[..i], s[i + 1..];
    assert s == v + [s[i]] + rest;
  }

  lemma JoinFirst(v: Bytes, segments: seq<Bytes>, tail: Bytes)
    ensures Join([v] + segments) + tail == v + [0] + (Join(segments) + tail)
  {
  }

  /** Segmenting loses nothing: the parts are NUL-free and make up the stream. */
  lemma {:induction false} SegmentsPartition(s: Bytes)
    ensures Join(Segments(s)) + Tail(s) == s
    ensures NulFree(Tail(s)) && forall k :: 0 <= k < |Segments(s)| ==> NulFree(Segments(s)[k])
    decreases |s|
  {
    if NulFree(s) {
      NoSegment(s);
    } else {
      var v, rest := SplitFirst(s);
      FirstSegment(v, rest);
      SegmentsPartition(rest);
      JoinFirst(v, Segments(rest), Tail(rest));
    }
  }

  /** And it is the only way to cut the stream into terminated NUL-free parts and a NUL-free rest. */
  lemma {:induction false} SegmentsUnique(segments: seq<Bytes>, tail: Bytes)
    requires NulFree(tail) && forall k :: 0 <= k < |segments| ==> NulFree(segments[k])
    ensures Segments(Join(segments) + tail) == segments
    ensures Tail(Join(segments) + tail) == tail
  {
    if segments == [] {
      assert Join(segments) + tail == tail;
      NoSegment(tail);
    } else {
      SegmentsUnique(segments[1..], tail);
      FirstSegment(segments[0], Join(segments[1..]) + tail);
      assert segments == [segments[0]] + segments[1..];
      JoinFirst(segments[0], segments[1..], tail);
    }
  }

  /** Segments of a stream split after a NUL. */
  lemma {:induction false} SegmentsAppend(c: Bytes, z: Bytes)
    requires Closed(c)
    ensures Segments(c + z) == Segments(c) + Segments(z)
    ensures Tail(c) == [] && Tail(c + z) == Tail(z)
    decreases |c|
  {
    if c == [] {
      assert c + z == z;
    } else {
      var v, rest := SplitClosed(c);
      SegmentsAppend(rest, z);
      FirstSegment(v, rest);
      FirstSegment(v, rest + z);
      AppendAssoc(v + [0], rest, z);
      AppendAssoc([v], Segments(rest), Segments(z));
    }
  }

  lemma AppendAssoc<T>(a: seq<T>, b: seq<T>, c: seq<T>)
    ensures a + b + c == a + (b + c)
  {
  }

  lemma SplitClosed(c: Bytes) returns (v: Bytes, rest: Bytes)
    requires Closed(c) && c != []
    ensures NulFree(v) && c == v + [0] + rest && |rest| < |c| && Closed(rest)
  {
    assert c[|c| - 1] == 0;
    v, rest := SplitFirst(c);
  }

  lemma OneSegment(v: Bytes)
    requires NulFree(v)
    ensures Segments(v + [0]) == [v] && Tail(v + [0]) == []
  {
    FirstSegment(v, []);
    assert v + [0] + [] == v + [0];
  }

  lemma {:induction false} KeepAppend(max: nat, a: seq<Bytes>, b: seq<Bytes>)
    ensures Keep(max, a + b) == Keep(max, a) + Keep(max, b)
    ensures TooLong(max, a + b) == TooLong(max, a) + TooLong(max, b)
  {
    if a == [] {
      assert a + b == b;
    } else {
      assert (a + b)[1..] == a[1..] + b;
      KeepAppend(max, a[1..], b);
    }
  }

  /** What one more terminated segment adds to a closed stream. */
  lemma CloseSegment(max: nat, c: Bytes, v: Bytes)
    requires Closed(c) && NulFree(v)
    ensures var s := c + (v + [0]);
      && Closed(s)
      && Keep(max, Segments(s)) == Keep(max, Segments(c)) + (if |v| <= max then [v] else [])
      && TooLong(max, Segments(s)) == TooLong(max, Segments(c)) + (if |v| <= max then 0 else 1)
  {
    OneSegment(v);
    SegmentsAppend(c, v + [0]);
    KeepAppend(max, Segments(c), [v]);
  }

  /** More bytes complete no fewer frames. */
  lemma {:induction false} SegmentsGrow(max: nat, s: Bytes, more: Bytes)
    ensures |Keep(max, Segments(s))| <= |Keep(max, Segments(s + more))|
    decreases |s|
  {
    if NulFree(s) {
      NoSegment(s);
    } else {
      var v, rest := SplitFirst(s);
      FirstSegment(v, rest);
      FirstSegment(v, rest + more);
      AppendAssoc(v + [0], rest, more);
      SegmentsGrow(max, rest, more);
      KeepAppend(max, [v], Segments(rest));
      KeepAppend(max, [v], Segments(rest + more));
    }
  }

  /** The kept segments are those of at most `max` bytes, each as often as it occurs. */
  lemma {:induction false} KeepMeaning(max: nat, segments: seq<Bytes>, v: Bytes)
    ensures multiset(Keep(max, segments))[v] == if |v| <= max then multiset(segments)[v] else 0
    ensures |Keep(max, segments)| + TooLong(max, segments) == |segments|
  {
    if segments != [] {
      KeepMeaning(max, segments[1..], v);
      assert segments == [segments[0]] + segments[1..];
    }
  }

  /** What becomes of a stream of terminated segments and a rest: the segments that fit are frames, and so is
      the rest if it fits and is not empty; each of the others is one that is too long. */
  lemma FramesMeaning(max: nat, segments: seq<Bytes>, rest: Bytes)
    requires NulFree(rest) && forall k :: 0 <= k < |segments| ==> NulFree(segments[k])
    ensures Frames(max, Join(segments) + rest) == Keep(max, segments) + if 0 < |rest| <= max then [rest] else []
    ensures Oversized(max, Join(segments) + rest)
         == |segments| - |Keep(max, segments)| + if |rest| > max then 1 else 0
  {
    SegmentsUnique(segments, rest);
    KeepMeaning(max, segments, []);
  }

  /** A stream without its separators. */
  function WithoutNuls(s: Bytes): Bytes {
    if s == [] then [] else WithoutNuls(s[..|s| - 1]) + if s[|s| - 1] == 0 then [] else [s[|s| - 1]]
  }

  lemma {:induction false} NulsApart(a: Bytes, b: Bytes)
    ensures WithoutNuls(a + b) == WithoutNuls(a) + WithoutNuls(b)
  {
    if b == [] {
      assert a + b == a;
    } else {
      NulsApart(a, b[..|b| - 1]);
      assert (a + b)[..|a + b| - 1] == a + b[..|b| - 1];
    }
  }

  lemma {:induction false} NoNuls(v: Bytes)
    requires NulFree(v)
    ensures WithoutNuls(v) == v
  {
    if v != [] {
      NoNuls(v[..|v| - 1]);
      assert v == v[..|v| - 1] + [v[|v| - 1]];
    }
  }

  lemma {:induction false} ConcatApart(a: seq<Bytes>, b: seq<Bytes>)
    ensures Concat(a + b) == Concat(a) + Concat(b)
  {
    if a == [] {
      assert a + b == b;
    } else {
      assert (a + b)[1..] == a[1..] + b;
      ConcatApart(a[1..], b);
    }
  }

  /** Where everything fits, the frames put one after the other are the stream without its separators. */
  lemma {:induction false} NothingLost(max: nat, s: Bytes)
    requires |s| <= max
    ensures Concat(Frames(max, s)) == WithoutNuls(s)
    decreases |s|
  {
    if NulFree(s) {
      NoSegment(s);
      NoNuls(s);
      assert Concat([s]) == s + Concat([]);
    } else {
      var v, rest := SplitFirst(s);
      NothingLost(max, rest);
      FirstFrame(max, v, rest);
      ConcatApart([v], Frames(max, rest));
      assert Concat([v]) == v + Concat([]);
      NulsApart(v + [0], rest);
      NulsApart(v, [0]);
      NoNuls(v);
      assert WithoutNuls([0]) == [];
    }
  }

  lemma FirstFrame(max: nat, v: Bytes, rest: Bytes)
    requires NulFree(v)
    ensures Frames(max, v + [0] + rest) == (if |v| <= max then [v] else []) + Frames(max, rest)
  {
    FirstSegment(v, rest);
    KeepAppend(max, [v], Segments(rest));
  }
}
