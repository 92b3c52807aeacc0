/** The raw reader: one byte stream over a message, for any sequence of caller buffers. */
module ChunkRead {
  import opened Prelude
  import opened Message

  /** What is left of `chunks` when reading resumes `cursor` bytes into chunk number `chunk`. */
  function Rest(chunks: seq<Bytes>, chunk: nat, cursor: nat): Bytes {
    if chunk >= |chunks| then []
    else if cursor > |chunks[chunk]| then []
    else chunks[chunk][cursor..] + Concat(chunks[chunk + 1..])
  }

  class Reader {
    const msg: Message
    var chunk: nat
    var cursor: nat

    constructor (msg: Message)
      ensures Valid() && this.msg == msg
      ensures Remaining() == Payload(msg)
    {
      this.msg := msg;
      chunk, cursor := 0, 0;
    }

    ghost predicate Valid()
      reads this
    {
      match msg
      case Single(_, bytes) => cursor <= |bytes|
      case Chunked(chunks) =>
        chunk <= |chunks| && (if chunk < |chunks| then cursor <= |chunks[chunk]| else cursor == 0)
    }

    /** The bytes not yet handed out. */
    ghost function Remaining(): Bytes
      reads this
      requires Valid()
    {
      match msg
      case Single(_, bytes) => bytes[cursor..]
      case Chunked(chunks) => Rest(chunks, chunk, cursor)
    }

    /** Fills `b` from the front with as much of the remaining stream as fits. */
    method Read(b: array<u8>) returns (n: nat)
      requires Valid()
      modifies this, b
      ensures Valid()
      ensures n == Min(b.Length, |old(Remaining())|)
      ensures b[..] == old(Remaining())[..n] + old(b[..])[n..]
      ensures Remaining() == old(Remaining())[n..]
    {
      match msg
      case Single(_, _) =>
        n := ReadSingle(b);
      case Chunked(_) =>
        n := ReadChunks(b);
    }

    method ReadSingle(b: array<u8>) returns (n: nat)
      requires Valid() && msg.Single?
      modifies this, b
      ensures Valid()
      ensures n == Min(b.Length, |old(Remaining())|)
      ensures b[..] == old(Remaining())[..n] + old(b[..])[n..]
      ensures Remaining() == old(Remaining())[n..]
    {
      if b.Length == 0 {
        return 0;
      }
      var readable := msg.bytes[cursor..];
      n := Min(|readable|, b.Length);
      CopyInto(b, 0, readable[..n]);
      cursor := cursor + n;
    }

    method ReadChunks(b: array<u8>) returns (n: nat)
      requires Valid() && msg.Chunked?
      modifies this, b
      ensures Valid()
      ensures n == Min(b.Length, |old(Remaining())|)
      ensures b[..] == old(Remaining())[..n] + old(b[..])[n..]
      ensures Remaining() == old(Remaining())[n..]
    {
      ghost var all := Remaining();
      n := 0;
      while n < b.Length && chunk < |msg.chunks|
        invariant Valid() && n <= b.Length && n <= |all|
        invariant forall i :: 0 <= i < b.Length ==> b[i] == if i < n then all[i] else old(b[i])
        invariant Remaining() == all[n..]
        decreases |msg.chunks| - chunk, b.Length - n
      {
        var read := ReadChunk(b, n);
        n := n + read;
      }
    }

    /** One turn of the loop: copies what fits of the current chunk to `b` at offset `at`. */
    method ReadChunk(b: array<u8>, at: nat) returns (read: nat)
      requires Valid() && msg.Chunked? && chunk < |msg.chunks| && at < b.Length
      modifies this, b
      ensures Valid()
      ensures read <= |old(Remaining())| && at + read <= b.Length
      ensures forall i :: 0 <= i < b.Length ==>
                b[i] == if at <= i < at + read then old(Remaining())[i - at] else old(b[i])
      ensures Remaining() == old(Remaining())[read..]
      ensures chunk > old(chunk) || (chunk == old(chunk) && read > 0)
    {
      var readable := msg.chunks[chunk][cursor..];
      ghost var later := Concat(msg.chunks[chunk + 1..]);
      read := Min(|readable|, b.Length - at);
      CopyInto(b, at, readable[..read]);
      if read == |readable| {
        assert (readable + later)[read..] == later;
        chunk := chunk + 1;
        cursor := 0;
      } else {
        assert (readable + later)[read..] == readable[read..] + later;
        cursor := cursor + read;
      }
    }
  }

  /** Copies `from` over the part of `b` that starts at `at`. */
  method CopyInto(b: array<u8>, at: nat, from: Bytes)
    requires at + |from| <= b.Length
    modifies b
    ensures forall i :: 0 <= i < b.Length ==>
              b[i] == if at <= i < at + |from| then from[i - at] else old(b[i])
  {
    forall k | 0 <= k < |from| {
      b[at + k] := from[k];
    }
  }

  function Sum(sizes: seq<nat>): nat {
    if sizes == [] then 0 else Sum(sizes[..|sizes| - 1]) + sizes[|sizes| - 1]
  }

  /** One read through a buffer of the given size. */
  method Take(reader: Reader, size: nat) returns (part: Bytes)
    requires reader.Valid()
    modifies reader
    ensures reader.Valid()
    ensures |part| == Min(size, |old(reader.Remaining())|)
    ensures part + reader.Remaining() == old(reader.Remaining())
  {
    var b := new u8[size];
    var n := reader.Read(b);
    part := b[..n];
    assert part == b[..][..n];
  }

  lemma TakeOff(out: Bytes, part: Bytes, rest: Bytes, left: Bytes, all: Bytes)
    requires out + rest == all && part + left == rest
    ensures (out + part) + left == all && |out| + |part| <= |all|
  {
  }

  lemma SumStep(sizes: seq<nat>, i: nat)
    requires i < |sizes|
    ensures Sum(sizes[..i + 1]) == Sum(sizes[..i]) + sizes[i]
  {
    assert sizes[..i + 1][..i] == sizes[..i];
  }

  /** Reading a message through buffers of any sizes yields the prefix of its payload
      that they have room for: no byte skipped, repeated or reordered. */
  method ReadThrough(msg: Message, sizes: seq<nat>) returns (out: Bytes)
    ensures out == Payload(msg)[..Min(Sum(sizes), |Payload(msg)|)]
  {
    hide Concat, Rest;
    var reader := new Reader(msg);
    out := [];
    ghost var all := reader.Remaining();
    ghost var rest := all;
    for i := 0 to |sizes|
      invariant reader.Valid() && fresh(reader)
      invariant out + rest == all && rest == reader.Remaining()
      invariant |out| == Min(Sum(sizes[..i]), |all|)
    {
      var part := Take(reader, sizes[i]);
      SumStep(sizes, i);
      TakeOff(out, part, rest, reader.Remaining(), all);
      out, rest := out + part, reader.Remaining();
    }
    assert sizes[..|sizes|] == sizes;
  }

  /** Reading until a non-empty buffer comes back empty yields the whole payload. */
  method ReadToEnd(msg: Message, size: nat) returns (out: Bytes)
    requires size > 0
    ensures out == Payload(msg)
  {
    var reader := new Reader(msg);
    out := [];
    ghost var all := reader.Remaining();
    ghost var rest := all;
    var more := true;
    while more
      invariant reader.Valid() && fresh(reader)
      invariant out + rest == all && rest == reader.Remaining()
      invariant !more ==> rest == []
      decreases |rest|, more
    {
      var part := Take(reader, size);
      TakeOff(out, part, rest, reader.Remaining(), all);
      more := part != [];
      out, rest := out + part, reader.Remaining();
    }
  }
}
