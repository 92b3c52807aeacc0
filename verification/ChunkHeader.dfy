/** The 12 byte header of a chunk datagram: magic, big-endian id, sequence number, sequence count. */
module ChunkHeader {
  import opened Prelude

  const MAGIC_CHUNKED: Bytes := [0x1e, 0x0f]
  const SIZE: nat := 12

  datatype Error = ShortHeader | BadSequence | TooManyChunks | InconsistentTotal | ClockBeforeEpoch

  datatype Header = Header(id: u64, seqNum: u8, seqCount: u8)

  /** The number a byte string denotes in big-endian order. */
  function FromBigEndian(bs: Bytes): nat {
    if bs == [] then 0 else FromBigEndian(bs[..|bs| - 1]) * 0x100 + bs[|bs| - 1]
  }

  function ToBigEndian(v: nat, width: nat): (bs: Bytes)
    ensures |bs| == width
  {
    if width == 0 then [] else ToBigEndian(v / 0x100, width - 1) + [v % 0x100]
  }

  function Pow256(n: nat): nat {
    if n == 0 then 1 else 0x100 * Pow256(n - 1)
  }

  lemma {:induction false} BigEndianBound(bs: Bytes)
    ensures FromBigEndian(bs) < Pow256(|bs|)
  {
    if bs != [] {
      BigEndianBound(bs[..|bs| - 1]);
    }
  }

  lemma {:induction false} BigEndianDecodes(v: nat, width: nat)
    requires v < Pow256(width)
    ensures FromBigEndian(ToBigEndian(v, width)) == v
  {
    if width != 0 {
      BigEndianDecodes(v / 0x100, width - 1);
      var bs := ToBigEndian(v, width);
      assert bs[..|bs| - 1] == ToBigEndian(v / 0x100, width - 1);
    }
  }

  lemma {:induction false} BigEndianEncodes(bs: Bytes)
    ensures ToBigEndian(FromBigEndian(bs), |bs|) == bs
  {
    if bs != [] {
      var front, last := bs[..|bs| - 1], bs[|bs| - 1];
      BigEndianEncodes(front);
      var v := FromBigEndian(front);
      assert (v * 0x100 + last) / 0x100 == v && (v * 0x100 + last) % 0x100 == last;
      assert FromBigEndian(bs) == v * 0x100 + last;
      assert bs == front + [last];
    }
  }

  lemma Width64()
    ensures Pow256(8) == TWO_64
  {
  }

  function Id(bs: Bytes): u64
    requires |bs| == 8
  {
    BigEndianBound(bs);
    Width64();
    FromBigEndian(bs)
  }

  /** What a sender puts on the wire. */
  function Encode(h: Header, payload: Bytes): Bytes {
    MAGIC_CHUNKED + ToBigEndian(h.id, 8) + [h.seqNum, h.seqCount] + payload
  }

  function Parse(src: Bytes): Result<Header, Error> {
    if |src| < SIZE then Err(ShortHeader)
    else if src[10] >= src[11] then Err(BadSequence)
    else Ok(Header(Id(src[2..10]), src[10], src[11]))
  }

  /** Reads the header off the front of `buf`, leaving the payload. */
  method Get(buf: Buffer) returns (r: Result<Header, Error>)
    modifies buf
    ensures r == Parse(old(buf.data))
    ensures r.Ok? ==> buf.data == old(buf.data)[SIZE..]
  {
    if |buf.data| < SIZE {
      return Err(ShortHeader);
    }
    var bytes := buf.SplitTo(SIZE);
    var head := new Buffer(bytes);
    var _ := head.SplitTo(2);
    var id := head.SplitTo(8);
    var tail := head.SplitTo(2);
    var seqNum, seqCount := tail[0], tail[1];
    assert id == old(buf.data)[2..10];
    if seqNum >= seqCount {
      return Err(BadSequence);
    }
    return Ok(Header(Id(id), seqNum, seqCount));
  }

  /** Every header with a sequence number below its count survives the wire, payload intact. */
  lemma ParseInvertsEncode(h: Header, payload: Bytes)
    requires h.seqNum < h.seqCount
    ensures Parse(Encode(h, payload)) == Ok(h)
    ensures Encode(h, payload)[..2] == MAGIC_CHUNKED
    ensures Encode(h, payload)[SIZE..] == payload
  {
    var src := Encode(h, payload);
    Width64();
    BigEndianDecodes(h.id, 8);
    assert src[2..10] == ToBigEndian(h.id, 8);
  }

  /** The id at its place on the wire, the most significant byte first. */
  function WireId(d: Bytes): nat
    requires |d| >= 12
  {
    Word(d[2], d[3], d[4], d[5], d[6], d[7], d[8], d[9])
  }

  function Word(a: nat, b: nat, c: nat, d: nat, e: nat, f: nat, g: nat, h: nat): nat {
    a * 0x100_0000_0000_0000 + b * 0x1_0000_0000_0000 + c * 0x100_0000_0000 + d * 0x1_0000_0000
    + e * 0x100_0000 + f * 0x1_0000 + g * 0x100 + h
  }

  lemma EightBytes(bs: Bytes)
    requires |bs| == 8
    ensures FromBigEndian(bs) == Word(bs[0], bs[1], bs[2], bs[3], bs[4], bs[5], bs[6], bs[7])
  {
    hide FromBigEndian;
    FourBytes(bs);
    NextDigit(bs, 4);
    NextDigit(bs, 5);
    NextDigit(bs, 6);
    NextDigit(bs, 7);
    assert bs[..8] == bs;
  }

  lemma FourBytes(bs: Bytes)
    requires |bs| >= 4
    ensures FromBigEndian(bs[..4]) == Word(0, 0, 0, 0, bs[0], bs[1], bs[2], bs[3])
  {
    hide FromBigEndian;
    NextDigit(bs, 0);
    NextDigit(bs, 1);
    NextDigit(bs, 2);
    NextDigit(bs, 3);
  }

  lemma NextDigit(bs: Bytes, k: nat)
    requires k < |bs|
    ensures FromBigEndian(bs[..k + 1]) == (if k == 0 then 0 else FromBigEndian(bs[..k]) * 0x100) + bs[k]
  {
    assert bs[..k + 1][..k] == bs[..k];
  }

  /** Where the fields are in a datagram of at least 12 bytes, and which datagrams are refused. */
  lemma ParseMeaning(src: Bytes)
    ensures Parse(src) == Err(ShortHeader) <==> |src| < 12
    ensures Parse(src) == Err(BadSequence) <==> |src| >= 12 && src[10] >= src[11]
    ensures Parse(src).Ok? <==> |src| >= 12 && src[10] < src[11]
    ensures Parse(src).Ok? ==>
      var h := Parse(src).value;
      h.id == WireId(src) && h.seqNum == src[10] && h.seqCount == src[11]
  {
    if |src| >= 12 {
      EightBytes(src[2..10]);
    }
  }

  /** What a sender puts on the wire, byte by byte. */
  lemma WireFormat(h: Header, payload: Bytes)
    ensures var d := Encode(h, payload);
      && |d| == 12 + |payload| && d[0] == 30 && d[1] == 15
      && WireId(d) == h.id && d[10] == h.seqNum && d[11] == h.seqCount
      && forall i :: 0 <= i < |payload| ==> d[12 + i] == payload[i]
  {
    var d := Encode(h, payload);
    Width64();
    BigEndianDecodes(h.id, 8);
    assert d[2..10] == ToBigEndian(h.id, 8);
    EightBytes(d[2..10]);
  }

  /** Every accepted datagram with the chunk magic is the encoding of what was parsed from it. */
  lemma EncodeInvertsParse(src: Bytes)
    requires Parse(src).Ok?
    requires src[..2] == MAGIC_CHUNKED
    ensures Parse(src).value.seqNum < Parse(src).value.seqCount
    ensures Encode(Parse(src).value, src[SIZE..]) == src
  {
    BigEndianEncodes(src[2..10]);
    assert src == src[..2] + src[2..10] + [src[10], src[11]] + src[12..];
  }

  /** Acceptance is exactly being an encoding: nothing else with the magic gets through. */
  lemma AcceptedIffEncoded(src: Bytes)
    ensures |src| >= 2 && src[..2] == MAGIC_CHUNKED && Parse(src).Ok?
       <==> exists h: Header, payload: Bytes :: h.seqNum < h.seqCount && src == Encode(h, payload)
  {
    if |src| >= 2 && src[..2] == MAGIC_CHUNKED && Parse(src).Ok? {
      EncodeInvertsParse(src);
    }
    if h: Header, payload: Bytes :| h.seqNum < h.seqCount && src == Encode(h, payload) {
      ParseInvertsEncode(h, payload);
    }
  }
}
