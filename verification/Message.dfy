/** Received messages and the compression their leading bytes announce. */
module Message {
  import opened Prelude

  const GZIP_ID: Bytes := [0x1f, 0x8b]
  const MAGIC_ZLIB: u8 := 0x78

  datatype Compression = Gzip | Zlib

  datatype Message =
    | Single(compression: Option<Compression>, bytes: Bytes)
    | Chunked(chunks: seq<Bytes>)

  function Detect(header: Bytes): Option<Compression>
    requires |header| == 2
  {
    if header == GZIP_ID then Some(Gzip)
    else if header[0] == MAGIC_ZLIB && (header[0] as int * 0x100 + header[1]) % 31 == 0 then Some(Zlib)
    else None
  }

  function PeekMagic(src: Bytes): Option<Bytes> {
    if |src| < 2 then None else Some(src[..2])
  }

  /** The compression announced by the first two bytes, if there are two. */
  function Sniff(src: Bytes): Option<Compression> {
    match PeekMagic(src)
    case None => None
    case Some(header) => Detect(header)
  }

  function SingleMessage(src: Bytes): Option<Message> {
    if src == [] then None else Some(Single(Sniff(src), src))
  }

  function ChunkedMessage(chunks: seq<Bytes>): Option<Message> {
    if chunks == [] then None else Some(Chunked(chunks))
  }

  function CompressionOf(m: Message): Option<Compression> {
    match m
    case Single(compression, _) => compression
    case Chunked(chunks) => if chunks == [] then None else Sniff(chunks[0])
  }

  /** Everything the raw reader of a message has to yield. */
  function Payload(m: Message): Bytes {
    match m
    case Single(_, bytes) => bytes
    case Chunked(chunks) => Concat(chunks)
  }

  /** A zlib stream header in the sense of section 2.2 of RFC 1950: method 8, a window
      of at most 32K and a check that makes the two bytes a multiple of 31. */
  predicate ZlibHeader(header: Bytes) {
    && |header| >= 2
    && header[0] % 16 == 8 && header[0] / 16 <= 7
    && (header[0] as int * 0x100 + header[1]) % 31 == 0
  }

  /** Sniffing recognises precisely the gzip identification bytes of section 2.3.1 of RFC 1952
      and those zlib headers that announce the largest window; smaller windows go unnoticed. */
  lemma SniffMeaning(src: Bytes)
    ensures Sniff(src) == Some(Gzip) <==> |src| >= 2 && src[0] == 31 && src[1] == 139
    ensures Sniff(src) == Some(Zlib) <==> ZlibHeader(src) && src[0] / 16 == 7
  {
  }

  /** A chunked message announces the compression of its whole payload exactly when
      its first chunk is long enough to show it, or there is none to show. */
  lemma ChunkedCompression(chunks: seq<Bytes>)
    requires chunks != []
    ensures CompressionOf(Chunked(chunks)) == Sniff(Concat(chunks))
       <==> |chunks[0]| >= 2 || Sniff(Concat(chunks)) == None
  {
  }
}
