/** What the receiver is for, without its indexes: per message id, the log of the chunks
    accepted since the message began. Completion is coverage of all sequence numbers,
    and the delivered pieces are the last ones written. */
module History {
  import opened Prelude
  import opened ChunkHeader
  import opened Message
  import opened Gelf

  datatype Write = Write(seqNum: u8, bytes: Bytes)

  datatype Entry = Entry(total: u8, started: nat, writes: seq<Write>)

  type Log = map<u64, Entry>

  datatype LogOutcome = LogOutcome(log: Log, result: Result<Option<Message>, Error>)

  /** The most recent bytes written for sequence number `i`. */
  function LastWrite(ws: seq<Write>, i: int): Option<Bytes> {
    if ws == [] then None
    else if ws[|ws| - 1].seqNum == i then Some(ws[|ws| - 1].bytes)
    else LastWrite(ws[..|ws| - 1], i)
  }

  predicate Covers(ws: seq<Write>, total: nat) {
    forall i :: 0 <= i < total ==> LastWrite(ws, i).Some?
  }

  function Assemble(ws: seq<Write>, total: nat): seq<Bytes>
    requires Covers(ws, total)
  {
    seq(total, i requires 0 <= i < total => LastWrite(ws, i).value)
  }

  /** Write number `k` is for `i`, carries `b`, and nothing after it is for `i`. */
  predicate IsLastFor(ws: seq<Write>, i: int, b: Bytes, k: int) {
    0 <= k < |ws| && ws[k] == Write(ws[k].seqNum, b) && ws[k].seqNum == i
    && forall l :: k < l < |ws| ==> ws[l].seqNum != i
  }

  lemma {:induction false} LastWriteMeaning(ws: seq<Write>, i: int, b: Bytes)
    ensures LastWrite(ws, i) == Some(b) <==> exists k :: IsLastFor(ws, i, b, k)
  {
    if ws != [] {
      var n := |ws| - 1;
      LastWriteMeaning(ws[..n], i, b);
      if ws[n].seqNum == i {
        assert ws[n].bytes == b ==> IsLastFor(ws, i, b, n);
      } else {
        forall k
          ensures IsLastFor(ws, i, b, k) <==> IsLastFor(ws[..n], i, b, k)
        {
          if IsLastFor(ws[..n], i, b, k) {
            assert forall l :: k < l < n ==> ws[l] == ws[..n][l];
          }
        }
      }
    }
  }

  /** Too many pending messages: all are forgotten. */
  function LogWipe(config: Config, log: Log): Log {
    if |log| >= config.incompleteCapacity then map[] else log
  }

  /** The messages begun at `since` or later. */
  function LogExpire(log: Log, since: nat): Log {
    map id | id in log && log[id].started >= since :: log[id]
  }

  function LogCollect(config: Config, log: Log, now: nat): Log {
    if now < config.Timeout() then LogWipe(config, log)
    else LogExpire(LogWipe(config, log), now - config.Timeout())
  }

  /** What survives a collection: with room left, whatever is no older than the period, in nanoseconds. */
  lemma LogSurvives(config: Config, log: Log, id: u64, gc: nat)
    ensures var period := config.incompleteTimeoutMs * 1_000_000;
      id in LogCollect(config, log, gc) <==>
        id in log && |log| < config.incompleteCapacity && (gc >= period ==> gc <= log[id].started + period)
    ensures id in LogCollect(config, log, gc) ==> LogCollect(config, log, gc)[id] == log[id]
  {
  }

  function LogPush(log: Log, h: Header, bytes: Bytes, now: nat): LogOutcome {
    var w := Write(h.seqNum, bytes);
    if h.id !in log then LogOutcome(log[h.id := Entry(h.seqCount, now, [w])], Ok(None))
    else
      var e := log[h.id];
      if e.total != h.seqCount then LogOutcome(log, Err(InconsistentTotal))
      else
        var ws := e.writes + [w];
        if Covers(ws, e.total) then
          LogOutcome(log - {h.id}, Ok(Some(Message.Chunked(Assemble(ws, e.total)))))
        else LogOutcome(log[h.id := e.(writes := ws)], Ok(None))
  }

  function LogStep(config: Config, log: Log, e: Event): LogOutcome {
    var datagram := Classify(config, e.src);
    if datagram.Plain? then LogOutcome(log, Ok(SingleMessage(datagram.payload)))
    else
      var collected := LogCollect(config, log, e.clock.gc);
      if e.clock.gc < config.Timeout() then LogOutcome(collected, Err(ClockBeforeEpoch))
      else
        match datagram
        case Lone(payload) => LogOutcome(collected, Ok(SingleMessage(payload)))
        case Rejected(error) => LogOutcome(collected, Err(error))
        case Piece(header, payload) => LogPush(collected, header, payload, e.clock.arrival)
  }

  function LogRun(config: Config, es: seq<Event>): Log {
    if es == [] then map[]
    else LogStep(config, LogRun(config, es[..|es| - 1]), es[|es| - 1]).log
  }

  function LogAnswer(config: Config, es: seq<Event>): Result<Option<Message>, Error>
    requires es != []
  {
    LogStep(config, LogRun(config, es[..|es| - 1]), es[|es| - 1]).result
  }

  /** Whether a datagram begins a message. */
  predicate Begins(config: Config, log: Log, e: Event) {
    var datagram := Classify(config, e.src);
    && datagram.Piece?
    && e.clock.gc >= config.Timeout()
    && datagram.header.id !in LogCollect(config, log, e.clock.gc)
  }

  /** How many messages a run begins. */
  function Starts(config: Config, es: seq<Event>): nat {
    if es == [] then 0
    else
      var before := es[..|es| - 1];
      Starts(config, before) + (if Begins(config, LogRun(config, before), es[|es| - 1]) then 1 else 0)
  }

  lemma {:induction false} StartsBound(config: Config, es: seq<Event>)
    ensures Starts(config, es) <= |es|
  {
    if es != [] {
      StartsBound(config, es[..|es| - 1]);
    }
  }
}
