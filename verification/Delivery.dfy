/** Which datagrams make up a delivered message, and which datagrams get one delivered. */
module Delivery {
  import opened Prelude
  import opened Message
  import opened Gelf
  import opened History
  import opened Refinement

  /** An acceptable chunk of message `id` with `total` chunks. */
  predicate IsPiece(config: Config, e: Event, id: u64, total: int) {
    var datagram := Classify(config, e.src);
    && datagram.Piece?
    && e.clock.gc >= config.Timeout()
    && datagram.header.id == id
    && datagram.header.seqCount == total
  }

  function WriteOf(config: Config, e: Event): Write
    requires Classify(config, e.src).Piece?
  {
    var datagram := Classify(config, e.src);
    Write(datagram.header.seqNum, datagram.payload)
  }

  /** The chunks of message `id` among `es`, in order of arrival. */
  function Pieces(config: Config, es: seq<Event>, id: u64, total: int): seq<Write> {
    if es == [] then []
    else
      var last := es[|es| - 1];
      Pieces(config, es[..|es| - 1], id, total)
      + if IsPiece(config, last, id, total) then [WriteOf(config, last)] else []
  }

  /** Datagram `e` finds message `id` not pending and begins it. */
  predicate Begun(config: Config, log: Log, e: Event, id: u64) {
    Begins(config, log, e) && Classify(config, e.src).header.id == id
  }

  /** Entry `entry` for `id` was begun by `es[j]` and has collected every chunk since. */
  predicate BegunAt(config: Config, es: seq<Event>, id: u64, entry: Entry, j: nat) {
    && j < |es|
    && Begun(config, LogRun(config, es[..j]), es[j], id)
    && IsPiece(config, es[j], id, entry.total)
    && entry.started == es[j].clock.arrival
    && entry.writes == Pieces(config, es[j..], id, entry.total)
  }

  lemma PiecesSnoc(config: Config, es: seq<Event>, e: Event, id: u64, total: int)
    ensures Pieces(config, es + [e], id, total)
         == Pieces(config, es, id, total) + if IsPiece(config, e, id, total) then [WriteOf(config, e)] else []
  {
  }

  lemma LogRunSnoc(config: Config, es: seq<Event>, e: Event)
    ensures LogRun(config, es + [e]) == LogStep(config, LogRun(config, es), e).log
    ensures LogAnswer(config, es + [e]) == LogStep(config, LogRun(config, es), e).result
  {
  }

  lemma BeginsHere(config: Config, es: seq<Event>, e: Event, id: u64, entry: Entry)
    requires Begun(config, LogRun(config, es), e, id) && IsPiece(config, e, id, entry.total)
    requires entry.started == e.clock.arrival && entry.writes == [WriteOf(config, e)]
    ensures BegunAt(config, es + [e], id, entry, |es|)
  {
    assert (es + [e])[..|es|] == es;
  }

  lemma BeganEarlier(config: Config, es: seq<Event>, e: Event, id: u64, entry: Entry, next: Entry, j: nat)
    requires BegunAt(config, es, id, entry, j)
    requires next.total == entry.total && next.started == entry.started
    requires next.writes == entry.writes
                            + if IsPiece(config, e, id, entry.total) then [WriteOf(config, e)] else []
    ensures BegunAt(config, es + [e], id, next, j)
  {
    assert (es + [e])[..j] == es[..j] && (es + [e])[j..] == es[j..] + [e];
    PiecesSnoc(config, es[j..], e, id, entry.total);
  }

  /** How one datagram determines the entry of an id that is pending afterwards. */
  lemma EntryStep(config: Config, log: Log, e: Event, id: u64)
    requires id in LogStep(config, log, e).log
    ensures var entry := LogStep(config, log, e).log[id];
      if Begun(config, log, e, id) then
        IsPiece(config, e, id, entry.total)
        && entry.started == e.clock.arrival && entry.writes == [WriteOf(config, e)]
      else
        id in log && entry.total == log[id].total && entry.started == log[id].started
        && entry.writes == log[id].writes
           + if IsPiece(config, e, id, entry.total) then [WriteOf(config, e)] else []
  {
    var datagram := Classify(config, e.src);
    var l := LogCollect(config, log, e.clock.gc);
    var entry := LogStep(config, log, e).log[id];
    if !Begun(config, log, e, id) {
      assert id in log;
      assert id in l ==> l[id] == log[id];
      if !IsPiece(config, e, id, entry.total) {
        assert log[id].writes + [] == log[id].writes;
      }
    }
  }

  /** Every pending entry goes back to one datagram, and holds all of its chunks since then. */
  lemma {:induction false} EntryOrigin(config: Config, es: seq<Event>, id: u64) returns (j: nat)
    requires id in LogRun(config, es)
    ensures BegunAt(config, es, id, LogRun(config, es)[id], j)
    decreases |es|, 1
  {
    assert es != [];
    var before, e := es[..|es| - 1], es[|es| - 1];
    assert es == before + [e];
    j := OriginStep(config, before, e, id);
  }

  lemma {:induction false} OriginStep(config: Config, es: seq<Event>, e: Event, id: u64) returns (j: nat)
    requires id in LogRun(config, es + [e])
    ensures BegunAt(config, es + [e], id, LogRun(config, es + [e])[id], j)
    decreases |es| + 1, 0
  {
    var log := LogRun(config, es);
    LogRunSnoc(config, es, e);
    var entry := LogRun(config, es + [e])[id];
    EntryStep(config, log, e, id);
    if Begun(config, log, e, id) {
      j := |es|;
      BeginsHere(config, es, e, id, entry);
    } else {
      j := EntryOrigin(config, es, id);
      BeganEarlier(config, es, e, id, log[id], entry, j);
    }
  }

  /** One chunk never covers a message of two or more. */
  lemma LoneWrite(w: Write, total: nat)
    requires total >= 2
    ensures !Covers([w], total)
  {
    assert [w][..0] == [];
    assert LastWrite([w][..0], 0) == None && LastWrite([w][..0], 1) == None;
    assert LastWrite([w], 0) == None || LastWrite([w], 1) == None;
  }

  /** A delivered chunked message is a pending one that the last datagram completes. */
  lemma DeliveredStep(config: Config, log: Log, e: Event, chunks: seq<Bytes>) returns (id: u64)
    requires LogStep(config, log, e).result == Ok(Some(Message.Chunked(chunks)))
    ensures id in log && log[id].total == |chunks| && IsPiece(config, e, id, |chunks|)
    ensures log[id].started + config.Timeout() >= e.clock.gc
    ensures var ws := log[id].writes + [WriteOf(config, e)];
      Covers(ws, |chunks|) && chunks == Assemble(ws, |chunks|)
  {
    var datagram := Classify(config, e.src);
    id := datagram.header.id;
    var l := LogCollect(config, log, e.clock.gc);
    assert id in l && l[id] == log[id];
  }

  /** Where a delivered chunked message came from: all chunks of one message id from the
      datagram that began it, no longer ago than the timeout, to the last one; for each
      sequence number the latest bytes are used, and only the last datagram made it complete. */
  lemma DeliveredOrigin(config: Config, es: seq<Event>, chunks: seq<Bytes>) returns (id: u64, j: nat)
    requires Starts(config, es) <= TWO_64 && es != []
    requires Answer(config, es) == Ok(Some(Message.Chunked(chunks)))
    ensures j < |es| - 1 && Begun(config, LogRun(config, es[..j]), es[j], id)
    ensures IsPiece(config, es[j], id, |chunks|) && IsPiece(config, es[|es| - 1], id, |chunks|)
    ensures 2 <= |chunks| <= config.maxChunksPerMessage
    ensures es[j].clock.arrival + config.Timeout() >= es[|es| - 1].clock.gc
    ensures Covers(Pieces(config, es[j..], id, |chunks|), |chunks|)
    ensures chunks == Assemble(Pieces(config, es[j..], id, |chunks|), |chunks|)
    ensures !Covers(Pieces(config, es[j..|es| - 1], id, |chunks|), |chunks|)
  {
    hide Step, LogStep, IsPiece, Covers, Refines, CountersBelow, Begins;
    RunRefines(config, es);
    var before, e := es[..|es| - 1], es[|es| - 1];
    StartsSnoc(config, es);
    var log := LogRun(config, before);
    id := DeliveredStep(config, log, e, chunks);
    j := EntryOrigin(config, before, id);
    assert es[..j] == before[..j] && es[j..|es| - 1] == before[j..];
    assert es[j..] == before[j..] + [e];
    PiecesSnoc(config, before[j..], e, id, |chunks|);
    EntryUncovered(config, before, id);
  }

  lemma StartsSnoc(config: Config, es: seq<Event>)
    requires es != []
    ensures Starts(config, es[..|es| - 1]) <= Starts(config, es)
  {
  }

  /** A pending entry expects a permitted number of chunks and does not have them all. */
  lemma EntryUncovered(config: Config, es: seq<Event>, id: u64)
    requires Starts(config, es) <= TWO_64
    requires id in LogRun(config, es)
    ensures !Covers(LogRun(config, es)[id].writes, LogRun(config, es)[id].total)
    ensures 2 <= LogRun(config, es)[id].total <= config.maxChunksPerMessage
  {
    RunRefines(config, es);
    var p, entry := Run(config, es).byId[id], LogRun(config, es)[id];
    assert Matches(p, entry) && Incomplete(config, p.chunks);
    CompletionMatches(p.chunks, entry.writes);
  }

  /** Nothing the collector does at `e` touches a message begun at time `started`. */
  predicate Spares(config: Config, log: Log, e: Event, started: nat) {
    Classify(config, e.src).Plain?
    || (|log| < config.incompleteCapacity
        && (e.clock.gc >= config.Timeout() ==> started + config.Timeout() >= e.clock.gc))
  }

  /** After the run `pre`, no collection during `mid` drops the message begun by its first datagram. */
  ghost predicate Undisturbed(config: Config, pre: seq<Event>, mid: seq<Event>) {
    forall k :: 0 < k < |mid| ==> Spares(config, LogRun(config, pre + mid[..k]), mid[k], mid[0].clock.arrival)
  }

  /** No non-empty prefix of `mid` has all chunks of the message. */
  ghost predicate NeverCovers(config: Config, mid: seq<Event>, id: u64, total: nat) {
    forall m :: 0 < m <= |mid| ==> !Covers(Pieces(config, mid[..m], id, total), total)
  }

  /** What one datagram does to a pending message that the collector spares. */
  lemma SparedStep(config: Config, log: Log, e: Event, id: u64)
    requires id in log && Spares(config, log, e, log[id].started)
    ensures var entry := log[id];
      var next := LogStep(config, log, e);
      if IsPiece(config, e, id, entry.total) then
        var ws := entry.writes + [WriteOf(config, e)];
        if Covers(ws, entry.total) then
          id !in next.log && next.result == Ok(Some(Message.Chunked(Assemble(ws, entry.total))))
        else id in next.log && next.log[id] == entry.(writes := ws) && next.result == Ok(None)
      else id in next.log && next.log[id] == entry
  {
  }

  lemma UndisturbedPrefix(config: Config, pre: seq<Event>, mid: seq<Event>, e: Event)
    requires Undisturbed(config, pre, mid + [e])
    ensures Undisturbed(config, pre, mid)
    ensures mid != [] ==> Spares(config, LogRun(config, pre + mid), e, mid[0].clock.arrival)
  {
    var longer := mid + [e];
    forall k | 0 < k < |mid|
      ensures Spares(config, LogRun(config, pre + mid[..k]), mid[k], mid[0].clock.arrival)
    {
      assert longer[..k] == mid[..k];
      assert Spares(config, LogRun(config, pre + longer[..k]), longer[k], longer[0].clock.arrival);
    }
    if mid != [] {
      assert longer[..|mid|] == mid;
      assert Spares(config, LogRun(config, pre + longer[..|mid|]), longer[|mid|], longer[0].clock.arrival);
    }
  }

  lemma NeverCoversPrefix(config: Config, mid: seq<Event>, e: Event, id: u64, total: nat)
    requires NeverCovers(config, mid + [e], id, total)
    ensures NeverCovers(config, mid, id, total)
    ensures !Covers(Pieces(config, mid + [e], id, total), total)
  {
    var longer := mid + [e];
    forall m | 0 < m <= |mid|
      ensures !Covers(Pieces(config, mid[..m], id, total), total)
    {
      assert longer[..m] == mid[..m];
    }
    assert longer[..|longer|] == longer;
  }

  lemma NeverCoversAll(config: Config, mid: seq<Event>, id: u64, total: nat)
    requires mid != [] && NeverCovers(config, mid, id, total)
    ensures !Covers(Pieces(config, mid, id, total), total)
  {
    assert mid[..|mid|] == mid;
  }

  lemma BegunStep(config: Config, log: Log, e: Event, id: u64, total: nat)
    requires Begun(config, log, e, id) && IsPiece(config, e, id, total)
    ensures var next := LogStep(config, log, e);
      && id in next.log && next.log[id] == Entry(total, e.clock.arrival, [WriteOf(config, e)])
      && next.result == Ok(None)
  {
  }

  lemma PendingAtFirst(config: Config, pre: seq<Event>, e: Event, id: u64, total: u8)
    requires Begun(config, LogRun(config, pre), e, id) && IsPiece(config, e, id, total)
    ensures var log := LogRun(config, pre + [e]);
      id in log && log[id] == Entry(total, e.clock.arrival, Pieces(config, [e], id, total))
    ensures LogAnswer(config, pre + [e]) == Ok(None)
    ensures !Covers(Pieces(config, [e], id, total), total)
  {
    LoneWrite(WriteOf(config, e), total);
    LogRunSnoc(config, pre, e);
    BegunStep(config, LogRun(config, pre), e, id, total);
    PiecesSnoc(config, [], e, id, total);
    assert [] + [e] == [e];
  }

  /** What the next datagram does to a message that is pending with its chunks. */
  lemma PendingNext(config: Config, pre: seq<Event>, mid: seq<Event>, e: Event, id: u64, total: u8)
    requires mid != [] && Undisturbed(config, pre, mid + [e])
    requires id in LogRun(config, pre + mid)
    requires LogRun(config, pre + mid)[id] == Entry(total, mid[0].clock.arrival, Pieces(config, mid, id, total))
    requires !Covers(Pieces(config, mid, id, total), total)
    ensures var log, answer := LogRun(config, pre + (mid + [e])), LogAnswer(config, pre + (mid + [e]));
      var ws := Pieces(config, mid + [e], id, total);
      if Covers(ws, total) then id !in log && answer == Ok(Some(Message.Chunked(Assemble(ws, total))))
      else id in log && log[id] == Entry(total, mid[0].clock.arrival, ws)
           && (IsPiece(config, e, id, total) ==> answer == Ok(None))
  {
    var log := LogRun(config, pre + mid);
    assert pre + (mid + [e]) == (pre + mid) + [e];
    LogRunSnoc(config, pre + mid, e);
    UndisturbedPrefix(config, pre, mid, e);
    PiecesSnoc(config, mid, e, id, total);
    SparedStep(config, log, e, id);
    NoWriteStays(log[id].writes);
  }

  lemma NoWriteStays(ws: seq<Write>)
    ensures ws + [] == ws
  {
  }

  /** An undisturbed message stays pending with exactly its chunks until they cover it. */
  lemma {:induction false} StaysPending(config: Config, pre: seq<Event>, mid: seq<Event>, id: u64, total: u8)
    requires mid != []
    requires Begun(config, LogRun(config, pre), mid[0], id) && IsPiece(config, mid[0], id, total)
    requires Undisturbed(config, pre, mid) && NeverCovers(config, mid, id, total)
    ensures id in LogRun(config, pre + mid)
    ensures LogRun(config, pre + mid)[id]
         == Entry(total, mid[0].clock.arrival, Pieces(config, mid, id, total))
    ensures IsPiece(config, mid[|mid| - 1], id, total) ==> LogAnswer(config, pre + mid) == Ok(None)
  {
    hide *;
    var before, e := mid[..|mid| - 1], mid[|mid| - 1];
    assert mid == before + [e];
    if before == [] {
      assert mid == [e];
      PendingAtFirst(config, pre, e, id, total);
    } else {
      UndisturbedPrefix(config, pre, before, e);
      NeverCoversPrefix(config, before, e, id, total);
      StaysPending(config, pre, before, id, total);
      NeverCoversAll(config, before, id, total);
      PendingNext(config, pre, before, e, id, total);
    }
  }

  /** The datagram that first covers an undisturbed message gets it delivered. */
  lemma DeliversWhenCovered(config: Config, pre: seq<Event>, mid: seq<Event>, id: u64, total: u8)
    requires mid != []
    requires Begun(config, LogRun(config, pre), mid[0], id) && IsPiece(config, mid[0], id, total)
    requires Undisturbed(config, pre, mid)
    requires NeverCovers(config, mid[..|mid| - 1], id, total)
    requires Covers(Pieces(config, mid, id, total), total)
    ensures LogAnswer(config, pre + mid)
         == Ok(Some(Message.Chunked(Assemble(Pieces(config, mid, id, total), total))))
    ensures id !in LogRun(config, pre + mid)
  {
    hide *;
    var before, e := mid[..|mid| - 1], mid[|mid| - 1];
    assert mid == before + [e];
    if before == [] {
      assert mid == [e];
      PendingAtFirst(config, pre, e, id, total);
    } else {
      UndisturbedPrefix(config, pre, before, e);
      StaysPending(config, pre, before, id, total);
      NeverCoversAll(config, before, id, total);
      PendingNext(config, pre, before, e, id, total);
    }
  }

  /** Datagram `e` carries chunk number `i` of the message. */
  predicate Supplies(config: Config, e: Event, id: u64, total: nat, i: int) {
    IsPiece(config, e, id, total) && WriteOf(config, e).seqNum == i
  }

  ghost predicate Supplied(config: Config, es: seq<Event>, id: u64, total: nat, i: int) {
    exists k :: 0 <= k < |es| && Supplies(config, es[k], id, total, i)
  }

  ghost predicate AllSupplied(config: Config, es: seq<Event>, id: u64, total: nat) {
    forall i :: 0 <= i < total ==> Supplied(config, es, id, total, i)
  }

  /** Every chunk of the message among `es` carries the bytes that `pieces` has for its number. */
  ghost predicate Carries(config: Config, es: seq<Event>, id: u64, pieces: seq<Bytes>) {
    forall k :: 0 <= k < |es| && IsPiece(config, es[k], id, |pieces|) ==>
      WriteOf(config, es[k]).bytes == pieces[WriteOf(config, es[k]).seqNum]
  }

  lemma SuppliedSnoc(config: Config, es: seq<Event>, e: Event, id: u64, total: nat, i: int)
    ensures Supplied(config, es + [e], id, total, i)
       <==> Supplied(config, es, id, total, i) || Supplies(config, e, id, total, i)
  {
    var longer := es + [e];
    if Supplied(config, es, id, total, i) {
      var k :| 0 <= k < |es| && Supplies(config, es[k], id, total, i);
      assert Supplies(config, longer[k], id, total, i);
    }
    if Supplies(config, e, id, total, i) {
      assert Supplies(config, longer[|es|], id, total, i);
    }
  }

  lemma LastWriteSnoc(ws: seq<Write>, w: Write, i: int)
    ensures LastWrite(ws + [w], i) == if w.seqNum == i then Some(w.bytes) else LastWrite(ws, i)
  {
  }

  lemma {:induction false} SuppliedIffWritten(config: Config, es: seq<Event>, id: u64, pieces: seq<Bytes>, i: nat)
    requires i < |pieces| && Carries(config, es, id, pieces)
    ensures Supplied(config, es, id, |pieces|, i) <==> LastWrite(Pieces(config, es, id, |pieces|), i).Some?
    ensures LastWrite(Pieces(config, es, id, |pieces|), i).Some? ==>
            LastWrite(Pieces(config, es, id, |pieces|), i).value == pieces[i]
  {
    if es != [] {
      var before, e := es[..|es| - 1], es[|es| - 1];
      assert es == before + [e];
      assert Carries(config, before, id, pieces);
      SuppliedIffWritten(config, before, id, pieces, i);
      SuppliedSnoc(config, before, e, id, |pieces|, i);
      PiecesSnoc(config, before, e, id, |pieces|);
      if IsPiece(config, e, id, |pieces|) {
        LastWriteSnoc(Pieces(config, before, id, |pieces|), WriteOf(config, e), i);
      } else {
        NoWriteStays(Pieces(config, before, id, |pieces|));
      }
    }
  }

  lemma CoversIffAllSupplied(config: Config, es: seq<Event>, id: u64, pieces: seq<Bytes>)
    requires Carries(config, es, id, pieces)
    ensures AllSupplied(config, es, id, |pieces|) <==> Covers(Pieces(config, es, id, |pieces|), |pieces|)
    ensures AllSupplied(config, es, id, |pieces|) ==>
            Assemble(Pieces(config, es, id, |pieces|), |pieces|) == pieces
  {
    forall i: nat | i < |pieces|
      ensures Supplied(config, es, id, |pieces|, i) <==> LastWrite(Pieces(config, es, id, |pieces|), i).Some?
      ensures LastWrite(Pieces(config, es, id, |pieces|), i).Some? ==>
              LastWrite(Pieces(config, es, id, |pieces|), i).value == pieces[i]
    {
      SuppliedIffWritten(config, es, id, pieces, i);
    }
  }
}
