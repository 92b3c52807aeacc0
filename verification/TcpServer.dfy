/** The whole TCP side: clients that send bytes, a decoder and a receiver for each, and the pool. */
module TcpServer {
  import opened Prelude
  import opened ChunkHeader
  import opened Message
  import opened Gelf
  import opened Framing
  import opened Decode
  import opened TcpStream
  import opened TcpReceive
  import opened Listen
  import opened Timing

  /** Bytes that can be read from a connection from some time on. */
  datatype Read = Read(at: nat, bytes: Bytes)

  /** A connection stays open, is closed by the client, or fails. */
  datatype Ending = Open | Close(at: nat) | Fail(at: nat)

  datatype Client = Client(input: seq<Read>, ending: Ending)

  function Stream(input: seq<Read>): Bytes {
    if input == [] then [] else Stream(input[..|input| - 1]) + input[|input| - 1].bytes
  }

  /** The frames that are complete after some reads. */
  function Completed(max: nat, input: seq<Read>): seq<Bytes> {
    Keep(max, Segments(Stream(input)))
  }

  lemma CompletedGrows(max: nat, input: seq<Read>)
    requires input != []
    ensures |Completed(max, input[..|input| - 1])| <= |Completed(max, input)|
  {
    SegmentsGrow(max, Stream(input[..|input| - 1]), input[|input| - 1].bytes);
  }

  function Copies(n: nat, at: nat): seq<nat> {
    seq(n, i requires 0 <= i < n => at)
  }

  /** When each of these frames is complete: with the read that brings its separator. */
  function FrameTimes(max: nat, input: seq<Read>): (times: seq<nat>)
    ensures |times| == |Completed(max, input)|
  {
    if input == [] then []
    else
      CompletedGrows(max, input);
      var before := input[..|input| - 1];
      FrameTimes(max, before)
      + Copies(|Completed(max, input)| - |Completed(max, before)|, input[|input| - 1].at)
  }

  /** All frames of a client; what is left when it closes the connection may be one, too. */
  function FramesOf(max: nat, client: Client): seq<Bytes> {
    if client.ending.Close? then Frames(max, Stream(client.input)) else Completed(max, client.input)
  }

  function TimesOf(max: nat, client: Client): (times: seq<nat>)
    ensures |times| == |FramesOf(max, client)|
  {
    FrameTimes(max, client.input)
    + if client.ending.Close? then
        Copies(|FramesOf(max, client)| - |Completed(max, client.input)|, client.ending.at)
      else []
  }

  /** What the pool is handed for one answer of the receiver. */
  function ReceivedOf(r: Result<Option<Message>, Error>): Received {
    match r
    case Ok(Some(m)) => Complete(m)
    case Ok(None) => Incomplete
    case Err(_) => Erroneous
  }

  function MessageOf(r: Received): Option<Message> {
    if r.Complete? then Some(r.message) else None
  }

  function Fed(frames: seq<Bytes>, clock: nat -> Clock): seq<Event> {
    seq(|frames|, i requires 0 <= i < |frames| => Event(frames[i], clock(i)))
  }

  function Items(answers: seq<Result<Option<Message>, Error>>, times: seq<nat>): seq<Arrival>
    requires |times| == |answers|
  {
    seq(|times|, k requires 0 <= k < |times| => Arrival(times[k], Value(ReceivedOf(answers[k]))))
  }

  function EndOf(ending: Ending): seq<Arrival> {
    match ending
    case Open => []
    case Close(at) => [Arrival(at, Closed)]
    case Fail(at) => [Arrival(at, Failure)]
  }

  /** What the pool gets to see of a client: a value for each frame, from its own receiver, and its end. */
  function ScriptOf(config: Config, max: nat, client: Client, clock: nat -> Clock): seq<Arrival> {
    Items(Answers(config, Fed(FramesOf(max, client), clock)), TimesOf(max, client)) + EndOf(client.ending)
  }

  /** Some of the messages that frames stand for: what is emitted for the first frames, each for itself. */
  predicate DeliversPrefix(emitted: seq<Received>, frames: seq<Bytes>) {
    && |emitted| <= |frames|
    && forall k :: 0 <= k < |emitted| ==> MessageOf(emitted[k]) == Delivered(frames[k])
  }

  lemma {:induction false} ValuesAt(script: seq<Arrival>)
    requires AllValues(script)
    ensures |Values(script)| == |script|
    ensures forall k :: 0 <= k < |script| ==> Values(script)[k] == script[k].item.value
  {
    if script != [] {
      assert AllValues(script[1..]);
      ValuesAt(script[1..]);
    }
  }

  lemma EndHasNoValues(ending: Ending)
    ensures Values(EndOf(ending)) == []
  {
  }

  lemma ScriptValues(items: seq<Arrival>, ending: Ending)
    requires AllValues(items)
    ensures Values(items + EndOf(ending)) == Values(items)
  {
    var script := items + EndOf(ending);
    assert script[..|items|] == items && script[|items|..] == EndOf(ending);
    ValuesSplit(script, |items|);
    EndHasNoValues(ending);
  }

  lemma FramesNulFree(max: nat, client: Client)
    ensures forall k :: 0 <= k < |FramesOf(max, client)| ==> NulFree(FramesOf(max, client)[k])
  {
    var s := Stream(client.input);
    FramesFit(max, s);
    SegmentsPartition(s);
    KeepMembers(max, Segments(s));
  }

  /** The values of a client's script are its frames' messages: a frame that is not empty and does not
      begin with the chunk magic is one, and no other is. */
  lemma ScriptDelivers(config: Config, max: nat, client: Client, clock: nat -> Clock)
    ensures var values := Values(ScriptOf(config, max, client, clock));
      |values| == |FramesOf(max, client)| && DeliversPrefix(values, FramesOf(max, client))
  {
    hide Values, FramesOf, TimesOf, Answers, Delivered;
    var frames := FramesOf(max, client);
    var es := Fed(frames, clock);
    var items := Items(Answers(config, es), TimesOf(max, client));
    ScriptValues(items, client.ending);
    ValuesAt(items);
    FramesNulFree(max, client);
    forall k | 0 <= k < |frames|
      ensures MessageOf(Values(items)[k]) == Delivered(frames[k])
    {
      AnswersAt(config, es, k);
      NulFreeAnswer(config, es[..k + 1]);
      AnswerMessage(Answer(config, es[..k + 1]));
    }
  }

  lemma AnswerMessage(r: Result<Option<Message>, Error>)
    ensures MessageOf(ReceivedOf(r)) == MessageIn(r)
  {
  }

  /** The value for a frame reports the receiver's answer: a message, nothing yet, or an error. */
  predicate Reports(v: Received, r: Result<Option<Message>, Error>) {
    && (v == Erroneous <==> r.Err?)
    && (v == Incomplete <==> r == Ok(None))
    && (v.Complete? ==> r == Ok(Some(v.message)))
  }

  /** What the value for a frame is, from its bytes, at the time the receiver reads on its clock: an empty frame is
      incomplete and any other that does not begin with 30 and 15 is a message; one that does is an error if the
      clock is too early, it is too short for a header, its sequence number is not below its count or there are too
      many chunks; and it is never a message. */
  predicate FrameGives(config: Config, frame: Bytes, clock: Clock, v: Received) {
    if frame == [] then v == Incomplete
    else if !(|frame| >= 2 && frame[0] == 30 && frame[1] == 15) then v == Complete(Single(Sniff(frame), frame))
    else if clock.gc < config.incompleteTimeoutMs * 1_000_000 || |frame| < 12 || frame[10] >= frame[11]
            || frame[11] > config.maxChunksPerMessage
    then v == Erroneous
    else v in {Incomplete, Erroneous}
  }

  lemma AnswerReported(r: Result<Option<Message>, Error>)
    ensures Reports(ReceivedOf(r), r)
  {
  }

  lemma ValueOfFrame(config: Config, es: seq<Event>)
    requires es != [] && forall k :: 0 <= k < |es| ==> NulFree(es[k].src)
    ensures var last := es[|es| - 1];
      FrameGives(config, last.src, last.clock, ReceivedOf(Answer(config, es)))
  {
    hide Run, Classify, Collect, PushPiece, Sniff;
    var last := es[|es| - 1];
    var s := Run(config, es[..|es| - 1]);
    NulFreeAnswer(config, es);
    RefusedIff(config, s, last.src, last.clock);
    OthersOnlyCollect(config, s, last.src, last.clock);
    FrameMagic(last.src);
  }

  lemma FrameMagic(frame: Bytes)
    ensures Delivered(frame).None? <==> frame == [] || (|frame| >= 2 && frame[0] == 30 && frame[1] == 15)
  {
    if |frame| >= 2 {
      assert frame[..2] == [frame[0], frame[1]];
    }
  }

  /** What the pool gets to see of a client, item by item: for each frame, with the read that brings its
      separator, or with the close for a rest, the value that reports the answer of the receiver that has been
      fed the frames up to it; and after the frames the end, if there is one. */
  lemma ScriptMeaning(config: Config, max: nat, client: Client, clock: nat -> Clock)
    ensures var frames, script := FramesOf(max, client), ScriptOf(config, max, client, clock);
      var es := Fed(frames, clock);
      && (forall k :: 0 <= k < |frames| ==>
            && script[k].item.Value?
            && Reports(script[k].item.value, Answer(config, es[..k + 1]))
            && FrameGives(config, frames[k], clock(k), script[k].item.value))
      && (match client.ending
          case Open => |script| == |frames|
          case Close(at) => script[|frames|..] == [Arrival(at, Item.Closed)]
          case Fail(at) => script[|frames|..] == [Arrival(at, Failure)])
  {
    hide FramesOf, TimesOf, Answer, Answers, FrameGives, Reports;
    var frames, script := FramesOf(max, client), ScriptOf(config, max, client, clock);
    var es := Fed(frames, clock);
    FramesNulFree(max, client);
    forall k | 0 <= k < |frames|
      ensures script[k].item.Value?
      ensures Reports(script[k].item.value, Answer(config, es[..k + 1]))
      ensures FrameGives(config, frames[k], clock(k), script[k].item.value)
    {
      AnswersAt(config, es, k);
      AnswerReported(Answer(config, es[..k + 1]));
      ValueOfFrame(config, es[..k + 1]);
    }
  }

  /** Frame `k` is complete after `i + 1` reads, and was not after `i`. */
  predicate CompletedBy(max: nat, input: seq<Read>, i: nat, k: nat)
    requires i < |input|
  {
    |Keep(max, Segments(Stream(input[..i])))| <= k < |Keep(max, Segments(Stream(input[..i + 1])))|
  }

  /** When the items come: a frame that is complete after `i + 1` reads and was not after `i` comes with the last
      of them, and a rest that becomes a frame comes with the close. */
  lemma {:induction false} FrameTimesMeaning(max: nat, input: seq<Read>, i: nat, k: nat)
    requires i < |input| && CompletedBy(max, input, i, k)
    ensures k < |FrameTimes(max, input)| && FrameTimes(max, input)[k] == input[i].at
    decreases |input|
  {
    hide Stream, Segments, Keep;
    var n := |input| - 1;
    CompletedGrows(max, input);
    if i == n {
      assert input[..i + 1] == input;
    } else {
      assert input[..n][..i] == input[..i] && input[..n][..i + 1] == input[..i + 1] && input[..n][i] == input[i];
      FrameTimesMeaning(max, input[..n], i, k);
    }
  }

  lemma TimesMeaning(config: Config, max: nat, client: Client, clock: nat -> Clock, k: nat)
    requires k < |FramesOf(max, client)|
    ensures var script, input := ScriptOf(config, max, client, clock), client.input;
      && (forall i: nat :: i < |input| && CompletedBy(max, input, i, k) ==> script[k].at == input[i].at)
      && (|Keep(max, Segments(Stream(input)))| <= k ==> client.ending.Close? && script[k].at == client.ending.at)
  {
    hide Answers, Stream, Segments, Keep, FrameTimes;
    var script, input := ScriptOf(config, max, client, clock), client.input;
    forall i: nat | i < |input| && CompletedBy(max, input, i, k)
      ensures script[k].at == input[i].at
    {
      FrameTimesMeaning(max, input, i, k);
    }
  }

  /** The stream is all the bytes of the reads, in order. */
  lemma {:induction false} StreamMeaning(input: seq<Read>)
    ensures Stream(input) == Concat(seq(|input|, i requires 0 <= i < |input| => input[i].bytes))
  {
    var parts := seq(|input|, i requires 0 <= i < |input| => input[i].bytes);
    if input != [] {
      var n := |input| - 1;
      StreamMeaning(input[..n]);
      var front := seq(n, i requires 0 <= i < n => input[..n][i].bytes);
      assert parts == front + [input[n].bytes];
      ConcatSnoc(front, input[n].bytes);
    }
  }

  /** Each emission is what its frame gives. */
  predicate GivesPrefix(config: Config, emitted: seq<Received>, frames: seq<Bytes>, clock: nat -> Clock) {
    && |emitted| <= |frames|
    && forall k :: 0 <= k < |emitted| ==> FrameGives(config, frames[k], clock(k), emitted[k])
  }

  lemma ValuesGiven(config: Config, max: nat, client: Client, clock: nat -> Clock)
    ensures GivesPrefix(config, Values(ScriptOf(config, max, client, clock)), FramesOf(max, client), clock)
  {
    hide Values, FramesOf, TimesOf, Answers, FrameGives;
    var frames := FramesOf(max, client);
    var items := Items(Answers(config, Fed(frames, clock)), TimesOf(max, client));
    ScriptMeaning(config, max, client, clock);
    ScriptValues(items, client.ending);
    ValuesAt(items);
    assert ScriptOf(config, max, client, clock) == items + EndOf(client.ending);
    assert forall k :: 0 <= k < |items| ==> ScriptOf(config, max, client, clock)[k] == items[k];
  }

  lemma GivenLess(config: Config, shorter: seq<Received>, emitted: seq<Received>, frames: seq<Bytes>,
                  clock: nat -> Clock)
    requires shorter <= emitted && GivesPrefix(config, emitted, frames, clock)
    ensures GivesPrefix(config, shorter, frames, clock)
  {
    hide FrameGives;
  }

  /** In every reachable state of the pool, what it has emitted for a client is what its first frames give. */
  lemma PoolGives(plan: Plan, s: Listen.State, id: nat, config: Config, max: nat, client: Client,
                  clock: nat -> Clock)
    requires Inv(plan, s) && id < |plan.incoming| && plan.incoming[id] == Some(ScriptOf(config, max, client, clock))
    ensures GivesPrefix(config, Projection(s.log, id), FramesOf(max, client), clock)
  {
    hide ScriptOf, GivesPrefix, Projection, Values;
    assert Accounted(plan, s, id);
    ValuesGiven(config, max, client, clock);
    GivenLess(config, Projection(s.log, id), Values(ScriptOf(config, max, client, clock)), FramesOf(max, client), clock);
  }

  lemma DeliversLess(shorter: seq<Received>, emitted: seq<Received>, frames: seq<Bytes>)
    requires shorter <= emitted && DeliversPrefix(emitted, frames)
    ensures DeliversPrefix(shorter, frames)
  {
  }

  /** In every reachable state of the pool, what it has emitted for a client are the messages of the
      client's first frames, whatever the other clients do. */
  lemma PoolDelivers(plan: Plan, s: Listen.State, id: nat, config: Config, max: nat, client: Client,
                     clock: nat -> Clock)
    requires Inv(plan, s) && id < |plan.incoming| && plan.incoming[id] == Some(ScriptOf(config, max, client, clock))
    ensures DeliversPrefix(Projection(s.log, id), FramesOf(max, client))
  {
    hide ScriptOf, DeliversPrefix, Projection, Values;
    assert Accounted(plan, s, id);
    ScriptDelivers(config, max, client, clock);
    DeliversLess(Projection(s.log, id), Values(ScriptOf(config, max, client, clock)), FramesOf(max, client));
  }

  // Reading a client.

  lemma OneMoreRead(max: nat, input: seq<Read>, i: nat)
    requires i < |input|
    ensures Stream(input[..i + 1]) == Stream(input[..i]) + input[i].bytes
    ensures Completed(max, input[..i + 1]) == Keep(max, Segments(Stream(input[..i + 1])))
    ensures |Completed(max, input[..i])| <= |Completed(max, input[..i + 1])|
    ensures FrameTimes(max, input[..i + 1])
         == FrameTimes(max, input[..i])
            + Copies(|Completed(max, input[..i + 1])| - |Completed(max, input[..i])|, input[i].at)
  {
    hide Segments, Keep;
    assert input[..i + 1][..i] == input[..i];
    CompletedGrows(max, input[..i + 1]);
  }

  /** When the decoder asks for more data, it has put out every frame that is complete. */
  lemma NothingWithheld(max: nat, consumed: Bytes, view: Bytes)
    requires Framing.Closed(consumed) && NulFree(view)
    ensures Keep(max, Segments(consumed + view)) == Keep(max, Segments(consumed))
  {
    SegmentsAppend(consumed, view);
    NoSegment(view);
    assert Segments(consumed) + [] == Segments(consumed);
  }

  /** One read: the bytes arrive, and the decoder is called until it asks for more. */
  method ReadMore(d: Decode.Decoder, src: Buffer, ghost all: Bytes, ghost before: Bytes, sofar: seq<Bytes>, more: Bytes)
    returns (frames: seq<Bytes>, ghost consumed: Bytes)
    requires InStep(d, src, all, before, sofar)
    modifies d, src
    ensures InStep(d, src, all + more, consumed, frames)
    ensures frames == Keep(d.maxSizeBytes, Segments(all + more))
  {
    hide Segments, Keep, TooLong, Seen;
    Arrive(d, src, all, before, sofar, more);
    frames, consumed := Pump(d, src, all + more, before, sofar);
    NothingWithheld(d.maxSizeBytes, consumed, d.View(src));
  }

  /** The frames of a client and when they come, read by read. */
  method ReadFrames(max: usize, client: Client) returns (frames: seq<Bytes>, times: seq<nat>)
    ensures frames == FramesOf(max, client) && times == TimesOf(max, client)
  {
    hide Segments, Keep, TooLong, Seen, Frames, Stream, Completed, FrameTimes;
    var input := client.input;
    var src := new Buffer([]);
    var d := new Decode.Decoder(max, src);
    frames, times := [], [];
    ghost var consumed: Bytes := [];
    EmptyStream(max);
    NothingRead(max);
    for i := 0 to |input|
      invariant fresh(d) && fresh(src) && d.maxSizeBytes == max
      invariant InStep(d, src, Stream(input[..i]), consumed, frames)
      invariant frames == Completed(max, input[..i]) && times == FrameTimes(max, input[..i])
    {
      OneMoreRead(max, input, i);
      frames, consumed := ReadMore(d, src, Stream(input[..i]), consumed, frames, input[i].bytes);
      times := times + Copies(|frames| - |times|, input[i].at);
    }
    assert input[..|input|] == input;
    if client.ending.Close? {
      FramesComplete(max, input);
      frames := PumpEof(d, src, Stream(input), consumed, frames);
      times := times + Copies(|frames| - |times|, client.ending.at);
    } else {
      assert times + [] == times;
    }
  }

  lemma EmptyStream(max: nat)
    ensures Framing.Closed([]) && Keep(max, Segments([])) == [] && TooLong(max, Segments([])) == 0
  {
  }

  lemma FramesComplete(max: nat, input: seq<Read>)
    ensures |Completed(max, input)| <= |Frames(max, Stream(input))|
  {
  }

  /** What a connection hands to the pool: its decoder's frames, each answered by its receiver. */
  method ReadClient(config: Config, max: usize, client: Client, clock: nat -> Clock) returns (script: seq<Arrival>)
    ensures script == ScriptOf(config, max, client, clock)
  {
    var frames, times := ReadFrames(max, client);
    var answers := DecodeAll(config, Fed(frames, clock));
    script := Items(answers, times) + EndOf(client.ending);
  }

  /** Serves clients over a pool. Whatever the others do, the outcomes for each client are the messages of
      its first frames; and when an eager poll at last stops without a value, they are what its own script
      makes due by then, or by the time it was timed out. */
  method ServeClients(config: Config, max: usize, clients: seq<Option<Client>>, clock: nat -> nat -> Clock,
                      endless: bool, limit: nat, keepAlive: nat, times: seq<nat>, eager: bool)
    returns (outcomes: seq<Emission>, ghost states: seq<Listen.State>)
    ensures |outcomes| == |times|
    ensures forall id :: 0 <= id < |clients| && clients[id].Some? ==>
      DeliversPrefix(Projection(Logged(times, outcomes), id), FramesOf(max, clients[id].value))
      && GivesPrefix(config, Projection(Logged(times, outcomes), id), FramesOf(max, clients[id].value), clock(id))
    ensures IsRun(PlanOf(config, max, clients, clock, endless, limit, keepAlive), times, eager, outcomes, states)
    ensures |states| == |times| + 1 && forall k :: 0 <= k <= |times| ==> |states[k].connections| <= limit
    ensures eager && times != [] && !outcomes[|times| - 1].Emitted? ==>
      forall id :: id in states[|times|].connections ==>
        InTime(PlanOf(config, max, clients, clock, endless, limit, keepAlive), states[|times|], id, times[|times| - 1])
    ensures endless ==> forall k :: 0 <= k < |times| ==> !outcomes[k].Finished?
    ensures Ascending(times) && eager && times != [] && !outcomes[|times| - 1].Emitted? ==>
      var s, now := states[|times|], times[|times| - 1];
      forall id :: 0 <= id < |clients| && id < s.at && clients[id].Some? ==>
        Projection(Logged(times, outcomes), id)
        == Due(ScriptOf(config, max, clients[id].value, clock(id)), if id in s.expired then s.expired[id].time else now)
  {
    hide ScriptOf, DeliversPrefix, GivesPrefix, Projection, Logged, Due, Polls;
    hide Inv, InTime, FramesOf, Clocked, NothingReady, Topped;
    var incoming: Incoming := [];
    for i := 0 to |clients|
      invariant |incoming| == i
      invariant forall k :: 0 <= k < i ==> incoming[k] == Incomings(config, max, clients, clock)[k]
    {
      if clients[i].Some? {
        var script := ReadClient(config, max, clients[i].value, clock(i));
        incoming := incoming + [Some(script)];
      } else {
        incoming := incoming + [None];
      }
    }
    var plan := Plan(incoming, endless, limit, keepAlive);
    assert incoming == Incomings(config, max, clients, clock);
    outcomes, states := Serve(plan, times, eager);
    var s := states[|times|];
    forall id | 0 <= id < |clients| && clients[id].Some?
      ensures DeliversPrefix(Projection(Logged(times, outcomes), id), FramesOf(max, clients[id].value))
      ensures GivesPrefix(config, Projection(Logged(times, outcomes), id), FramesOf(max, clients[id].value), clock(id))
    {
      PoolGives(plan, s, id, config, max, clients[id].value, clock(id));
      PoolDelivers(plan, s, id, config, max, clients[id].value, clock(id));
    }
    forall k | 0 <= k <= |times|
      ensures |states[k].connections| <= limit
    {
      RunSafe(plan, times, eager, outcomes, states, k);
      WithinLimit(plan, states[k]);
    }
    forall k | endless && 0 <= k < |times|
      ensures !outcomes[k].Finished?
    {
      RunNeverFinishes(plan, times, eager, outcomes, states, k);
    }
    if Ascending(times) && eager && times != [] && !outcomes[|times| - 1].Emitted? {
      forall id | 0 <= id < |clients| && id < s.at && clients[id].Some?
        ensures Projection(Logged(times, outcomes), id)
             == Due(plan.incoming[id].value, if id in s.expired then s.expired[id].time else times[|times| - 1])
      {
        RunDetermines(plan, times, outcomes, states, id);
      }
    }
  }

  lemma WithinLimit(plan: Plan, s: Listen.State)
    requires Inv(plan, s)
    ensures |s.connections| <= plan.max
  {
  }

  function Incomings(config: Config, max: nat, clients: seq<Option<Client>>, clock: nat -> nat -> Clock): Incoming {
    seq(|clients|, i requires 0 <= i < |clients| =>
      if clients[i].Some? then Some(ScriptOf(config, max, clients[i].value, clock(i))) else None)
  }

  function PlanOf(config: Config, max: nat, clients: seq<Option<Client>>, clock: nat -> nat -> Clock,
                  endless: bool, limit: nat, keepAlive: nat): Plan
  {
    Plan(Incomings(config, max, clients, clock), endless, limit, keepAlive)
  }

  // The keep-alive does not ask for messages.

  function Tick(start: nat, period: nat, k: nat): nat {
    start + k * period
  }

  lemma NextTick(start: nat, period: nat, k: nat)
    requires k > 0
    ensures Tick(start, period, k) == Tick(start, period, k - 1) + period
  {
  }

  /** A client that sends nothing but an empty frame per period. */
  function EmptyFrames(start: nat, period: nat, n: nat): Client {
    Client(EmptyReads(start, period, n), Open)
  }

  function EmptyReads(start: nat, period: nat, n: nat): (input: seq<Read>)
    ensures |input| == n
  {
    if n == 0 then [] else EmptyReads(start, period, n - 1) + [Read(Tick(start, period, n - 1), [0])]
  }

  lemma OneMoreEmpty(max: nat, before: seq<Read>, at: nat)
    requires Framing.Closed(Stream(before))
    ensures var input := before + [Read(at, [0])];
      && Framing.Closed(Stream(input)) && Completed(max, input) == Completed(max, before) + [[]]
      && FrameTimes(max, input) == FrameTimes(max, before) + [at]
  {
    hide Segments, Keep, Stream, FrameTimes, Copies, Framing.Closed;
    var input := before + [Read(at, [0])];
    assert input[..|before| + 1] == input && input[..|before|] == before;
    OneMoreRead(max, input, |before|);
    CloseSegment(max, Stream(before), []);
    assert Stream(before) + ([] + [0]) == Stream(before) + [0];
    OneCopy(at);
  }

  lemma OneCopy(at: nat)
    ensures Copies(1, at) == [at]
  {
  }

  function Empties(n: nat): seq<Bytes> {
    seq(n, k requires 0 <= k < n => [])
  }

  function Ticks(start: nat, period: nat, n: nat): seq<nat> {
    seq(n, k requires 0 <= k < n => Tick(start, period, k))
  }

  lemma OneMoreTick(start: nat, period: nat, n: nat)
    requires n > 0
    ensures Empties(n) == Empties(n - 1) + [[]]
    ensures Ticks(start, period, n) == Ticks(start, period, n - 1) + [Tick(start, period, n - 1)]
  {
    hide Tick;
  }

  lemma NothingRead(max: nat)
    ensures Stream([]) == [] && Framing.Closed([]) && Completed(max, []) == [] && FrameTimes(max, []) == []
  {
    EmptyStream(max);
  }

  lemma {:induction false} EmptyCompleted(max: nat, start: nat, period: nat, n: nat)
    ensures var input := EmptyReads(start, period, n);
      && Framing.Closed(Stream(input))
      && Completed(max, input) == Empties(n) && FrameTimes(max, input) == Ticks(start, period, n)
  {
    hide Stream, Completed, FrameTimes, Framing.Closed, Tick;
    if n == 0 {
      NothingRead(max);
    } else {
      EmptyCompleted(max, start, period, n - 1);
      hide Empties, Ticks;
      OneMoreEmpty(max, EmptyReads(start, period, n - 1), Tick(start, period, n - 1));
      OneMoreTick(start, period, n);
    }
  }

  lemma EmptyAnswer(config: Config, es: seq<Event>)
    requires es != [] && es[|es| - 1].src == []
    ensures Answer(config, es) == Ok(None)
  {
  }

  /** Its script is one value after the other, none of them a message. */
  lemma EmptyScript(config: Config, max: nat, start: nat, period: nat, n: nat, clock: nat -> Clock)
    ensures var script := ScriptOf(config, max, EmptyFrames(start, period, n), clock);
      && |script| == n
      && forall k :: 0 <= k < n ==> script[k] == Arrival(Tick(start, period, k), Value(Incomplete))
  {
    hide Completed, FrameTimes, Answer, Answers, Tick;
    var client := EmptyFrames(start, period, n);
    EmptyCompleted(max, start, period, n);
    var frames := FramesOf(max, client);
    var es := Fed(frames, clock);
    assert TimesOf(max, client) == FrameTimes(max, client.input);
    forall k | 0 <= k < n
      ensures Answers(config, es)[k] == Ok(None)
    {
      AnswersAt(config, es, k);
      EmptyAnswer(config, es[..k + 1]);
    }
  }

  lemma EmptySteady(config: Config, max: nat, start: nat, period: nat, n: nat, clock: nat -> Clock)
    ensures Steady(ScriptOf(config, max, EmptyFrames(start, period, n), clock), period)
  {
    hide ScriptOf, EmptyFrames, Tick;
    EmptyScript(config, max, start, period, n, clock);
    forall k: nat | 0 < k < n
      ensures Tick(start, period, k) == Tick(start, period, k - 1) + period
    {
      NextTick(start, period, k);
    }
  }

  /** A client that sends an empty frame per keep-alive, the first of them in time, is held until it has
      sent the last, though it never completes a message. */
  lemma HeldWithoutMessage(plan: Plan, s: Listen.State, id: nat, config: Config, max: nat, start: nat, n: nat,
                           clock: nat -> Clock)
    requires Inv(plan, s) && id < s.at
    requires plan.incoming[id] == Some(ScriptOf(config, max, EmptyFrames(start, plan.keepAlive, n), clock))
    requires id in s.joined && start <= s.joined[id] + plan.keepAlive
    ensures forall k :: 0 <= k < |Projection(s.log, id)| ==> MessageOf(Projection(s.log, id)[k]) == None
    ensures |Projection(s.log, id)| < n ==> id in s.connections
  {
    hide ScriptOf, EmptyFrames, Projection, Values, LastTime, Steady;
    var script := plan.incoming[id].value;
    EmptyScript(config, max, start, plan.keepAlive, n, clock);
    EmptySteady(config, max, start, plan.keepAlive, n, clock);
    ValuesAt(script);
    assert Accounted(plan, s, id);
    if id in s.expired && n > 0 {
      assert TimedOut(plan, s, id, s.expired[id]);
      SteadyStays(plan, s, id);
      EmittedSoFar(plan, s, id, s.expired[id].conn);
    }
  }
}
