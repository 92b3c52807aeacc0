# Verification model of the GELF input

A Dafny model of the parts of this repository that turn network bytes into events, with proofs of what they promise.

- **Chunk reassembly** (`ChunkHeader`, `Message`, `Gelf`, `ChunkRead`). The receiver is a class with the source's two indexes and its wrapping counter; every method is proved equal to one step of a pure transition function. `History` gives an independent meaning: one log per message id, no indexes, no counter, completion by coverage. `Refinement` proves that the receiver and the log machine give the same answers on every run that begins at most 2^64 messages, and `Transport` shows by a run of one start more that the limit is sharp: the indexes disagree, and then an answer differs. `Delivery` and `Reassembly` derive where a delivered message came from and, for a receiver with any history, the round trip from a cut payload to the bytes a reader gets; `Transport` compares the ways of sending one payload. `Bounds` bounds what the receiver holds.
- **TCP framing** (`Framing`, `Decode`, `TcpStream`). `Framing` says what splitting a stream at NULs means and that it is the only way to do it. `Decode` is the incremental decoder, one method per branch of the loop; `TcpStream` drives it over any cut of the stream into reads.
- **Receiver behind TCP** (`TcpReceive`). Frames contain no NUL, but the first chunk of a message has sequence number 0, so a connection never delivers a chunked message, and delivers exactly the non-empty fitting segments that do not begin with the chunk magic.
- **Connection pool** (`Listen`, `Timing`). A poll of the pool is a relation between states, with a free choice among the ready connections; the methods of the pool are proved to follow it, and an invariant of every run accounts for each connection, held, dropped or timed out. `Timing` says what has been emitted, and when a connection times out, in terms of its own script alone.
- **TCP server** (`TcpServer`). Clients that send bytes, a decoder and a receiver for each, and the pool over them: the outcomes for each client are the messages of its first frames.
- **GELF to CLEF** (`Merge`, `Clef`, `Timestamp`). The field merge by priority has a closed form; the decimal timestamp conversion is exact and keeps order.

Clock readings are inputs of each step: one for the collector and one for the arrival time of a new message. Times are nanoseconds since the epoch, and a collector clock below the timeout makes the step fail after a possible wipe, as the subtraction in the source does. `usize` has 64 bits. System times are those of Unix, whose seconds are signed 64 bit numbers. Integers `u8` and `u64` are ranges of `int`; wrapping and saturation are written out.

Where the code and its description differ, the model follows the code:

- The description of the priorities says that a field that loses a conflict is kept under its name with two underscores. With three different values only the two highest are kept, and a value that was under the shadow name already gives way. `Merge.NothingLostIff` says exactly when the merge keeps every value without clashes, and `Merge.LossForced` what no merge under this naming can keep. When a written name is itself the shadow name of a conflict, a value can be lost depending on the order of the payload (`Merge.ClashDependsOnOrder`, `Merge.OrderMatters`); `Merge.ExchangeIff` says exactly when two writes can be exchanged. Two payload names that differ only in a leading underscore also crowd out an embedded value (`Merge.RepeatedName`). The closed form is proved when the stripped names are distinct and no shadow name of a conflict is written.
- The conversion of timestamps with more than nine decimal places overflows in arithmetic; `Timestamp.FailsIff` says exactly when, and `Timestamp.TenPlacesFail` gives one. `Failed` stands for the panic of a build that checks its arithmetic. A build that does not check, as the shipped release builds, wraps, which drops the fraction of such a timestamp (`Timestamp.UncheckedMeaning`); `Clef.ToClef` is proved for both.
- A zlib stream is recognised only when it announces the largest window (`Message.SniffMeaning`).
- The pool reports its end once there will be no more connections and none it holds is ready, even if it still holds some: `Listen.FinishedIff` gives the condition before the poll, which does not ask whether any are held, and `Listen.EndsWhileHeld` the smallest case. The listening socket of this program never ends (sqelf/src/server/tcp.rs:187-197), so the early end cannot occur here (`Listen.EndlessNeverFinishes`), and the server's claim that its stream never terminates (sqelf/src/server/mod.rs:284) holds for TCP.
- The keep-alive is described as closing a connection that does not complete a message within the period. Every frame restarts it, also one that completes no message: a client that sends an empty frame per period is held as long as it goes on (`TcpServer.HeldWithoutMessage`).
- An empty payload is no message when it is sent unchunked or as a lone chunk, and an empty message when it is reassembled (`Transport.TransportIndependence`).

## Model

| member | source | states |
|---|---|---|
| ChunkHeader.Get | sqelf/src/receive.rs:351-373 | Reading the header consumes exactly its 12 bytes from the buffer on success and returns what parsing the whole datagram gives. |
| ChunkHeader.WireFormat | sqelf/src/receive.rs:351-373 | Byte by byte: 30 and 15, the id with its most significant byte first, the sequence number at 10, the count at 11, and the payload from 12 on. |
| ChunkHeader.ParseMeaning | sqelf/src/receive.rs:351-373 | A datagram is too short below 12 bytes, has a bad sequence if byte 10 is not below byte 11, and otherwise gives the fields at their places. |
| ChunkHeader.ParseInvertsEncode | sqelf/src/receive.rs:576-589 | A sender's encoding of any id, sequence number below the count and payload parses back to the same fields and leaves exactly the payload. |
| ChunkHeader.EncodeInvertsParse | sqelf/src/receive.rs:351-373 | Every accepted datagram with the chunk magic is the encoding of what was parsed from it. |
| ChunkHeader.AcceptedIffEncoded | sqelf/src/receive.rs:342-373 | A datagram with the magic is accepted if and only if it is the encoding of some header and payload. |
| Message.SniffMeaning | sqelf/src/receive.rs:539-555 | Detection finds gzip by the bytes of section 2.3.1 of RFC 1952, and of the zlib headers of section 2.2 of RFC 1950 exactly those with the 32K window. |
| Message.ChunkedCompression | sqelf/src/receive.rs:422-430 | The compression of a chunked message is that of its whole payload if and only if the first chunk has two bytes or there is no compression to see. |
| ChunkRead.Reader.Read | sqelf/src/receive.rs:492-537 | A read of any buffer size copies min(buffer, remaining) bytes of the remaining stream to the front, leaves the rest of the buffer alone and advances by as much. |
| ChunkRead.ReadThrough | sqelf/src/receive.rs:492-537 | Any sequence of buffer sizes yields the prefix of the payload that they have room for. |
| ChunkRead.ReadToEnd | sqelf/src/receive.rs:492-537 | Reading until nothing comes yields the whole payload. |
| Gelf.Decoder.Decode | sqelf/src/receive.rs:155-171 | One call answers and changes both indexes and the counter as one step of the transition function. |
| Gelf.ClassifyMeaning | sqelf/src/receive.rs:155-207 | A datagram is a chunk if and only if it begins with 30 and 15; its bytes 10 and 11 decide whether it is refused, a lone chunk or a piece. |
| Gelf.RefusedIff | sqelf/src/receive.rs:173-262 | For each kind of error the exact condition on the bytes, the clock and the pending total, with the period of the configured milliseconds in nanoseconds. |
| Gelf.OthersOnlyCollect | sqelf/src/receive.rs:155-207 | A datagram that is no chunk is answered with itself and changes nothing; a lone or refused chunk leaves what a collection leaves. |
| Gelf.Decoder.Chunked | sqelf/src/receive.rs:173-207 | Collection comes before the header is looked at; a lone chunk is answered at once, too many chunks are refused, any other chunk is pushed. |
| Gelf.Decoder.Gc | sqelf/src/receive.rs:209-237 | Collection wipes at capacity and then leaves exactly the entries that arrived no earlier than the bound. |
| Gelf.Decoder.RemoveBefore | sqelf/src/receive.rs:220-236 | Removing the collected arrivals one by one, in any order, removes them and their ids from both indexes. |
| Gelf.Decoder.Ts | sqelf/src/receive.rs:126-132 | The arrival key carries the clock and the counter, which then grows modulo 2^64. |
| Gelf.Decoder.Push | sqelf/src/receive.rs:239-279 | Pushing begins, extends, refuses or completes a message as the transition function says. |
| Gelf.DecodeAll | sqelf/src/receive.rs:146-171 | A fresh decoder gives the answers of the run, one per datagram. |
| History.LastWriteMeaning | sqelf/src/receive.rs:305-307 | The log's value for a sequence number is the one of its latest write and no other. |
| Refinement.Pigeonhole | sqelf/src/receive.rs:309-311 | For keys below the total, the count equals the total if and only if every index is present. |
| Refinement.FullKeyOrder | sqelf/src/receive.rs:271-273 | A full sorted map lists its pieces in sequence order. |
| Refinement.CompletionMatches | sqelf/src/receive.rs:264-273 | The count test holds exactly when the writes cover the message, and then the emitted list is the last write per index. |
| Refinement.ExpireById | sqelf/src/receive.rs:220-236 | With agreeing indexes, expiry through the arrival index keeps exactly the ids that arrived at or after the bound, and the agreement. |
| Refinement.Survives | sqelf/src/receive.rs:209-237 | A pending message survives a collection if and only if the receiver is below its capacity and the collector's clock, if it has passed the period, is no later than the configured milliseconds after the message's arrival. |
| History.LogSurvives | sqelf/src/receive.rs:209-237 | The same for the log machine. |
| Refinement.StartAgrees | sqelf/src/receive.rs:242-249 | Filing a new message keeps the indexes mutually inverse if and only if its arrival key is unused. |
| Refinement.StepRefines | sqelf/src/receive.rs:155-280 | One step keeps agreement and the match with the log, and gives the log machine's answer. |
| Refinement.RunRefines | sqelf/src/receive.rs:99-280 | On every run beginning at most 2^64 messages, with any clock, the indexes are mutually inverse, each pending entry is its log's last writes, and the answers are the log machine's. |
| Transport.WrapBreaksAgreement | sqelf/src/receive.rs:126-132 | One message start more than 2^64, at any standing clock past the timeout, and two pending messages share an arrival key. |
| Transport.WrapBreaksAnswers | sqelf/src/receive.rs:126-132 | After that run a chunk that comes when everything has expired completes a message that ought to have been forgotten, where the log machine begins a new one. |
| Transport.TransportIndependence | sqelf/src/receive.rs:155-280 | A receiver with any history answers a payload as a lone chunk as it answers it unchunked exactly if it does not begin with the chunk magic; after any run that delivers it in pieces it answers with the same bytes, and with the same compression exactly when the first piece can show it. |
| Bounds.RunBounded | sqelf/src/receive.rs:209-279 | In every reachable state at most max(1, capacity) messages are pending, each with a permitted total, keys below it, at least one chunk and at least one missing. |
| Bounds.StoredBounded | sqelf/src/receive.rs:190-218 | The number of stored chunks is at most that bound times one less than the permitted total, and zero if no chunked message is permitted. |
| Bounds.ErrorsOnlyCollect | sqelf/src/receive.rs:173-262 | A refused datagram leaves what collection alone would leave. |
| Delivery.EntryOrigin | sqelf/src/receive.rs:242-267 | Every pending entry of a reachable log goes back to one datagram that found its id not pending and began it, has its arrival time, and holds all chunks of that id and total since. |
| Delivery.DeliveredOrigin | sqelf/src/receive.rs:209-279 | Every delivered chunked message was begun by a datagram that found its id not pending, no longer than the timeout before the collector's clock at its last chunk; it consists of the latest bytes per index since then, and was incomplete before. |
| Delivery.StaysPending | sqelf/src/receive.rs:252-277 | A message no collection drops stays pending with exactly its chunks while they do not cover it. |
| Delivery.DeliversWhenCovered | sqelf/src/receive.rs:264-273 | The datagram that first covers it gets it delivered and forgotten. |
| Reassembly.LogReassembles | sqelf/src/receive.rs:239-279 | Pieces in any order, repeated and interleaved with anything else, are delivered in sequence order exactly at the last missing one. |
| Reassembly.Reassembles | sqelf/src/receive.rs:155-280 | The same for the receiver, whatever it has seen before, as long as no collection drops the message and at most 2^64 have begun. |
| Reassembly.TwoChunks | sqelf/src/receive.rs:56-65 | After any run, with room left, the second chunk of a message of two completes it exactly up to the configured milliseconds after the first; later it begins a new message, and an earlier clock than the period is an error. |
| Reassembly.TransmissionReassembles | sqelf/src/receive.rs:155-280 | The same under conditions a sender and an operator can check: encoded chunks, clocks within the timeout, an id that is not pending, and capacity for what is pending or may become so. |
| Reassembly.InOrderTransmission | sqelf/src/receive.rs:576-589 | Sending all pieces in order to a fresh receiver meets these conditions, and is complete with the last piece and not before. |
| Reassembly.ReceiveAndRead | sqelf/src/receive.rs:446-462 | The reader behind the receiver yields the payload of the message of the last datagram, if there is one. |
| Reassembly.RoundTrip | sqelf/src/receive.rs:155-280 | A payload cut into chunks, all of which arrive before a collection drops them, is what comes out of the reader, whatever the receiver has seen before. |
| Framing.SegmentsPartition | sqelf/src/server/tcp.rs:370-393 | The segments are free of NULs, and with their separators and the rest make up the stream. |
| Framing.SegmentsUnique | sqelf/src/server/tcp.rs:370-393 | No other cut into terminated NUL-free parts and a NUL-free rest gives the same stream. |
| Framing.KeepMeaning | sqelf/src/server/tcp.rs:373-393 | The segments that fit are those of at most the limit, each as often as it occurs; all others count as too long. |
| Framing.FramesMeaning | sqelf/src/server/tcp.rs:442-457 | Of NUL-free segments and a rest the frames are the segments that fit and the rest if it fits and is not empty, and each of the others is one oversized segment. |
| Framing.NothingLost | sqelf/src/server/tcp.rs:364-457 | Where everything fits the frames put together are the stream without its NULs. |
| Decode.Decoder.DecodeFrame | sqelf/src/server/tcp.rs:364-440 | A call takes the next fitting segment and drops the oversized ones before it, counting each once; it terminates, stays in bounds, and asks for more data only with a searched buffer within the limit, which is empty while discarding. |
| Decode.Decoder.OnSeparator | sqelf/src/server/tcp.rs:373-422 | A separator ends a frame, reveals an oversized segment or ends one. |
| Decode.Decoder.OnNoSeparator | sqelf/src/server/tcp.rs:395-437 | Without a separator the decoder waits, starts discarding, or throws away as many bytes as the limit and one, or all there are. |
| Decode.Decoder.DecodeEof | sqelf/src/server/tcp.rs:442-457 | At the end of the stream the remaining frames and oversized segments are conserved, call by call, until nothing is left. |
| TcpStream.DecodeStream | sqelf/src/server/tcp.rs:357-458 | For every cut of the stream into reads the frames are its fitting segments in order and a fitting non-empty rest; each oversized segment is counted once; every byte is inspected, and the inspections are all offsets in order, each once, if and only if no segment is oversized, and more than there are bytes otherwise. |
| TcpReceive.FramesFit | sqelf/src/server/tcp.rs:370-393 | Every frame is NUL-free and within the limit. |
| TcpReceive.HeadlessPush | sqelf/src/receive.rs:239-279 | Pending messages without their first chunk never complete. |
| TcpReceive.NulFreeAnswer | sqelf/src/receive.rs:155-207 | After any run of NUL-free datagrams the answer is a message exactly when the datagram is not empty and has no chunk magic, and then it is the datagram itself. |
| TcpReceive.ServeConnection | sqelf/src/server/tcp.rs:166-180 | The messages of a connection are its fitting non-empty segments without the chunk magic, for any cut into reads and any clock. |
| Listen.ValuesSplit | sqelf/src/server/tcp.rs:281-306 | Past a run of values, what a connection can emit is those values and what the rest can emit. |
| Listen.TimeoutStream.PollNext | sqelf/src/server/tcp.rs:491-511 | An item that is ready wins and restarts the keep-alive; the stream closes only after a keep-alive without an item. |
| Listen.EmitInv | sqelf/src/server/tcp.rs:287-291 | Emitting a value and putting its connection back keeps every connection's account. |
| Listen.FilledMeaning | sqelf/src/server/tcp.rs:267-275 | Filling up adds exactly the connections before the first poll that gives none, while there is room, each with its keep-alive running from now; it stops when the pool is full, none is waiting or all have come. |
| Listen.DropInv | sqelf/src/server/tcp.rs:292-306 | Dropping a ready connection that does not yield a value keeps every account: it has emitted all its values, or had none waiting and a full keep-alive behind it. |
| Listen.PollsInv | sqelf/src/server/tcp.rs:265-320 | Every poll keeps the invariant: each connection has emitted a prefix of its values before its first error or close, all of them once it has left without timing out; one that timed out had no item then and a keep-alive without one; the pool stays within its limit; accepted is pooled plus dropped; and the end is seen only after all incoming. |
| Listen.PollsEmit | sqelf/src/server/tcp.rs:277-320 | What a poll emits is the next item of a connection and had arrived. A poll without a value emits nothing, leaves no room or no waiting connection and, in an eager queue, no connection ready; it reports the end exactly when the end of the incoming has been seen. |
| Listen.FinishedIff | sqelf/src/server/tcp.rs:309-319 | When all incoming have been polled, an eager poll without a value leaves exactly the connections that were not ready, and reports the end if and only if it has been seen before, or there is one and these connections do not fill the pool. |
| Listen.EndlessNeverFinishes | sqelf/src/server/tcp.rs:187-197 | If the incoming never end, as those of a listening socket, neither does the pool. |
| Listen.EndsWhileHeld | sqelf/src/server/tcp.rs:309-319 | A pool that holds its one connection reports the end at once, exactly when there is an end and room for another connection. |
| Listen.RunSafe | sqelf/src/server/tcp.rs:258-321 | The invariant holds in every state of every run, and keep-alives start and timeouts happen at the times of polls. |
| Listen.RunLogs | sqelf/src/server/tcp.rs:287-291 | The log of a run, over which the invariant speaks, is the emissions among its outcomes with their times, in order. |
| Listen.RunJoins | sqelf/src/server/tcp.rs:267-275 | The time recorded for the acceptance of a connection is that of the poll that accepted it. |
| Listen.CaughtUp | sqelf/src/server/tcp.rs:278-307 | When an eager queue stops without a value, each held connection has emitted every value that has arrived. |
| Listen.HeldInTime | sqelf/src/server/tcp.rs:491-511 | A connection that an eager poll leaves held when it stops has no item that has arrived, and less than a keep-alive has passed since it was accepted, if it has emitted nothing, or since its last emission. |
| Listen.Pool.Fill | sqelf/src/server/tcp.rs:267-275 | Filling up accepts until the pool is full, the incoming end, or none is waiting. |
| Listen.Pool.PollOne | sqelf/src/server/tcp.rs:280-304 | Polling one connection emits its value and puts it back, or drops it with a record of whether it timed out. |
| Listen.Pool.PollNext | sqelf/src/server/tcp.rs:265-320 | A call terminates, keeps the invariant and is one poll of the pool's relation. |
| Listen.Serve | sqelf/src/server/tcp.rs:258-321 | The outcomes of polling a fresh pool at any times hold, for each connection, a prefix of its values before its first error or close, whatever the others do. They are a run of the relation; its log is what the outcomes say, its last state keeps the invariant and the times of its timeouts, and after an eager poll without a value nothing is ready, nothing can be accepted, and no connection is held past its keep-alive. |
| Timing.TimeoutOrigin | sqelf/src/server/tcp.rs:469-511 | In every run a timeout happened at a poll, a keep-alive or more after the poll that accepted the connection, if it had emitted nothing, or else after its last emission. |
| Timing.TimeoutLatest | sqelf/src/server/tcp.rs:265-320 | A timeout does not come late: every earlier stop of an eager queue that left the connection held came less than a keep-alive after the start that the timeout is counted from. |
| Timing.SteadyStays | sqelf/src/server/tcp.rs:491-511 | A connection whose items come within a keep-alive of each other, whatever they are, times out only before its first or after its last. |
| Timing.StopDetermines | sqelf/src/server/tcp.rs:277-307 | When an eager poll stops without a value, each accepted connection has emitted exactly what its own script makes due by then, or by the time it timed out. |
| Timing.RunDetermines | sqelf/src/server/tcp.rs:258-321 | The same for the outcomes of every run at ascending times, whatever the other connections do; and no connection is held past its keep-alive then. |
| TcpServer.ScriptDelivers | sqelf/src/server/tcp.rs:166-180 | The values of a client's connection are one for each frame of its bytes, and the messages among them are exactly the frames that are not empty and do not begin with the chunk magic. |
| TcpServer.ScriptMeaning | sqelf/src/server/mod.rs:327-333 | Each item of a client's script reports the receiver's answer to its frame, an error exactly for an error and incomplete exactly for nothing yet; for an empty, a plain and a malformed frame it is stated from the bytes; and the script ends as the client does. |
| TcpServer.TimesMeaning | sqelf/src/server/tcp.rs:357-458 | Each item comes with the read that completes its frame, and the one for a rest with the close. |
| TcpServer.StreamMeaning | sqelf/src/server/tcp.rs:166-180 | The stream is all the bytes of the reads, in order. |
| TcpServer.PoolDelivers | sqelf/src/server/tcp.rs:258-321 | In every reachable state what the pool has emitted for a client are the messages of the client's first frames. |
| TcpServer.PoolGives | sqelf/src/server/mod.rs:327-333 | And each emission, error and incomplete ones included, is what its frame gives. |
| TcpServer.ReadClient | sqelf/src/server/tcp.rs:357-458 | Running the decoder read by read and its receiver frame by frame gives the client's script: each frame with the read that brings its separator, the rest with the close, and then the end. |
| TcpServer.ServeClients | sqelf/src/server/tcp.rs:66-119 | Serving clients over a pool: the outcomes for each client are what its first frames give, messages, errors and incomplete ones, whatever the others do; at a stop of an eager queue exactly those its own script makes due, with no client held past its keep-alive; the pool stays within its limit, and there is no end if the incoming have none. |
| TcpServer.HeldWithoutMessage | sqelf/src/server/mod.rs:59-63 | A client that sends an empty frame per keep-alive, the first of them in time, is held until it has sent the last, though it never completes a message. |
| Merge.OverrideMerges | sqelf/src/process/mod.rs:280-288 | One override moves the closed form on by one source. |
| Merge.MergeClosedForm | sqelf/src/process/mod.rs:227-264 | Payload then envelope over the embedded fields leaves the highest value under each written name, the second highest under its shadow if there are two sources, and every other key as it was. |
| Merge.NothingLostIff | sqelf/src/process/mod.rs:144-153 | Without clashes every value given can be found in the merge, under its name or the shadow of a name with a conflict, if and only if in each conflict a third value equals one of the first two and the shadow name is free in the embedded fields or holds the second. |
| Merge.LossForced | sqelf/src/process/mod.rs:144-153 | For any fields, merged in any way and with clashes: to keep every value of a conflict, two of three must be the same, and if two differ, the shadow name's own value, or one of its own two, must be among them. |
| Merge.OrderIndependent | sqelf/src/process/mod.rs:229-233 | The order of the payload's fields does not matter, for any envelope, when the payload does not write a shadow name it needs. |
| Merge.OrderMatters | sqelf/src/process/mod.rs:229-233 | If the payload writes the shadow name of one of its conflicts with another value than the embedded one, some other order of it gives a different result. |
| Merge.ExchangeIff | sqelf/src/process/mod.rs:280-288 | Two writes over any fields give the same in both orders if and only if, for one name, the values are equal and, for two, neither takes the shadow place the other needs without holding the same value. |
| Merge.ClashDependsOnOrder | sqelf/src/process/mod.rs:280-288 | When a name and its shadow are both written over an embedded value, one order loses the shadow's own value. |
| Merge.RepeatedName | sqelf/src/process/mod.rs:306-315 | When two payload names strip to one name, the later value wins, the earlier takes the shadow and an embedded one is lost. |
| Clef.ClefMessage.OverrideValue | sqelf/src/process/mod.rs:280-288 | The method overrides as the merge's step does. |
| Clef.ClefMessage.SetPayload | sqelf/src/process/mod.rs:227-233 | The loop over the payload writes all its fields, names stripped of one underscore. |
| Clef.ClefMessage.SetEnvelope | sqelf/src/process/mod.rs:235-262 | The built-in fields present are written in the order host, facility, file, line. |
| Clef.ClefMessage.SetFields | sqelf/src/process/mod.rs:227-262 | The fields of the event are the closed form whenever no names clash. |
| Clef.ToClef | sqelf/src/process/mod.rs:154-265 | Level, timestamp, exception and message are the first of their sources by priority, the fields are those of the embedded event with the payload and then the envelope written over them, which is the closed form if no names clash; it fails only in a build that checks its arithmetic, on a needed timestamp with too many places. |
| Clef.LevelMeaning | sqelf/src/process/mod.rs:173-192 | The embedded level comes first, then a text under level, lvl or LVL, whichever is present first, then the Syslog name of the envelope's level, with 6 where there is none and debug from 7 on. |
| Clef.TimeMeaning | sqelf/src/process/mod.rs:194-206 | The embedded time comes first, then the text under timestamp, ts, TIMESTAMP or TS, whichever is present first, if it parses, then the envelope's, then the present. |
| Clef.GelfTimeMeaning | sqelf/src/process/mod.rs:202-205 | The envelope's time is the decimal exact to the nanosecond, if its seconds fit, and the epoch for negative ones. |
| Clef.ExceptionMeaning | sqelf/src/process/mod.rs:208-218 | The full message is the exception of an event that has none, unless it repeats the short message. |
| Clef.MessageMeaning | sqelf/src/process/mod.rs:220-225 | An event without a message gets the text under message, msg or MSG, whichever is present first. |
| Clef.BaseMeaning | sqelf/src/process/mod.rs:170-171 | A short message that does not begin with a brace, or does not parse, is the message of an otherwise empty event. |
| Clef.FindFirstMeaning | sqelf/src/process/mod.rs:267-278 | The value found is the one of the least index whose name is present, and there is none exactly if no name is. |
| Clef.FieldMeaning | sqelf/src/process/mod.rs:227-262 | A name that does not begin with two underscores holds the built-in field of that name, or else the last payload member that is it with one underscore in front, or it without, or else what the embedded event had there; clashes or not. |
| Timestamp.Exact | sqelf/src/process/clef.rs:72-90 | With at most nine places the conversion does not fail, exists exactly when the seconds fit, and is exact with nanoseconds below a second; negatives become the epoch. |
| Timestamp.CarryMeaning | sqelf/src/process/clef.rs:86-89 | Carrying nanoseconds into seconds keeps the time, which exists exactly if its seconds fit. |
| Timestamp.FailsIff | sqelf/src/process/clef.rs:79-84 | The checked arithmetic fails exactly for non-negative decimals with more than nine places whose seconds and fraction pass the range checks. |
| Timestamp.TenPlacesFail | sqelf/src/process/clef.rs:84 | A decimal of ten places for which it does. |
| Timestamp.UncheckedMeaning | sqelf/src/process/clef.rs:79-84 | Without overflow checks the result is the same wherever the checked arithmetic does not fail, and otherwise the time without its fraction. |
| Timestamp.UncheckedNeverFails | sqelf/src/process/clef.rs:72-90 | And so it has a result for every timestamp. |
| Timestamp.Monotone | sqelf/src/process/clef.rs:72-90 | If a decimal converts, every smaller one does, across scales, and not to a later time. |

## Left out

- Sockets, TLS and its quiet close, the runtime, wakers and the server's select loop; only the steps of the pool and the connections are modelled.
- The map that parsing builds for the payload: the model takes its fields in any order, while the parser's map yields them by name unless it is built to keep the sender's order.
- gzip and zlib decompression: only the choice by leading bytes and the raw reader beneath it.
- JSON and RFC 3339 parsing and printing: parsed values and parsers are inputs of `Clef.ToClef`.
- The raw payload option and its `add`, which inserts one field if it is vacant.
- Error texts: errors are told apart by kind only. The text for a bad sequence number adds one to a `u8`, which overflows at 255.
- Clock readings below the epoch and their error.
- `Chunks` and its map are values inside the receiver's index, as they are owned there; updating them in place is modelled by storing the grown value.
- A client's script says from when on each of its frames can be had; that reading stops while the pool does not poll a connection, and what this does to the sender, is not part of this model.
- The pool's connections are values, as they are moved out of the pool to be polled and back; `Listen.TimeoutStream` is the connection as a class, proved against the same function. The fair order of the pool's queue is replaced by a free choice; a queue that is not eager may also report that nothing is ready although something is.
- Metrics other than the overflow count of the decoder.
- The configuration read from the environment, the UDP socket, which hands each non-empty datagram to the receiver as it is, diagnostics, which write metrics and logs, and the wrappers that share or borrow strings.
