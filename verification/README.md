# Network probe, load client and server: a verified model

The repository is a network performance tester. `npt-ci` streams framed payloads through a forwarded port to an
echo server and judges the port by what comes back. A load client and server exchange pages, uploads and downloads
over TCP and QUIC, choose servers from a pool, and collect metrics that end up in a report. This project models that
behaviour in Dafny and proves properties of it.

- `Basics`, `Bytes`, `Codec`, `FrameStream`: the wire frame and the datagram, and reading frames off a stream cut into arbitrary
  pieces and truncated anywhere.
- `EchoServer`, `EchoPipeline`: the echo loops, and one flow as writer, echo server and reader joined by two byte streams.
- `Verdict`, `Flow`, `Sums`, `Probe`, `ProbeResults`, `QuietPeriods`, `Scans`, `Endings`, `Sampling`, `ProbeRace`: a whole TCP probe run,
  one atomic operation a step (flow tasks, stall watchdog, throughput sampler, main task), what the watchdog finds, how flows end,
  what the sampler takes down, and what a pass means.
- `Transfer`, `TransferResults`, `TransferLoops`: a client and server session, as a machine of two loops joined by FIFO
  channels, and as the loops themselves.
- `Health`, `RoundRobin`, `ServerPool`: health hysteresis, fair rotation, the account of connections, failover.
- `Metrics`, `Sorting`, `Report`, `ErrorReport`: the collector and its throughput samples, percentiles, bands, error figures.
- `QuicSessions`: the QUIC server's session table and its two-phase cleanup.

`dafny verify dfyconfig.toml` checks everything.

## How concurrency is modelled

Tasks are program counters and each step does one operation on shared state: one atomic load, store, swap or add, one clock
reading, one message, or the code under one lock. A run is a sequence of states in which any enabled step may come next,
so a theorem about all runs is a theorem about all interleavings. Where the original is a single loop over a stream or a
list it is a method with that loop, proved against a specification function. The steps come from these lines:

| steps | source |
|---|---|
| `EchoPipeline.WriterBegin`, `WriterPush`, `WriterCount`, `WriterFail`, `WriterStop` | ci/src/client.rs:204-229 |
| `EchoPipeline.ServerDeliver`, `ServerTake`, `ServerPush`, `ServerCount`, `ServerEnd` | ci/src/server.rs:85-91 |
| `EchoPipeline.ReaderDeliver`, `ReaderTake`, `ReaderCount`, `ReaderEnd` | ci/src/client.rs:234-266 |
| `Flow.ConnectStep`, `ReadStep`, `ReaderAlarm` | ci/src/client.rs:174-196, 234-267 |
| `Flow.WriteStep`, `WriterAlarm` | ci/src/client.rs:206-229 |
| `Probe.DogWakes`, `DogLooks`, `DogSwaps`, `DogPushes` | ci/src/client.rs:406-430 |
| `Probe.SamplerStep` | ci/src/client.rs:439-461 |
| `Probe.MainStep`, `Finalize` | ci/src/client.rs:156-164, 465-511 |
| `Transfer.ClientOpen`, `ClientFirstReply`, `ClientLoop`, `ClientReply`, `ClientChunk`, `ClientClose` | client/src/tcp_client.rs:120-228, 281-336, 389-466 |
| `Transfer.ServerReceive`, `ServerReply`, `ServerFirstAck`, `ServerUpload`, `ServerChunkAck`, `ServerDownload`, `ServerEof` | server/src/tcp_server.rs:138-193, 205-389 |
| `QuicSessions.Next` | server/src/quic_server.rs:77-143, 174-208, 263-297 |

## Where the code does not do what it seems to promise

- The comment at ci/src/protocol.rs:46-47 calls any partial frame an error. A partial header is reported as a clean close;
  the model follows the code, and `Codec.PartialFrameIsErrorIff` says exactly when an error is reported.
- A stall event claims a quiet interval. A receive time can lie inside it, when the reader has read the clock and not
  yet stored it; `ProbeResults.StallsAreGaps` bounds this to one stamp and `ProbeRace.StampInsideGap` is a run.
- The watchdog can find a flow quiet for too long and leave no record of it: its swap can come after the quiet period it looked
  at has ended, and then the flag stands for a period that is over. `QuietPeriods.QuietFlowIsRecorded` says exactly when,
  `ProbeRace.QuietPeriodUnrecorded` is a run.
- A TCP flow's reader and writer look at `winding_down` before they count a disconnect. The flag is set after all of them are
  joined (`Endings.RunWindsLate`), so for these flows the look at the deadline decides alone.
- A server can have more active connections than it ever had in total, for the time between the two adds of a start:
  `ServerPool.ServerPool.ActiveIsOpen` says exactly when, `ServerPool.StartsAhead` makes such a state.
- A pass does not say that no flow stalled: `ProbeResults.PassMissesStallIff` says when, `ProbeRace.PassMissesAStall` is a run,
  and `ProbeResults.PassWithoutScan` says when a pass is final.
- An upload that is not stopped need not deliver its file: a chunk above the 10 MiB limit is refused and both sides fail.
  `TransferResults.UploadCompletesIff` says exactly when it cannot happen, and `TransferResults.OversizedChunkFails` is a run.
- An upload whose chunk range starts at 0 need not end: `TransferResults.SessionsEndIff`.
- The round-robin rotation is disturbed at the counter's wrap unless the number of servers divides 2^64:
  `RoundRobin.WrapKeepsRotationIff`.
- The QUIC cleanup can end a session that is fresh, or active again: `QuicSessions.SweepEndsSeenIff` and
  `QuicSessions.SweepEndsIdleIff` say when, `QuicSessions.ReusedAddressIsSwept` and `QuicSessions.BusySessionIsSwept` are runs.
- A report's error distribution omits QUIC: `ErrorReport.DistributionIsTotalIff`.

## Model

| member | source | states |
|---|---|---|
| Bytes.LeRoundTrip | ci/src/protocol.rs:38-41 | writing a number in `w` little-endian bytes and reading it back gives the number modulo 256^w, which is what the `as u32` cast of the length does |
| Bytes.LeBytesRoundTrip | ci/src/protocol.rs:55-70 | reading bytes as a number stays below 256^length and writing that number gives the same bytes |
| Codec.Encode | ci/src/protocol.rs:36-44 | the buffer filled field by field is the frame's encoding |
| Codec.HeaderFields | ci/src/protocol.rs:55-70 | each header field read back from an encoding, whatever follows it, is the one written; the length is modulo 2^32 |
| Codec.FrameRoundTrip | ci/src/protocol.rs:36-78 | a frame is read back from its own bytes, whatever follows, if and only if its payload is within the cap; between the cap and 2^32 bytes it is refused with the header consumed |
| Codec.AcceptedIsEncoding | ci/src/protocol.rs:48-78 | whatever `read` accepts has a capped payload and is the encoding of exactly the bytes consumed |
| Codec.ParseIffEncoding | ci/src/protocol.rs:48-78 | `read` returns a frame if and only if the payload is within the cap and the frame's encoding starts the stream |
| Codec.ReadReports | ci/src/protocol.rs:48-82 | what a read reports and leaves, in bytes and without the parser: a frame whose encoding starts the stream; a clean close if and only if fewer than 24 bytes remain before an orderly end; a bad magic number if and only if at least 24 remain and the first four are not the magic number's; too large a payload if and only if the magic number is right and the length field says more than the cap; an unexpected end, or a transport error, if and only if what remains is the front of a capped frame, or for the latter less than a header |
| Codec.MagicBytes | ci/src/protocol.rs:19-19 | the four bytes in front of every frame are 4E 50 54 31 |
| Codec.PartialFrameIsErrorIff | ci/src/protocol.rs:46-54 | a frame cut short before EOF is an error exactly when its header was complete; otherwise it reads as a clean close, against the comment at 46-47 |
| Codec.EncodeAllAppend | ci/src/protocol.rs:36-44 | encodings of lists of frames concatenate |
| Codec.ContainedIsMaximal | ci/src/protocol.rs:48-78 | the number of frames that lie wholly within the first `k` bytes is the largest that fits |
| Codec.ParseAllStep | ci/src/protocol.rs:48-78 | a whole capped frame at the front is read and reading goes on behind it |
| Codec.ParseAllPartial | ci/src/protocol.rs:48-78 | a frame cut short ends the loop, with the outcome decided by the bytes left and by how the stream ends |
| Codec.ReadsAll | ci/src/protocol.rs:48-82 | of any bytes at all, repeated reading returns capped frames whose encodings are the front of the bytes, and ends with exactly what is to be said of the rest |
| Codec.TruncatedStream | ci/src/protocol.rs:48-78 | truncated at any byte, repeated reading returns exactly the frames that arrived whole and invents none; the bytes left over decide how it stops |
| Codec.WholeStream | ci/src/protocol.rs:48-78 | an untruncated stream gives back the whole list and a clean close |
| Codec.PrefixOfEncoding | ci/src/protocol.rs:36-78 | an encoding splits into frames in one way only: if the bytes of accepted frames start the bytes of a list, the frames start the list |
| Codec.EncodeUdp | ci/src/protocol.rs:89-96 | the datagram decodes to the stamp and carries the payload behind its header, and is the only one that does |
| Codec.UdpRoundTrip | ci/src/protocol.rs:89-111 | a datagram decodes to a stamp if and only if it is the encoding of that stamp with some payload |
| FrameStream.Source.Poll | ci/src/protocol.rs:48-78 | one `read` of the transport returns at most what is asked, at least one byte unless the stream is used up, and takes it off the front |
| FrameStream.Source.ReadExact | ci/src/protocol.rs:49-54 | over however many short reads the buffer is filled with exactly the next bytes, or the stream is used up |
| FrameStream.Source.ReadFrame | ci/src/protocol.rs:48-78 | two `read_exact` calls and the header checks give the outcome, and consume the bytes, that the remaining bytes determine, whatever pieces they come in; and the outcome is what is to be said of those bytes: a frame they begin with, a clean close, a bad magic number, too large a payload, an unexpected end or a transport error, each if and only if the bytes are such |
| FrameStream.Source.ReadFrames | ci/src/protocol.rs:48-78 | the loop around `Frame::read` returns the frames and the final outcome determined by the remaining bytes |
| FrameStream.ReadBack | ci/src/protocol.rs:36-82 | end to end: for every list of capped frames, every segmentation and every cut, the loop returns exactly the frames that arrived whole and stops as the leftover bytes say |
| EchoServer.Sink.WriteAll | ci/src/protocol.rs:80-82 | a write that fits goes out whole; one that fails puts out a prefix |
| EchoServer.WriteFrame | ci/src/server.rs:86-89 | a frame goes out as its encoding and is counted only when it is out whole |
| EchoServer.TcpEcho | ci/src/server.rs:80-92 | the loop puts out and counts what the specification of the echo says for the bytes received and the room left to write; it ends without error if and only if the client closes in an orderly way, what it sent is whole capped frames with less than a header behind them, and all of those frames fit the room |
| EchoServer.EchoIsVerbatim | ci/src/server.rs:85-91 | what is put out is, byte for byte, the front of what was received: the accepted frames, cut where the writing failed, and only whole frames are counted |
| EchoServer.OkIffServed | ci/src/server.rs:80-92 | the specification of the echo ends well if and only if the input is whole capped frames, less than a header behind them, an orderly close, and room for all of the frames |
| EchoServer.IntactEcho | ci/src/server.rs:85-91 | on an intact connection that closes after whole capped frames the echo is the input, all of it counted |
| EchoServer.UdpEcho | ci/src/server.rs:94-115 | the loop answers the datagrams the specification says, and both counters grow by the replies and their bytes |
| EchoServer.RepliesInOrder | ci/src/server.rs:98-113 | the replies are, in order, exactly the received datagrams that are encoded probes and whose send goes through, each unchanged and to its own peer |
| EchoServer.RepliesAreProbes | ci/src/server.rs:99-101 | every reply is an unchanged received datagram to its own peer, none is answered twice, and each is an encoded probe |
| EchoServer.ProbesAreAnswered | ci/src/server.rs:99-107 | when no send fails each encoded probe is answered exactly as often as it came, and nothing else is |
| EchoPipeline.RunInv | ci/src/client.rs:204-266 | over every interleaving of writer, echo server and reader, with bytes split anywhere and either direction cut anywhere, the invariant of the three actors and two links holds |
| EchoPipeline.AnyStamp | ci/src/client.rs:207-211 | the writer at its loop head can send a frame with any time it reads, and with the next number |
| EchoPipeline.EchoSafety | ci/src/client.rs:204-266 | in every reachable state the accepted frames are the first so many of the frames fully written, numbered 0, 1, 2, and so on, payload and timestamp unchanged, and `bytes_recv` exceeds `bytes_sent` by at most one frame length |
| EchoPipeline.IntakePrefix | ci/src/protocol.rs:48-78 | what a reader has accepted off a link is a prefix of the frames wholly put into it |
| EchoPipeline.OversizedNothingEchoed | ci/src/protocol.rs:62-68 | with a payload over the cap nothing ever comes back in any run |
| EchoPipeline.NothingRefused | ci/src/protocol.rs:55-68 | with a payload within the cap neither end ever meets a header it refuses |
| EchoPipeline.CleanRunIsLossless | ci/src/client.rs:206-266 | a flow that was never cut and is over has had every frame echoed and accepted, and the byte counters of writer, server and reader agree |
| EchoPipeline.NeverStuck | ci/src/client.rs:204-266 | however little each direction can hold, until all three actors are done some actor has a step that changes the state and keeps both directions within their room: back-pressure never closes into a circle |
| EchoPipeline.StepsAreBounded | ci/src/client.rs:229-267 | once the writer is done, the steps that change anything are bounded by the bytes and frames still under way |
| EchoPipeline.Finishes | ci/src/client.rs:229-267 | an uncut flow whose writer has stopped goes on to its end within that bound, and then every frame sent has come back and the counters agree |
| Verdict.WorstGap | ci/src/detect.rs:40-40 | the loop returns the largest gap, attained by some stall, or 0 when there are none |
| Verdict.HealthyIffNothingBroken | ci/src/detect.rs:22-109 | a port meets every requirement if and only if it breaks no rule |
| Verdict.Evaluate | ci/src/detect.rs:24-109 | the reasons pushed are exactly the broken rules, and the verdict is a pass if and only if the port is healthy; without a connection that is the only reason |
| Verdict.RatioRule | ci/src/detect.rs:75-83 | comparing the quotient with the limit is comparing the failures with the limit's share of the attempts |
| Flow.FlowKeeps | ci/src/client.rs:174-267 | every atomic step of the connecting, reading and writing tasks keeps the flow's invariant; its effect on the two shared counters matches what it does to the flow, and no flow counter shrinks |
| Probe.RunInv | ci/src/client.rs:127-165 | over every interleaving of flow tasks, watchdog, sampler and main task the run's invariant holds: the shared counters agree with the flows, the records with the flags, the series with the counters, the metrics with the joined flows |
| Probe.NextKeeps | ci/src/client.rs:127-165 | each single step keeps it |
| Probe.GapIsTrue | ci/src/client.rs:419-426 | what the watchdog computes from one load of `last_recv_ms` is true of the flow's receive times |
| ProbeResults.DisconnectsInFlight | ci/src/client.rs:212-219 | in every state `midstream_disconnects` plus the tasks standing between swap and add equals the flows marked `disconnected`, and no flow has two such tasks |
| ProbeResults.JoinedCounts | ci/src/client.rs:156-164 | after all joins `midstream_disconnects` equals the broken flows, which are connected flows, and connected plus failed equals attempted |
| ProbeResults.StallsAreGaps | ci/src/client.rs:411-426 | every recorded stall has a gap over the threshold, the last stamp seen lay exactly that gap before, and no later stamp was stored when the watchdog looked; a stamp falls strictly inside if and only if the reader held one below the look's time, has stored it, and it is above the gap's begin, and then it is the only one; the very end of the gap is stamped if and only if the first stamp not seen, apart from that one, equals it |
| ProbeResults.ClearBetweenStalls | ci/src/client.rs:241-241 | between two stalls recorded for one flow its reader ended a stall episode at least once |
| ProbeResults.EpisodesConserved | ci/src/client.rs:421-427 | per flow, episodes ended plus the one under way equal the stalls recorded plus the one in the watchdog's hand |
| QuietPeriods.QuietFlowIsRecorded | ci/src/client.rs:419-428 | a watchdog that has found a flow quiet for more than the threshold behind so many stamps leaves the flow in a stall, and leaves that very quiet period recorded or in its hand if and only if the flag was off, or was set by a swap with as many stamps at its look, at the swap and now; if a stamp has come since that swap it is one, stored and not yet followed by its clear |
| QuietPeriods.RunQuiet | ci/src/client.rs:238-241 | over every run, while the flag is on the stamps are those at the swap that set it and at most one that the reader is about to follow by its clear, and the last swap's record is the latest of the flow and is not lost but for an abort |
| QuietPeriods.PromptSwapRecords | ci/src/client.rs:419-427 | on runs in which no stamp comes between look and swap, the quiet period found is recorded if and only if the flag was off or no stamp has come since it was set; if it is not recorded the reader stands between its store and its clear, so a flow whose reader waits for a frame is recorded |
| ProbeResults.SeriesTelescopes | ci/src/client.rs:434-463 | the per-second deltas of each direction add up to the last totals read, no subtraction saturates, and those totals never exceed the present or final totals |
| ProbeResults.MetricsAreFinal | ci/src/client.rs:465-511 | the metrics written are those of the joined flows, with the stalls recorded up to then: attempts, connects, failures, disconnects, flows without return, bytes each way, and a download rate that, over the run's seconds or one if it has none, comes to the kilobits received |
| ProbeResults.PassMeans | ci/src/detect.rs:24-109 | under the default rules a port passes if and only if some flow connected, none ever set `disconnected`, no stall was recorded when the metrics were taken, something was sent, every connected flow received something, and at most one attempt in ten failed |
| ProbeResults.PassMissesStallIff | ci/src/client.rs:160-164 | when the metrics of a passing port are taken, some flow has been marked as stalled if and only if the watchdog stands between its swap and its push |
| ProbeResults.LateMarksNeedScan | ci/src/client.rs:408-421 | once the run winds down flows are marked only by a scan that was already past its look at the deadline and at `winding_down` |
| ProbeResults.PassWithoutScan | ci/src/client.rs:156-164 | a pass whose metrics were taken with the watchdog neither scanning nor cancelled before the lock is final: no flow was or ever will be marked |
| ProbeResults.LateStallIff | ci/src/client.rs:160-164 | at any later time a flow of a passing port is marked if and only if a stall was pushed after the metrics were taken or is in the hand of the watchdog |
| ProbeRace.StampInsideGap | ci/src/client.rs:239-241 | a run in which a stall is recorded although a receive time of that flow lies strictly inside the reported gap |
| ProbeRace.QuietPeriodUnrecorded | ci/src/client.rs:419-421 | a run in which a flow goes silent for longer than the threshold, the watchdog finds it so, and no record of that quiet period is made |
| ProbeRace.PassMissesAStall | ci/src/client.rs:160-164 | a run that passes although `in_stall` was turned on for a flow |
| Scans.ScanVisitsAll | ci/src/client.rs:410-429 | over every run, a scan of the watchdog comes to every flow, in order and one after the other, and judges all by the clock reading it began with; each visit loads `connected`, `disconnected`, `first_recv` and `last_recv_ms`, in that order, up to the first that turns the flow down, and is over with that load; or all four say go on, the gap is over the threshold, and it swaps, and if the flag was off it pushes the record of that gap; nothing but the abort in front of a push ends a scan early |
| Scans.SwapIsEarned | ci/src/client.rs:411-421 | wherever in any run the watchdog stands in front of a swap, it has in this scan loaded of that flow, in order, that it is connected, not disconnected, has had a first frame and has been silent for more than the threshold |
| Scans.SilentFlowIsListed | ci/src/client.rs:411-429 | a flow that stays connected, unbroken and silent beyond the threshold throughout a scan has a record by its end, and one for this very silence if it was in no stall when the scan began |
| Scans.SilenceFailsThePort | ci/src/detect.rs:38-46 | and then the port fails under the default rules whenever its metrics are taken after that scan |
| Scans.ScanIsInTime | ci/src/client.rs:408-410 | every scan was begun by a watchdog that had found the clock short of the deadline and then the run not winding down |
| Scans.ScanGoesOn | ci/src/client.rs:411-429 | within a scan the watchdog always has a step of its own to take |
| Scans.Nearer | ci/src/client.rs:411-429 | and each brings the end of the scan nearer, by a measure of six for a flow |
| Endings.EarlyEndIsBroken | ci/src/client.rs:212-265 | over every run, a flow whose reading loop or writer is done before the deadline has been marked as broken |
| Endings.BrokenEndedEarly | ci/src/client.rs:212-265 | and only such a flow is: one that is marked was waiting for a frame, or writing one, when that ended, and the clock, read after that, was short of the deadline |
| Endings.EarlyEndFailsThePort | ci/src/detect.rs:49-54 | a flow that ends before the deadline makes the port fail under the default rules |
| Endings.RunWindsLate | ci/src/client.rs:156-160 | `winding_down` is set only when every flow task is joined |
| Endings.WriterInTime | ci/src/client.rs:206-212 | a frame is begun only after a look at the clock, at the head of the loop, that found time left |
| Endings.ReceivedAddsUp | ci/src/client.rs:236-238 | what a flow has received is, in every state, the total length of the frames its reader was given, but for one in hand |
| Endings.SentAddsUp | ci/src/client.rs:212-222 | what it has sent is a whole frame for each that its writer has written, but for one not counted yet |
| Endings.FirstFrameShows | ci/src/client.rs:238-240 | a flow that waits for its next frame has `first_recv` set if and only if it has received anything |
| Sampling.SampleIsTaken | ci/src/client.rs:444-456 | each sample's totals, and each counter in them, lie between what the flows had when its sum began and what they have when it is pushed |
| Sampling.SamplesEverySecond | ci/src/client.rs:443-461 | the sampler has one sample for each second gone by, in both directions, and stops with the last second or, earlier, only when the run winds down |
| Sampling.WindingStopsSampler | ci/src/client.rs:457-459 | once the run winds down at most the sample under way, or slept for, is still taken |
| Sampling.SeriesIsOver | ci/src/client.rs:160-164 | the metrics are taken only after the series is over |
| Transfer.SizeIsUnderstood | server/src/tcp_server.rs:240-255 | the size the client writes into a request is the size the server reads from it, and a request too short for one asks for 1 MiB |
| Transfer.RunInv | client/src/tcp_client.rs:389-466 | over every interleaving of the two sides of an upload, a download or a page, with the stop flag raised at any point, the session's invariant holds |
| Transfer.NextKeeps | server/src/tcp_server.rs:138-298 | each step of either side keeps it |
| TransferResults.UploadLockstep | client/src/tcp_client.rs:426-458 | in every reachable state at most one message is in flight in total, `bytes_sent` <= the server's `bytes_received` <= `bytes_sent` plus the chunk that is out, that chunk is of a size within the range or all that is left, and an acknowledgement carries the sequence of the chunk just sent |
| TransferResults.UploadEnds | server/src/tcp_server.rs:352-389 | every finished upload has equal totals; either both sides end well, by `ConnectionClose` if and only if the file is complete and otherwise by EOF, the inner loop having consumed the close, and an upload not stopped is complete; or both fail, short of the file, over a chunk above the message limit |
| TransferResults.UploadCompletesIff | client/src/tcp_client.rs:426-458 | every upload that runs its course unstopped ends with both totals equal to the file size if and only if the largest chunk size or the file size is within the message limit |
| TransferResults.OversizedChunkFails | server/src/tcp_server.rs:432-434 | a run in which a chunk over the limit makes both sides fail with nothing transferred |
| TransferResults.DownloadAgreement | server/src/tcp_server.rs:300-321 | received, in flight and still to be sent add up to the file; the chunks in flight are consecutively numbered, none empty, above 65536 bytes or, but for the one that completes the file, below 4096; a client that waits is owed what is missing |
| TransferResults.DownloadEnds | client/src/tcp_client.rs:308-335 | a download not stopped delivers exactly the file and ends by `ConnectionClose`; the server fails only after an early stop |
| TransferResults.PageLockstep | client/src/tcp_client.rs:174-216 | a page has at most one message under way: a handshake of 400 to 2000 bytes and its answer of 2000 to 4000, then requests of 1024 to 4096 bytes, each answered with its own number and 4096 to 32768 bytes; every session ends by `ConnectionClose` |
| TransferResults.NeverBothWaiting | client/src/tcp_client.rs:389-466 | no reachable state has both sides waiting to receive with both channels empty |
| TransferResults.NeverStuck | server/src/tcp_server.rs:138-193 | every reachable state in which a side is not done has a step |
| TransferResults.RunsEnd | client/src/tcp_client.rs:419-463 | when an upload's smallest chunk is at least 1, every step uses up some of a measure fixed at the start, so runs are bounded |
| TransferResults.EmptyChunksGoOn | client/src/tcp_client.rs:426-430 | with a smallest chunk size of 0 there are runs of any length in which the upload makes no progress |
| TransferResults.SessionsEndIff | client/src/tcp_client.rs:426-430 | runs are bounded if and only if an upload cannot draw an empty chunk: its smallest size is at least 1 or the file is empty |
| TransferLoops.HandleFileUpload | server/src/tcp_server.rs:352-389 | the server's inner loop takes chunks from the front of what the client sends, up to the one that completes the file, acknowledges each with its own sequence and counts its bytes; short of the file it fails in front of a message that cannot be read and ends well behind one that is no chunk |
| TransferLoops.UploadIsServed | server/src/tcp_server.rs:352-389 | the specification of that loop is just this |
| TransferLoops.HandleFileDownload | server/src/tcp_server.rs:300-321 | the loop sends chunks numbered from 0, each of 4096 to 65536 bytes or all that is left, that come to exactly the size asked for |
| TransferLoops.ChunksAddUp | server/src/tcp_server.rs:307-318 | so does its specification, from any point on |
| TransferLoops.HandleMessage | server/src/tcp_server.rs:205-298 | kind by kind: a handshake is answered with 2000 to 4000 bytes and a page request with 4096 to 32768 and its own sequence; a download request by the chunks of the file, an upload request by an ACK and then as the inner loop does; a chunk outside an upload by an acknowledgement with its own sequence; a close stops; anything else gets nothing and goes on |
| TransferLoops.AllInRange | server/src/tcp_server.rs:213-221 | every size of a range is drawn from some random word |
| TransferLoops.HandleConnection | server/src/tcp_server.rs:124-203 | the outer loop puts out what the specification of a whole connection says, and ends in its way |
| TransferLoops.ConnectionTalks | server/src/tcp_server.rs:138-193 | the specification of a connection, message by message: it ends at the end of the stream, fails at a message that cannot be read and at an upload that fails, ends at a close, and otherwise answers and goes on with what is left |
| TransferLoops.PerformFileUpload | client/src/tcp_client.rs:389-466 | the client sends the request with the size, takes a reply, and sends chunks numbered from 0, each of a size within the range or all that is left, a reply taken to each; it closes when the file is out or it is told to stop, never before, and fails at a reply it cannot read |
| TransferLoops.ClientUploads | client/src/tcp_client.rs:426-458 | the specification of that loop is just this, from any point on |
| TransferLoops.PerformFileDownload | client/src/tcp_client.rs:298-335 | the client sends the request with the size and takes messages, and counts their bytes, until the size is reached or it is told to stop, never before, and closes; or it fails at one it cannot read |
| TransferLoops.ClientDownloads | client/src/tcp_client.rs:308-330 | the specification of that loop is just this, from any point on |
| TransferLoops.SimulateSinglePage | client/src/tcp_client.rs:138-222 | the client sends a handshake of 400 to 2000 bytes, takes a reply, and sends requests numbered from 0, each of 1024 to 4096 bytes, an answer taken to each; it closes when it has made as many as were drawn or is told to stop, never before, and fails at an answer it cannot read |
| TransferLoops.PageConversation | server/src/tcp_server.rs:205-233 | given a handshake, requests numbered 0 to n - 1, and a close, of whatever sizes within the limit, the server sends exactly n + 1 answers, the first of 2000 to 4000 bytes, the others of 4096 to 32768 with the requests' own sequences in order, and ends by the close |
| TransferLoops.PageAgrees | client/src/tcp_client.rs:138-222 | whatever answers the client was given, if its page ended well the server, given what the client sent, answers so, one answer for each that the client takes; and the requests are as many as were drawn unless the client was told to stop |
| TransferLoops.UploadLoopsAgree | client/src/tcp_client.rs:426-458 | from any point on, what the client still sends makes the server's loop receive the same total, answer each chunk with its own sequence, one answer for each that is taken, and leave the close exactly when the client was not stopped short |
| TransferLoops.UploadAgrees | server/src/tcp_server.rs:138-193 | for every size, chunk sizes (the largest or the file within the limit), stop point and replies on which the client ends well, the server's whole connection has the client's total, replies ACK and then each chunk's acknowledgement, as many as the client took, and ends by the close or, stopped short, by EOF |
| TransferLoops.OversizedChunkIsRefused | server/src/tcp_server.rs:432-434 | a chunk over the limit ends the server's loop in an error, without an answer, at whatever point it comes |
| TransferLoops.DownloadAgrees | client/src/tcp_client.rs:298-335 | for every size, draws and stop point, the request is understood, the chunks add up to the size, and the client takes them without fault to the end or to where it is stopped |
| Health.HysteresisRefinesHistory | client/src/server_pool.rs:160-190 | over every outcome history the two counters are the lengths of its trailing runs, at most one is nonzero, and the server is healthy if and only if every failure run that reached the threshold was followed by a success run that reached its own |
| Health.HealthyByGrows | client/src/server_pool.rs:214-246 | how the history predicate changes with one more outcome |
| RoundRobin.Fair | client/src/server_pool.rs:113-116 | over any `k` consecutive counter values each of `n` indices comes up k/n times rounded down or up, and exactly k/n times when n divides k |
| RoundRobin.WithinRound | client/src/server_pool.rs:113-116 | within a round an index comes up at its offset and nowhere else |
| RoundRobin.FairPicks | client/src/server_pool.rs:113-116 | among any `k` entries picked by consecutive counter values each is picked k/n times rounded down or up, and exactly once in any n in a row |
| RoundRobin.WrapKeepsRotationIff | client/src/server_pool.rs:114-115 | the rotation survives the counter's wrap at 2^64 if and only if the number of servers divides 2^64 |
| ServerPool.ServerPool.constructor | client/src/server_pool.rs:71-88 | a new pool holds each address given, repeats merged, healthy and with an empty history |
| ServerPool.ServerPool.MarkConnectionFailed | client/src/server_pool.rs:160-173 | the entry moves as by one observed failure, no other entry changes, and an unknown address changes nothing |
| ServerPool.ServerPool.MarkConnectionSuccess | client/src/server_pool.rs:175-190 | the entry moves as by one observed success |
| ServerPool.ServerPool.HealthCheckResult | client/src/server_pool.rs:214-246 | the health checker's own update, written out a second time, is the same transition |
| ServerPool.ServerPool.HealthIsHistory | client/src/server_pool.rs:160-246 | whatever calls and health checks came in whatever interleaving, health and counters are the stated functions of the server's outcome history |
| ServerPool.ServerPool.BeginStart | client/src/server_pool.rs:38-39 | the first add: one more connection of a known address is open, and its start is between the two adds; nothing else changes |
| ServerPool.ServerPool.FinishStart | client/src/server_pool.rs:40-40 | the second add: the total goes up by one and the start is complete |
| ServerPool.ServerPool.MarkConnectionStart | client/src/server_pool.rs:138-147 | with nothing between its adds, one more connection of the address is open and counted in total; health is untouched |
| ServerPool.ServerPool.MarkConnectionEnd | client/src/server_pool.rs:149-158 | the count of a known address goes down by one, wrapping at zero, and an unknown address changes nothing; called for a running flow it keeps the account and does not wrap below 2^32 connections |
| ServerPool.ServerPool.LeaveByError | client/src/quic_client.rs:127-174 | an error exit after the start leaves every counter as it is |
| ServerPool.ServerPool.ActiveIsOpen | client/src/server_pool.rs:38-60 | in every reachable pool state short of 2^32 connections, `active_connections` is the connections running plus those that left by an error, `total_connections` plus the starts between their adds is the connections started, and active is at most total if and only if there are no more such starts than connections ended |
| ServerPool.StartsAhead | client/src/server_pool.rs:38-41 | a first start between its adds has active 1 and total 0 |
| ServerPool.ServerPool.GetServer | client/src/server_pool.rs:90-136 | a server is returned if and only if one is healthy; it is healthy; round robin takes the entry at the counter and advances it by one, least connections takes the first least loaded, the other strategies the entry that the draw names; and the selection is noted with the servers as they stood |
| ServerPool.ServerPool.PickFrom | client/src/server_pool.rs:98-136 | the same pick from whatever list a walk of the map has collected and whatever counts were read one after the other, while other calls went on; the random and the hash strategy take the entry that their draw names |
| ServerPool.FirstLeast | client/src/server_pool.rs:125-130 | the first of the least values, as they are read |
| ServerPool.ServerPool.SelectionsAreFair | client/src/server_pool.rs:90-116 | in every reachable pool state, of any `k` round-robin selections in a row made from one list of n servers, by any callers and with any calls in between, each server was picked k/n times rounded down or up, and once in n, if the counter did not wrap among them or n divides 2^64 |
| ServerPool.ServerPool.GetServers | client/src/server_pool.rs:90-116 | `k` calls in a row return the servers of the rotation from the counter's value on, each a fair share |
| ServerPool.FilterHealthy | client/src/server_pool.rs:91-96 | the filter gives the healthy servers in the order of the walk |
| ServerPool.HealthyOnly | client/src/server_pool.rs:91-96 | that list holds exactly the healthy servers, each once |
| ServerPool.HealthyInOrder | client/src/server_pool.rs:91-96 | in the order in which the map is walked |
| ServerPool.LeastConnections | client/src/server_pool.rs:125-130 | the first server of the list with the fewest active connections |
| ServerPool.ObservedKeeps | client/src/server_pool.rs:160-190 | an observation keeps health in step with the history and the connection account |
| ServerPool.EndKeeps | client/src/server_pool.rs:149-158 | an end keeps the account, and finds at least one active connection |
| ServerPool.ConnectWithFailover | client/src/tcp_client.rs:504-542 | whatever other callers do between its steps: at most 3 attempts, each to the server just selected, which was healthy in that very state and the one the strategy takes there; this caller records one failure for each failed connect, and one start and one success exactly when a connection is returned, which is the first attempt that succeeds; without a healthy server it gives up at once; with no other callers the servers selected are those that the failures before have left, the counter has moved by the selections, and those failures and the success are all that is observed |
| Metrics.MetricsCollector.constructor | shared/src/metrics.rs:77-96 | a new collector is valid and empty |
| Metrics.MetricsCollector.StartConnection | shared/src/metrics.rs:98-114 | a fresh entry with zero counters |
| Metrics.MetricsCollector.EndConnection | shared/src/metrics.rs:139-143 | the entry, if any, is marked ended and nothing else changes |
| Metrics.MetricsCollector.RecordBytesSent | shared/src/metrics.rs:145-149 | the entry's count grows by the bytes; an unknown id changes nothing |
| Metrics.MetricsCollector.RecordBytesReceived | shared/src/metrics.rs:151-155 | the same for bytes received |
| Metrics.MetricsCollector.RecordError | shared/src/metrics.rs:169-173 | the entry's error count grows by one |
| Metrics.MetricsCollector.NoteDetail | shared/src/metrics.rs:175-192 | under the entry's lock the error is counted and its detail kept, and is from then on owed to the collector's list |
| Metrics.MetricsCollector.PushDetail | shared/src/metrics.rs:193-195 | under the list's lock the detail owed is pushed |
| Metrics.MetricsCollector.QuiescentDetails | shared/src/metrics.rs:175-195 | with no call under way the collector's list is a permutation of all connections' details, and no connection has fewer errors than details |
| Metrics.MetricsCollector.BeginSample | shared/src/metrics.rs:203-212 | a sampler reads the clock and starts its walk |
| Metrics.MetricsCollector.VisitEntry | shared/src/metrics.rs:214-229 | a visit adds the entry's present counters to the totals of its own protocol, sent to sent and received to received, while other calls may come between visits |
| Metrics.MetricsCollector.EndSample | shared/src/metrics.rs:231-282 | at the end of a walk that is no snapshot the totals are no smaller than the last ones; a sample is pushed with the deltas since, or, under a tenth of a second, nothing changes and nothing is lost |
| Metrics.SampleTaken | shared/src/metrics.rs:247-260 | no delta saturates: each is the exact difference, and the deltas of all samples add up to the totals just recorded |
| Metrics.Rate | shared/src/metrics.rs:263-268 | a rate is the delta over the interval rounded down: rate * elapsed <= delta < (rate + 1) * elapsed |
| Metrics.MetricsCollector.RatesConserve | shared/src/metrics.rs:203-283 | over every run the rates times their intervals come to at most the last recorded total, which is below the same sum with each rate one higher once there is a sample, and is at most the present byte total |
| Sorting.SortSorts | shared/src/report.rs:351-352 | the sorted list is ordered, a permutation, and keeps the order of equal keys |
| Sorting.StableSortIsUnique | shared/src/report.rs:410-413 | those promises leave one result only, whatever sorting algorithm is used |
| Sorting.SortInPlace | ci/src/client.rs:517-517 | an in-place sort gives that result |
| Report.PercentileInRangeIff | shared/src/report.rs:604-619 | an index is out of range if and only if the percentile is above 100 and there is more than one value |
| Report.PercentilesOrdered | shared/src/report.rs:604-619 | for sorted values and p <= q <= 100, min <= percentile(p) <= percentile(q) <= max, with the 0th the least and the 100th the greatest |
| Report.PercentileIsInterp | shared/src/report.rs:609-618 | the value returned is the point of the broken line through the sorted values at the percentile's position |
| Report.PercentileShares | shared/src/report.rs:604-619 | of any values more than the share p/100 of all but one are at most the percentile, and more than the other share are at least it |
| Report.BandInOrder | shared/src/report.rs:339-369 | for any values: no panic, min <= p50 <= p95 <= p99 <= max, both ends attained, every value and the mean between them |
| Report.BandFigures | shared/src/report.rs:339-369 | which figures: the mean times the number is the sum of the values; p50, p95 and p99 are the heights of the straight line between the two sorted values around 0.50, 0.95 and 0.99 of the way from the first to the last, with more than that share of all but one at most, and more than the rest at least, each; of no values all is 0 |
| Report.SumAppend | shared/src/report.rs:354-354 | that sum is additive over values put together |
| Report.SumOfOne | shared/src/report.rs:354-354 | and of one value it is the value |
| Report.LineIsFunction | shared/src/report.rs:609-618 | the line has one height only at each place |
| Report.ThroughputInOrder | shared/src/report.rs:306-327 | min <= avg <= peak, both attained, every value between them, the total is theirs, and the average is the total over the number rounded down |
| Report.SummarizeRtt | ci/src/client.rs:513-529 | the samples are left sorted in place, and the figures are those at the nearest indices of the sorted samples |
| Report.RttInOrder | ci/src/client.rs:518-528 | the picked figures are in order and no sample is above the last |
| Report.RttFigures | ci/src/client.rs:513-529 | which figures: the number of samples; for p50, p95 and p99 the sorted samples at the indices nearest to 0.50, 0.95 and 0.99 of the way, halves going up, in milliseconds; and the last |
| Report.PickIndex | ci/src/client.rs:518-520 | the index is in range and is the one nearest to (n - 1) * q, halves going up |
| ErrorReport.CalculateErrorStats | shared/src/report.rs:371-425 | the nested loop collects every detail and tallies it; the counts by type add up to the number of details; totals and rate are those of the connections |
| ErrorReport.TallyCounts | shared/src/report.rs:405-406 | the tally has exactly the types that occur, each with the number of its details |
| ErrorReport.MostRecentAreLatest | shared/src/report.rs:410-413 | the most recent errors are 10 details, or all if fewer, none of the others later, from the latest down, ties in the order collected |
| ErrorReport.DistributionIsTotalIff | shared/src/report.rs:393-395 | the distribution, which names TCP and UDP only, comes to the total if and only if no QUIC connection has an error |
| ErrorReport.ErrorsAppend | shared/src/report.rs:371-408 | totals, totals by protocol and details are additive over connections put together |
| ErrorReport.ErrorsOfOne | shared/src/report.rs:371-408 | and of one connection they are its own |
| ErrorReport.ReportAgrees | shared/src/report.rs:397-408 | of a collector at rest, whatever the order of the walk, the report's details are a permutation of the collector's list, its counts by type come to their number, and its error total is no less |
| QuicSessions.RunInv | server/src/quic_server.rs:77-143 | over every interleaving of inserts, starts, stream updates, removals, scans and sweeps the session table's invariant holds |
| QuicSessions.Conserved | server/src/quic_server.rs:98-140 | in every reachable state each id inserted is in exactly one place: in the map, ended once, or displaced; and no ended id is in the map |
| QuicSessions.SessionTellsHistory | server/src/quic_server.rs:98-208 | over every run, each session in the map was inserted by an accept at its address with no other since, and its requests, bytes each way and last activity are those of the requests and responses at the address since then |
| QuicSessions.NothingDisplacedIff | server/src/quic_server.rs:98-98 | no session is ever displaced if and only if every accepted connection comes from an address with no session in the map |
| QuicSessions.CloseEndsOwn | server/src/quic_server.rs:128-140 | with distinct addresses of live connections a closing handler ends its own session, or none if the cleanup took it |
| QuicSessions.AllEnded | server/src/quic_server.rs:98-140 | with distinct addresses, once every handler is done the map is empty, the ids ended are exactly the ids inserted, each once, and the collector marks each as ended unless its end came before its start |
| QuicSessions.SweepKeeps | server/src/quic_server.rs:280-296 | the second phase removes exactly the sessions at the addresses found and ends each once |
| QuicSessions.SweepEndsSeenIff | server/src/quic_server.rs:263-297 | a sweep ends only sessions the scan saw if and only if none of the addresses found has a session inserted since the scan |
| QuicSessions.SweepEndsIdleIff | server/src/quic_server.rs:263-297 | the session a sweep ends at an address was no longer idle for its scan if and only if the last connection or request at the address since the scan came within the threshold |
| QuicSessions.SweepEndsOnlyIdleIff | server/src/quic_server.rs:263-297 | with a clock that does not go back, and no connection held up between its clock reading and its insert for the whole threshold, a sweep ends only idle sessions if and only if since the scan no connection came from an address found and no request was made there |
| QuicSessions.BusySessionIsSwept | server/src/quic_server.rs:178-184 | a run in which the cleanup ends a session that a request has just made active |
| QuicSessions.ReusedAddressIsSwept | server/src/quic_server.rs:271-296 | a run in which the cleanup ends a fresh session of a live connection because its address was reused between scan and sweep |
| QuicSessions.SessionTable.Insert | server/src/quic_server.rs:98-98 | the new session holds its address and is idle for a scan exactly when that comes more than 120 seconds later; the session it displaces is accounted for, and no other is touched |
| QuicSessions.SessionTable.OnRequest | server/src/quic_server.rs:175-185 | a request keeps the session at its address from every scan within 120 seconds, and from no later one; no session comes or goes and no other is touched |
| QuicSessions.SessionTable.OnResponse | server/src/quic_server.rs:196-208 | a response is counted for the session at its address and is no activity: every scan finds idle what it would have |
| QuicSessions.SessionTable.HandleStream | server/src/quic_server.rs:170-218 | an undisturbed stream: an empty request is an error and changes nothing, a response counts only when it went out |
| QuicSessions.SessionTable.Remove | server/src/quic_server.rs:129-140 | the session at the address, if any, is removed and its connection ended |
| QuicSessions.SessionTable.Scan | server/src/quic_server.rs:271-278 | the loop lists exactly the idle sessions' addresses, each once, and changes nothing |
| QuicSessions.SessionTable.Sweep | server/src/quic_server.rs:280-296 | the loop of removals has the effect of the specified sweep |

## Left out

- The UDP flow of the probe (ci/src/client.rs:270-396) and any delivery guarantee of UDP: the datagram codec and the echo loop are modelled, the channel between them is not.
- Probe and transfer sessions as classes: the shared atomics and the two ends of a session are modelled as values moved by step relations, because the claims are about interleavings; `TransferLoops` gives the transfer loops in their own form, without failing writes.
- Weak memory: the `Relaxed` atomics interleave sequentially consistently.
- Floating point rounding: rates, ratios, percentiles and means are exact reals; NaN does not occur.
- Clocks, identifiers and random draws: the clock is monotone and advances at will, ids passed to `StartConnection` and `Accept` are fresh, draws are parameters.
- Message serialization (MessagePack), TLS and QUIC transport: a message is a value carried whole; `limit` stands for the largest payload whose message is within 10 MiB.
- The 30 second receive timeouts and transport failures in the middle of a transfer: a session ends early only by the stop flag, an oversized message, or a side that has gone.
- Overflow of byte totals, and of the 32-bit outcome counters: totals are unbounded; the wrap of `active_connections`, `total_connections`, the sequence number and the round-robin counter is modelled.
- ServerPool.ServerPool.GetServer: the walk, the loads and the pick are one step over a fixed order; `PickFrom` makes the pick from any list and any counts that were collected meanwhile.
- ServerPool.ConnectWithFailover: other callers come in before each selection, each connection attempt's outcome and each mark, and not within the walk of a selection; an end that another caller marks is not tied to a flow.
- EchoServer.Sink.WriteAll: the point at which writing fails is fixed for a connection, and a failing flush counts as a failing write.
- TransferLoops.DownloadAgrees: the server's writes succeed even when the client has stopped and left; `TransferResults.DownloadEnds` has them fail.
- ServerPool.ServerPool.HealthCheckResult: the connection attempt behind a health check and its timer are a given outcome.
- Metrics.MetricsCollector.VisitEntry: a walk comes to every entry that was there when it began and to none twice; whether it comes to entries added meanwhile is left open; there is one sampler, as in both programs.
- Probe.NextKeeps: the writing of the metrics is one step, since after the joins only the list of stalls can still change; the 95th percentile of the round-trip times is an arbitrary number there.
- Round-trip samples beyond the cap, the error message lists and the latency and error histories (`sample_latency`, `sample_errors`): they feed no decision.
- The performance summary, connection durations and the total of a throughput band read as bytes (it is a sum of rates): sums and quotients without a further claim.
- QuicSessions.SessionTable.OnRequest: of the collector's calls only start and end are recorded; the byte and packet counts are those of the session.
- Response sizes and contents of the QUIC server, ramp-up, think times, run summary, panel, archive, terminal interfaces, command lines and output formats: no state worth a theorem.
