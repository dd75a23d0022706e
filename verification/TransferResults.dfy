/** What the client's and the server's loops agree on, and that every session comes to an end. */
module TransferResults {
  import opened Basics
  import opened Bytes
  import opened Transfer

  // ------------------------------------------------------------------ agreement

  /** An upload goes in lockstep: at most one message is under way, the server has what the client has
      counted and at most the chunk that is out, which is of a fitting size, and an acknowledgement names that chunk. */
  lemma UploadLockstep(c: Config, run: seq<Session>, i: nat)
    requires c.Valid() && c.activity.Upload? && IsRun(c, run) && i < |run|
    ensures var s := run[i];
            && |s.up| + |s.down| <= 1
            && s.sent <= s.serverReceived <= c.activity.size
            && s.serverReceived <= s.sent + (if s.client.AwaitReply? then s.client.size else 0)
            && (s.client.AwaitReply? && s.down != [] ==> s.down == [Message(HttpResponse, CHUNK_ACK, s.sequence)])
            && (s.client.AwaitReply? && s.up != [] ==> Carries(s.up, FileUploadChunk, s.client.size, s.sequence))
            && (s.client.AwaitReply? ==> SizeFits(s.client.size, c.activity.lo, c.activity.hi, c.activity.size - s.sent))
            && (s.server.ChunkAck? ==> s.server.sequence == s.sequence)
  {
    RunInv(c, run, i);
  }

  /** How an upload ends.  The totals always agree.  Either both sides end well: the server meets the `ConnectionClose`
      in its outer loop if the file is complete, and otherwise its inner loop swallows it and the end of the stream
      ends the session; and a run that is not stopped is complete.  Or both fail, short of the file, over a chunk
      above the receiver's limit. */
  lemma UploadEnds(c: Config, run: seq<Session>, i: nat)
    requires c.Valid() && c.activity.Upload? && IsRun(c, run) && i < |run| && Over(run[i])
    ensures var s := run[i];
            && s.sent == s.serverReceived <= c.activity.size
            && (s.client == Aborted <==> s.server == Done(Failed))
            && (s.client == Ended ==>
                  && (s.server == Done(ByClose) <==> s.sent == c.activity.size)
                  && (s.server == Done(ByEof) <==> s.sent < c.activity.size)
                  && (!s.stopped ==> s.sent == c.activity.size))
            && (s.client == Aborted ==> s.sent < c.activity.size && Oversized(c))
  {
    RunInv(c, run, i);
  }

  /** In a download, what was received, what is in flight and what is still to be sent are the file,
      as long as the connection stands; chunks in flight are numbered on, none is empty, over 65536 bytes
      or, but for the one that completes the file, under 4096; and a client that waits is owed all that is missing. */
  lemma DownloadAgreement(c: Config, run: seq<Session>, i: nat)
    requires c.Valid() && c.activity.Download? && IsRun(c, run) && i < |run|
    ensures var s := run[i];
            && s.received + PayloadBytes(s.down) + (c.activity.size - s.serverSent) == c.activity.size
            && s.serverSent <= c.activity.size
            && Chunks(s.down, s.serverSequence) && FullChunks(s.down, s.serverSent == c.activity.size)
            && (s.client == AwaitChunk ==>
                  s.received < c.activity.size && (s.down != [] || s.server.Downloading? || s.up != []))
  {
    RunInv(c, run, i);
  }

  /** A download that is not stopped delivers the file and ends by `ConnectionClose`; the server
      reports an error only after an early stop. */
  lemma DownloadEnds(c: Config, run: seq<Session>, i: nat)
    requires c.Valid() && c.activity.Download? && IsRun(c, run) && i < |run|
    ensures var s := run[i];
            && (s.server == Done(Failed) ==> s.stopped)
            && s.server != Done(ByEof) && s.client != Aborted
            && (Over(s) && !s.stopped ==> s.received == s.serverSent == c.activity.size && s.server == Done(ByClose))
  {
    RunInv(c, run, i);
  }

  /** A page: no more than one message under way, of the size that its kind has; responses carry their request's number, every
      request is answered before the next, and the session ends by `ConnectionClose`. */
  lemma PageLockstep(c: Config, run: seq<Session>, i: nat)
    requires c.Valid() && c.activity.Page? && IsRun(c, run) && i < |run|
    ensures var s := run[i];
            && |s.up| + |s.down| <= 1
            && (s.client == AwaitFirst && s.up != [] ==> s.up[0].kind == TlsHandshake && 400 <= |s.up[0].payload| <= 2000)
            && (s.client == AwaitFirst && s.down != [] ==> IsAnswer(s.down[0], 2000, 4000, 0))
            && (s.client.AwaitReply? ==> 1024 <= s.client.size <= 4096)
            && (s.client.AwaitReply? && s.up != [] ==> Carries(s.up, HttpRequest, s.client.size, s.sequence))
            && (s.client.AwaitReply? && s.down != [] ==> IsAnswer(s.down[0], 4096, 32768, s.sequence))
            && s.client != Aborted
            && (Over(s) ==> s.server == Done(ByClose) && (s.stopped || s.sequence == c.activity.requests))
  {
    RunInv(c, run, i);
  }

  // ------------------------------------------------------------------ no deadlock

  /** It never happens that both sides wait to receive and nothing is under way. */
  lemma NeverBothWaiting(c: Config, run: seq<Session>, i: nat)
    requires c.Valid() && IsRun(c, run) && i < |run|
    ensures !(ClientWaits(run[i]) && ServerWaits(run[i]) && Quiet(run[i]))
  {
    RunInv(c, run, i);
  }

  lemma ClientMove(c: Config, s: Session) returns (s': Session)
    requires c.Valid() && ClientSends(s) && Inv(c, s)
    ensures ClientStep(c, s, s')
  {
    if s.client == Closing {
      s' := s.(client := Ended, up := s.up + [CLOSE]);
      assert ClientClose(s, s');
    } else if s.client == Start {
      s' := OpenMove(c, s);
    } else {
      s' := LoopMove(c, s);
    }
  }

  lemma OpenMove(c: Config, s: Session) returns (s': Session)
    requires s.client == Start
    ensures ClientStep(c, s, s')
  {
    var hello := Zeros(400);
    match c.activity
    case Upload(size, _, _) =>
      s' := s.(client := AwaitFirst, up := s.up + [Message(FileUploadRequest, ToLe(size, 8), 0)]);
      assert ClientOpen(c, s, s', hello);
    case Download(size) =>
      s' := s.(client := if 0 < size then AwaitChunk else Closing,
               up := s.up + [Message(FileDownloadRequest, ToLe(size, 8), 0)]);
      assert ClientOpen(c, s, s', hello);
    case Page(_) =>
      s' := s.(client := AwaitFirst, up := s.up + [Message(TlsHandshake, hello, 0)]);
      assert ClientOpen(c, s, s', hello);
  }

  lemma LoopMove(c: Config, s: Session) returns (s': Session)
    requires c.Valid() && s.client == Loop && !c.activity.Download?
    ensures ClientStep(c, s, s')
  {
    match c.activity
    case Upload(size, lo, hi) =>
      if s.sent < size {
        var left := size - s.sent;
        var data := Zeros(if lo <= left then lo else left);
        assert Cut(lo, left, |data|);
        s' := s.(client := AwaitReply(|data|), up := s.up + [Message(FileUploadChunk, data, s.sequence)]);
        assert ClientLoop(c, s, s', data);
      } else {
        s' := s.(client := Closing);
        assert ClientLoop(c, s, s', []);
      }
    case Page(requests) =>
      if s.sequence < requests {
        var data := Zeros(1024);
        s' := s.(client := AwaitReply(|data|), up := s.up + [Message(HttpRequest, data, s.sequence)]);
        assert ClientLoop(c, s, s', data);
      } else {
        s' := s.(client := Closing);
        assert ClientLoop(c, s, s', []);
      }
  }

  /** A client that waits for a message which is there takes it. */
  lemma TakeMove(c: Config, s: Session) returns (s': Session)
    requires ClientWaits(s) && s.down != [] && (s.client == AwaitChunk ==> c.activity.Download?)
    ensures ClientStep(c, s, s')
  {
    if s.client == AwaitFirst {
      s' := s.(client := Loop, down := s.down[1..]);
      assert ClientFirstReply(s, s');
    } else if s.client.AwaitReply? {
      s' := s.(client := Loop, down := s.down[1..],
               sent := s.sent + s.client.size, sequence := s.sequence + 1);
      assert ClientReply(c, s, s', false);
    } else {
      var received := s.received + |s.down[0].payload|;
      s' := s.(client := if received >= c.activity.size then Closing else AwaitChunk,
               received := received, down := s.down[1..]);
      assert ClientChunk(c, s, s', false);
    }
  }

  lemma SendMove(c: Config, s: Session) returns (s': Session)
    requires ServerSends(s) && (s.server.Downloading? ==> s.serverSent < s.server.size)
    ensures ServerStep(c, s, s')
  {
    match s.server
    case Reply(m) =>
      s' := s.(server := Await, down := s.down + [m]);
      assert ServerReply(s, s');
    case FirstAck(expected) =>
      s' := s.(server := if 0 < expected then Uploading(expected) else Await, serverReceived := 0,
               down := s.down + [Message(HttpResponse, ACK, 0)]);
      assert ServerFirstAck(s, s');
    case ChunkAck(expected, sequence) =>
      s' := s.(server := if s.serverReceived < expected then Uploading(expected) else Await,
               down := s.down + [Message(HttpResponse, CHUNK_ACK, sequence)]);
      assert ServerChunkAck(s, s');
    case Downloading(size) =>
      var left := size - s.serverSent;
      var data := Zeros(if 4096 <= left then 4096 else left);
      assert Cut(4096, left, |data|);
      s' := s.(server := if s.serverSent + |data| < size then s.server else Await,
               serverSent := s.serverSent + |data|, serverSequence := s.serverSequence + 1,
               down := s.down + [Message(FileDownloadChunk, data, s.serverSequence)]);
      assert ServerDownload(s, s', data);
  }

  lemma ReceiveMove(c: Config, s: Session) returns (s': Session)
    requires ServerWaits(s) && s.up != []
    ensures ServerStep(c, s, s')
  {
    var m, t := s.up[0], s.(up := s.up[1..]);
    if s.server.Uploading? {
      s' := if |m.payload| > c.limit then t.(server := Done(Failed))
            else if m.kind != FileUploadChunk then t.(server := Await)
            else t.(server := ChunkAck(s.server.expected, m.sequence), serverReceived := s.serverReceived + |m.payload|);
      assert ServerUpload(c, s, s');
    } else {
      var response := Zeros(if m.kind == TlsHandshake then 2000 else 4096);
      s' := if |m.payload| > c.limit then t.(server := Done(Failed)) else
        match m.kind
        case TlsHandshake => t.(server := Reply(Message(HttpResponse, response, 0)))
        case HttpRequest => t.(server := Reply(Message(HttpResponse, response, m.sequence)))
        case FileDownloadRequest =>
          var size := RequestedSize(m.payload);
          t.(server := if size == 0 then Await else Downloading(size), serverSent := 0, serverSequence := 0)
        case FileUploadRequest => t.(server := FirstAck(RequestedSize(m.payload)))
        case FileUploadChunk => t.(server := Reply(Message(HttpResponse, CHUNK_ACK, m.sequence)))
        case ConnectionClose => t.(server := Done(ByClose))
        case _ => t;
      assert ServerReceive(c, s, s', response);
    }
  }

  /** What every reachable state offers. */
  lemma Enabled(c: Config, s: Session)
    requires c.Valid() && Inv(c, s) && !Over(s)
    ensures || ClientSends(s) || (ClientWaits(s) && s.down != [])
            || (ServerSends(s) && (s.server.Downloading? ==> s.serverSent < s.server.size))
            || (ServerWaits(s) && (s.up != [] || ClientGone(s)))
            || (ClientWaits(s) && s.server.Done?)
    ensures s.client == Loop ==> !c.activity.Download?
    ensures s.client == AwaitChunk ==> c.activity.Download?
  {
  }

  /** No reachable state is stuck, wherever the stop flag was raised: until both sides are done, one can move. */
  lemma NeverStuck(c: Config, run: seq<Session>, i: nat) returns (s': Session)
    requires c.Valid() && IsRun(c, run) && i < |run| && !Over(run[i])
    ensures Next(c, run[i], s')
  {
    RunInv(c, run, i);
    s' := Move(c, run[i]);
  }

  lemma Move(c: Config, s: Session) returns (s': Session)
    requires c.Valid() && Inv(c, s) && !Over(s)
    ensures Next(c, s, s')
  {
    hide Inv, ClientStep, ServerStep;
    Enabled(c, s);
    if ClientSends(s) {
      s' := ClientMove(c, s);
    } else if ClientWaits(s) && s.down != [] {
      s' := TakeMove(c, s);
    } else if ServerSends(s) && (s.server.Downloading? ==> s.serverSent < s.server.size) {
      s' := SendMove(c, s);
    } else if ServerWaits(s) && s.up != [] {
      s' := ReceiveMove(c, s);
    } else {
      s' := GiveUp(c, s);
    }
  }

  lemma GiveUp(c: Config, s: Session) returns (s': Session)
    requires (ServerWaits(s) && s.up == [] && ClientGone(s)) || (ClientWaits(s) && s.server.Done? && s.down == [])
    ensures Next(c, s, s')
  {
    if ServerWaits(s) {
      s' := s.(server := Done(if s.server == Await then ByEof else Failed));
      assert ServerEof(s, s');
    } else {
      s' := s.(client := Aborted);
      assert ClientFail(s, s');
    }
  }

  // ------------------------------------------------------------------ termination

  function MessageWeight(c: Config, m: Message): nat {
    if m.kind == FileDownloadRequest && c.activity.Download? then 5 * c.activity.size + 8 else 4
  }

  function Weight(c: Config, ms: seq<Message>): nat {
    if ms == [] then 0 else MessageWeight(c, ms[0]) + Weight(c, ms[1..])
  }

  lemma {:induction false} WeightSnoc(c: Config, ms: seq<Message>, m: Message)
    ensures Weight(c, ms + [m]) == Weight(c, ms) + MessageWeight(c, m)
  {
    if ms == [] {
      assert ms + [m] == [m];
    } else {
      assert (ms + [m])[1..] == ms[1..] + [m];
      WeightSnoc(c, ms[1..], m);
    }
  }

  function ClientWork(c: Config, s: Session): int {
    match s.client
    case Start => (match c.activity
                   case Upload(size, _, _) => 10 * size + 30
                   case Download(size) => 5 * size + 40
                   case Page(requests) => 10 * requests + 30)
    case AwaitFirst => (match c.activity
                        case Upload(size, _, _) => 10 * size + 20
                        case Download(_) => 20
                        case Page(requests) => 10 * requests + 20)
    case Loop => (match c.activity
                  case Upload(size, _, _) => 10 * (size - s.sent) + 10
                  case Download(_) => 10
                  case Page(requests) => 10 * (requests - s.sequence) + 10)
    case AwaitReply(n) => (match c.activity
                           case Upload(size, _, _) => 10 * (size - s.sent - n) + 10
                           case Download(_) => 10
                           case Page(requests) => 10 * (requests - s.sequence - 1) + 10)
    case AwaitChunk => 15
    case Closing => 8
    case Ended => 0
    case Aborted => 0
  }

  function ServerWork(s: Session): int {
    match s.server
    case Await => 2
    case Uploading(_) => 2
    case Reply(_) => 5
    case FirstAck(_) => 5
    case ChunkAck(_, _) => 5
    case Downloading(size) => 5 * (size - s.serverSent) + 3
    case Done(_) => 0
  }

  /** Work left on both sides, and in the messages under way. */
  function Measure(c: Config, s: Session): int {
    ClientWork(c, s) + ServerWork(s) + Weight(c, s.up) + 2 * |s.down|
  }

  /** A session that cannot draw empty chunks for ever. */
  ghost predicate Productive(c: Config) {
    c.activity.Upload? ==> c.activity.lo >= 1 || c.activity.size == 0
  }

  /** What the measure needs to know of a reachable state. */
  ghost predicate WorkFacts(c: Config, s: Session) {
    && (c.activity.Upload? ==>
          && s.sent <= c.activity.size
          && (s.client.AwaitReply? ==> s.sent + s.client.size <= c.activity.size))
    && (c.activity.Page? ==>
          s.sequence <= c.activity.requests && (s.client.AwaitReply? ==> s.sequence < c.activity.requests))
    && (s.server.Downloading? ==> c.activity.Download? && s.server.size == c.activity.size && s.serverSent < c.activity.size)
    && (s.client == AwaitChunk || s.client.AwaitReply? || s.client == Loop ==>
          (c.activity.Download? <==> s.client == AwaitChunk))
    && (s.server == Await && s.up != [] && s.up[0].kind == FileDownloadRequest ==>
          c.activity.Download? && s.up[0].payload == ToLe(c.activity.size, 8))
  }

  lemma InvWorkFacts(c: Config, s: Session)
    requires c.Valid() && Inv(c, s)
    ensures WorkFacts(c, s)
  {
  }

  lemma MeasureBounded(c: Config, s: Session)
    requires WorkFacts(c, s)
    ensures Measure(c, s) >= 0
  {
  }

  lemma OpenWorks(c: Config, s: Session, s': Session, d: seq<byte>)
    requires WorkFacts(c, s) && (ClientOpen(c, s, s', d) || ClientClose(s, s'))
    ensures Measure(c, s') < Measure(c, s)
  {
    WeightSnoc(c, s.up, s'.up[|s.up|]);
  }

  lemma LoopWorks(c: Config, s: Session, s': Session, d: seq<byte>)
    requires Productive(c) && WorkFacts(c, s) && ClientLoop(c, s, s', d)
    ensures Measure(c, s') < Measure(c, s)
  {
    if s'.up != s.up {
      WeightSnoc(c, s.up, s'.up[|s.up|]);
    }
  }

  lemma ReplyWorks(c: Config, s: Session, s': Session, stop: bool)
    requires WorkFacts(c, s)
    requires ClientFirstReply(s, s') || ClientReply(c, s, s', stop) || ClientChunk(c, s, s', stop) || ClientFail(s, s')
    ensures Measure(c, s') < Measure(c, s)
  {
  }

  lemma ClientWorks(c: Config, s: Session, s': Session)
    requires Productive(c) && WorkFacts(c, s) && ClientStep(c, s, s')
    ensures Measure(c, s') < Measure(c, s)
  {
    hide Measure, WorkFacts, Productive;
    if d: seq<byte> :| ClientOpen(c, s, s', d) {
      OpenWorks(c, s, s', d);
    } else if ClientClose(s, s') {
      OpenWorks(c, s, s', []);
    } else if d: seq<byte> :| ClientLoop(c, s, s', d) {
      LoopWorks(c, s, s', d);
    } else if stop: bool :| ClientReply(c, s, s', stop) || ClientChunk(c, s, s', stop) {
      ReplyWorks(c, s, s', stop);
    } else {
      ReplyWorks(c, s, s', false);
    }
  }

  lemma ReceiveWorks(c: Config, s: Session, s': Session, d: seq<byte>)
    requires WorkFacts(c, s) && ServerReceive(c, s, s', d)
    ensures Measure(c, s') < Measure(c, s)
  {
    if c.activity.Download? {
      SizeIsUnderstood(c.activity.size, []);
    }
  }

  lemma SendWorks(c: Config, s: Session, s': Session, d: seq<byte>)
    requires WorkFacts(c, s)
    requires ServerReply(s, s') || ServerFirstAck(s, s') || ServerChunkAck(s, s') || ServerDownload(s, s', d)
    ensures Measure(c, s') < Measure(c, s)
  {
  }

  lemma EndWorks(c: Config, s: Session, s': Session)
    requires WorkFacts(c, s) && (ServerUpload(c, s, s') || ServerEof(s, s') || ServerFail(s, s'))
    ensures Measure(c, s') < Measure(c, s)
  {
  }

  lemma ServerWorks(c: Config, s: Session, s': Session)
    requires WorkFacts(c, s) && ServerStep(c, s, s')
    ensures Measure(c, s') < Measure(c, s)
  {
    hide Measure, WorkFacts;
    if d: seq<byte> :| ServerReceive(c, s, s', d) {
      ReceiveWorks(c, s, s', d);
    } else if d: seq<byte> :| ServerDownload(s, s', d) {
      SendWorks(c, s, s', d);
    } else if ServerUpload(c, s, s') || ServerEof(s, s') || ServerFail(s, s') {
      EndWorks(c, s, s');
    } else {
      SendWorks(c, s, s', []);
    }
  }

  /** Every run of a productive session is bounded by the work there is at the start. */
  lemma {:induction false} RunsEnd(c: Config, run: seq<Session>, i: nat)
    requires c.Valid() && Productive(c) && IsRun(c, run) && i < |run|
    ensures Measure(c, run[i]) + i <= Measure(c, run[0])
  {
    if i > 0 {
      assert StepAt(c, run, i);
      RunInv(c, run, i - 1);
      InvWorkFacts(c, run[i - 1]);
      RunsEnd(c, run, i - 1);
      if ClientStep(c, run[i - 1], run[i]) {
        ClientWorks(c, run[i - 1], run[i]);
      } else {
        ServerWorks(c, run[i - 1], run[i]);
      }
    }
  }

  /** One round of an upload with an empty chunk: four steps, and only the sequence number has moved. */
  lemma EmptyRound(c: Config, run: seq<Session>) returns (run': seq<Session>)
    requires c.Valid() && c.activity.Upload? && c.activity.lo == 0 && c.activity.size > 0
    requires IsRun(c, run) && AtLoop(c, run[|run| - 1])
    ensures IsRun(c, run') && |run'| == |run| + 4 && AtLoop(c, run'[|run'| - 1])
  {
    var s0 := run[|run| - 1];
    var s1 := s0.(client := AwaitReply(0), up := [Message(FileUploadChunk, [], s0.sequence)]);
    assert Cut(0, c.activity.size - s0.sent, 0);
    assert ClientLoop(c, s0, s1, []);
    var run1 := Extend(c, run, s1);
    var s2 := s1.(server := ChunkAck(c.activity.size, s0.sequence), up := []);
    assert ServerUpload(c, s1, s2);
    var run2 := Extend(c, run1, s2);
    var s3 := s2.(server := Uploading(c.activity.size), down := [Message(HttpResponse, CHUNK_ACK, s0.sequence)]);
    assert ServerChunkAck(s2, s3);
    var run3 := Extend(c, run2, s3);
    var s4 := s3.(client := Loop, down := [], sequence := s0.sequence + 1);
    assert ClientReply(c, s3, s4, false);
    run' := Extend(c, run3, s4);
  }

  /** At the loop head of an upload that has got nowhere. */
  ghost predicate AtLoop(c: Config, s: Session) {
    && c.activity.Upload? && s.client == Loop && s.sent == 0 && s.serverReceived == 0 && !s.stopped
    && s.server == Uploading(c.activity.size) && Quiet(s)
  }

  lemma Extend(c: Config, run: seq<Session>, s: Session) returns (run': seq<Session>)
    requires IsRun(c, run) && Next(c, run[|run| - 1], s)
    ensures run' == run + [s] && IsRun(c, run')
  {
    run' := run + [s];
    forall i | 0 < i < |run'| ensures StepAt(c, run', i) {
      if i < |run| {
        assert StepAt(c, run, i);
      }
    }
  }

  lemma FirstRound(c: Config) returns (run: seq<Session>)
    requires c.Valid() && c.activity.Upload? && c.activity.size > 0
    ensures IsRun(c, run) && AtLoop(c, run[|run| - 1])
  {
    var s0 := Session(Start, 0, 0, 0, false, Await, 0, 0, 0, [], []);
    run := [s0];
    SizeIsUnderstood(c.activity.size, []);
    var s1 := s0.(client := AwaitFirst, up := [Message(FileUploadRequest, ToLe(c.activity.size, 8), 0)]);
    assert ClientOpen(c, s0, s1, []);
    run := Extend(c, run, s1);
    var s2 := s1.(server := FirstAck(c.activity.size), up := []);
    assert ServerReceive(c, s1, s2, []);
    run := Extend(c, run, s2);
    var s3 := s2.(server := Uploading(c.activity.size), down := [Message(HttpResponse, ACK, 0)]);
    assert ServerFirstAck(s2, s3);
    run := Extend(c, run, s3);
    var s4 := s3.(client := Loop, down := []);
    assert ClientFirstReply(s3, s4);
    run := Extend(c, run, s4);
  }

  lemma {:induction false} EmptyChunksGoOn(c: Config, n: nat) returns (run: seq<Session>)
    requires c.Valid() && c.activity.Upload? && c.activity.lo == 0 && c.activity.size > 0
    ensures IsRun(c, run) && |run| > n && AtLoop(c, run[|run| - 1])
  {
    if n == 0 {
      run := FirstRound(c);
    } else {
      var shorter := EmptyChunksGoOn(c, n - 1);
      run := EmptyRound(c, shorter);
    }
  }

  ghost predicate BoundedBy(c: Config, bound: int) {
    forall run :: IsRun(c, run) ==> |run| <= bound
  }

  /** Sessions always come to an end, bounded from the start, exactly when an upload cannot draw an empty
      chunk: its smallest chunk size is at least 1, or the file is empty. */
  lemma SessionsEndIff(c: Config)
    requires c.Valid()
    ensures (exists bound :: BoundedBy(c, bound)) <==> Productive(c)
  {
    if Productive(c) {
      var s0 := Session(Start, 0, 0, 0, false, Await, 0, 0, 0, [], []);
      var bound := Measure(c, s0) + 1;
      forall run | IsRun(c, run) ensures |run| <= bound {
        var last := |run| - 1;
        RunsEnd(c, run, last);
        RunInv(c, run, last);
        InvWorkFacts(c, run[last]);
        MeasureBounded(c, run[last]);
      }
      assert BoundedBy(c, bound);
    } else if bound :| BoundedBy(c, bound) {
      var run := EmptyChunksGoOn(c, if bound < 0 then 0 else bound);
    }
  }

  // ------------------------------------------------------------------ when an upload completes

  /** A run that is over and was not stopped has the whole file on both sides. */
  ghost predicate Delivers(c: Config, run: seq<Session>)
    requires c.activity.Upload?
  {
    IsRun(c, run) && Over(run[|run| - 1]) && !run[|run| - 1].stopped ==>
      run[|run| - 1].sent == run[|run| - 1].serverReceived == c.activity.size
  }

  ghost predicate Completes(c: Config)
    requires c.activity.Upload?
  {
    forall run :: Delivers(c, run)
  }

  /** The first chunk is drawn above the limit: the server refuses its length, and the client's receive fails. */
  lemma OversizedChunkFails(c: Config) returns (run: seq<Session>)
    requires c.Valid() && c.activity.Upload? && Oversized(c)
    ensures IsRun(c, run) && Over(run[|run| - 1])
    ensures var s := run[|run| - 1];
            && !s.stopped && s.client == Aborted && s.server == Done(Failed)
            && s.sent == s.serverReceived == 0 && c.activity.size > 0
  {
    run := FirstRound(c);
    var s0 := run[|run| - 1];
    var size := Min(c.activity.hi, c.activity.size);
    var data := Zeros(size);
    assert Cut(c.activity.hi, c.activity.size - s0.sent, size);
    var s1 := s0.(client := AwaitReply(size), up := [Message(FileUploadChunk, data, s0.sequence)]);
    assert ClientLoop(c, s0, s1, data);
    run := Extend(c, run, s1);
    var s2 := s1.(server := Done(Failed), up := []);
    assert ServerUpload(c, s1, s2);
    run := Extend(c, run, s2);
    var s3 := s2.(client := Aborted);
    assert ClientFail(s2, s3);
    run := Extend(c, run, s3);
  }

  /** Every upload that runs its course and is not stopped ends with both totals equal to the file's size, exactly
      when no chunk can be above the limit: the largest chunk size is within it, or the whole file is. */
  lemma UploadCompletesIff(c: Config)
    requires c.Valid() && c.activity.Upload?
    ensures Completes(c) <==> c.activity.hi <= c.limit || c.activity.size <= c.limit
  {
    if Oversized(c) {
      var run := OversizedChunkFails(c);
      assert !Delivers(c, run);
    } else {
      forall run ensures Delivers(c, run) {
        if IsRun(c, run) && Over(run[|run| - 1]) {
          UploadEnds(c, run, |run| - 1);
        }
      }
    }
  }
}
