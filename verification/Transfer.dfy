/**
 A TCP session between the load client and the server: an upload, a download or a web page.  Two loops,
 written apart, joined by two FIFO channels of whole messages.  A step sends one message, receives
 one, or notices that the other side has gone.
 */
module Transfer {
  import opened Bytes

  datatype MessageType =
    | TlsHandshake | HttpRequest | HttpResponse
    | FileDownloadRequest | FileDownloadChunk
    | FileUploadRequest | FileUploadChunk
    | ConnectionClose | Unexpected

  datatype Message = Message(kind: MessageType, payload: seq<byte>, sequence: nat)

  datatype Activity =
    | Upload(size: u64, lo: nat, hi: nat)
    | Download(size: u64)
    | Page(requests: nat)

  /** `limit` is the largest payload whose message is within the receiver's 10 MiB. */
  datatype Config = Config(activity: Activity, limit: nat) {
    ghost predicate Valid() {
      && limit >= 65536
      && (activity.Upload? ==> activity.lo <= activity.hi)
    }
  }

  const DEFAULT_SIZE: u64 := 1024 * 1024

  // ------------------------------------------------------------------ state

  datatype ClientPc =
    | Start
    | AwaitFirst             // the upload's ACK, or the handshake response
    | Loop
    | AwaitReply(size: nat)  // a chunk of `size` bytes, or a page request, is out
    | AwaitChunk             // downloading
    | Closing
    | Ended                  // returned Ok
    | Aborted                // returned Err

  datatype Ending = ByClose | ByEof | Failed

  datatype ServerPc =
    | Await
    | Reply(message: Message)
    | FirstAck(expected: nat)
    | Uploading(expected: nat)
    | ChunkAck(expected: nat, sequence: nat)
    | Downloading(size: nat)
    | Done(how: Ending)

  datatype Session = Session(
    client: ClientPc, sent: nat, received: nat, sequence: nat, stopped: bool,
    server: ServerPc, serverReceived: nat, serverSent: nat, serverSequence: nat,
    up: seq<Message>, down: seq<Message>)

  ghost predicate Init(s: Session) {
    s == Session(Start, 0, 0, 0, false, Await, 0, 0, 0, [], [])
  }

  predicate ClientGone(s: Session) { s.client == Ended || s.client == Aborted }
  predicate Over(s: Session) { ClientGone(s) && s.server.Done? }

  const CLOSE := Message(ConnectionClose, [], 0)
  const ACK: seq<byte> := [65, 67, 75]
  const CHUNK_ACK: seq<byte> := [67, 72, 85, 78, 75, 95, 65, 67, 75]

  /** A chunk of the drawn size, or of what is left if that is less. */
  predicate Cut(drawn: nat, left: nat, size: nat) {
    size == if drawn <= left then drawn else left
  }

  ghost predicate Drawable(lo: nat, hi: nat, left: nat, size: nat) {
    exists r: nat :: lo <= r <= hi && Cut(r, left, size)
  }

  /** A size within the range, or all that is left if that is less. */
  predicate SizeFits(n: nat, lo: nat, hi: nat, left: int) { n <= left && n <= hi && (n == left || lo <= n) }

  /** What the server takes a request's payload to say. */
  function RequestedSize(payload: seq<byte>): nat {
    if |payload| >= 8 then FromLe(payload[0..8]) else DEFAULT_SIZE
  }

  // ------------------------------------------------------------------ client steps

  /** The opening message. */
  ghost predicate ClientOpen(c: Config, s: Session, s': Session, hello: seq<byte>) {
    && s.client == Start
    && match c.activity
       case Upload(size, _, _) =>
         s' == s.(client := AwaitFirst, up := s.up + [Message(FileUploadRequest, ToLe(size, 8), 0)])
       case Download(size) =>
         s' == s.(client := if 0 < size then AwaitChunk else Closing,
                  up := s.up + [Message(FileDownloadRequest, ToLe(size, 8), 0)])
       case Page(_) =>
         400 <= |hello| <= 2000 && s' == s.(client := AwaitFirst, up := s.up + [Message(TlsHandshake, hello, 0)])
  }

  ghost predicate ClientFirstReply(s: Session, s': Session) {
    && s.client == AwaitFirst && s.down != []
    && s' == s.(client := Loop, down := s.down[1..])
  }

  /** The head of the upload's `while` or the page's `for`. */
  ghost predicate ClientLoop(c: Config, s: Session, s': Session, data: seq<byte>) {
    && s.client == Loop
    && match c.activity
       case Upload(size, lo, hi) =>
         if s.sent < size then
           && Drawable(lo, hi, size - s.sent, |data|)
           && s' == s.(client := AwaitReply(|data|), up := s.up + [Message(FileUploadChunk, data, s.sequence)])
         else s' == s.(client := Closing)
       case Page(requests) =>
         if s.sequence < requests then
           && 1024 <= |data| <= 4096
           && s' == s.(client := AwaitReply(|data|), up := s.up + [Message(HttpRequest, data, s.sequence)])
         else s' == s.(client := Closing)
       case Download(_) => false
  }

  /** A chunk's acknowledgement or a request's response; then the stop flag is looked at. */
  ghost predicate ClientReply(c: Config, s: Session, s': Session, stop: bool) {
    && s.client.AwaitReply? && s.down != []
    && s' == s.(client := if stop then Closing else Loop, stopped := s.stopped || stop, down := s.down[1..],
                sent := s.sent + s.client.size, sequence := s.sequence + 1)
  }

  ghost predicate ClientChunk(c: Config, s: Session, s': Session, stop: bool) {
    && s.client == AwaitChunk && s.down != [] && c.activity.Download?
    && var received := s.received + |s.down[0].payload|;
       s' == s.(client := if received >= c.activity.size || stop then Closing else AwaitChunk,
                received := received, down := s.down[1..],
                stopped := s.stopped || (stop && received < c.activity.size))
  }

  ghost predicate ClientClose(s: Session, s': Session) {
    && s.client == Closing
    && s' == s.(client := Ended, up := s.up + [CLOSE])
  }

  predicate ClientSends(s: Session) { s.client == Start || s.client == Loop || s.client == Closing }
  predicate ClientWaits(s: Session) { s.client == AwaitFirst || s.client.AwaitReply? || s.client == AwaitChunk }

  /** The server has gone: a send can fail, a receive meets the end of the stream or a reset. */
  ghost predicate ClientFail(s: Session, s': Session) {
    && s.server.Done?
    && (ClientSends(s) || (ClientWaits(s) && (s.down == [] || s.up != [])))
    && s' == s.(client := Aborted)
  }

  // ------------------------------------------------------------------ server steps

  /** The outer loop's receive, and `handle_message`. */
  ghost predicate ServerReceive(c: Config, s: Session, s': Session, response: seq<byte>) {
    && s.server == Await && s.up != []
    && var m := s.up[0];
       var t := s.(up := s.up[1..]);
       if |m.payload| > c.limit then s' == t.(server := Done(Failed))
       else
         match m.kind
         case TlsHandshake =>
           2000 <= |response| <= 4000 && s' == t.(server := Reply(Message(HttpResponse, response, 0)))
         case HttpRequest =>
           4096 <= |response| <= 32768 && s' == t.(server := Reply(Message(HttpResponse, response, m.sequence)))
         case FileDownloadRequest =>
           var size := RequestedSize(m.payload);
           s' == t.(server := if size == 0 then Await else Downloading(size), serverSent := 0, serverSequence := 0)
         case FileUploadRequest => s' == t.(server := FirstAck(RequestedSize(m.payload)))
         case FileUploadChunk => s' == t.(server := Reply(Message(HttpResponse, CHUNK_ACK, m.sequence)))
         case ConnectionClose => s' == t.(server := Done(ByClose))
         case _ => s' == t
  }

  ghost predicate ServerReply(s: Session, s': Session) {
    && s.server.Reply?
    && s' == s.(server := Await, down := s.down + [s.server.message])
  }

  /** The upload's first ACK; then `while bytes_received < expected_size`. */
  ghost predicate ServerFirstAck(s: Session, s': Session) {
    && s.server.FirstAck?
    && var expected := s.server.expected;
       s' == s.(server := if 0 < expected then Uploading(expected) else Await, serverReceived := 0,
                down := s.down + [Message(HttpResponse, ACK, 0)])
  }

  /** The inner loop's receive: anything but a chunk ends it. */
  ghost predicate ServerUpload(c: Config, s: Session, s': Session) {
    && s.server.Uploading? && s.up != []
    && var m := s.up[0];
       var t := s.(up := s.up[1..]);
       if |m.payload| > c.limit then s' == t.(server := Done(Failed))
       else if m.kind != FileUploadChunk then s' == t.(server := Await)
       else s' == t.(server := ChunkAck(s.server.expected, m.sequence), serverReceived := s.serverReceived + |m.payload|)
  }

  ghost predicate ServerChunkAck(s: Session, s': Session) {
    && s.server.ChunkAck?
    && var expected := s.server.expected;
       s' == s.(server := if s.serverReceived < expected then Uploading(expected) else Await,
                down := s.down + [Message(HttpResponse, CHUNK_ACK, s.server.sequence)])
  }

  ghost predicate ServerDownload(s: Session, s': Session, data: seq<byte>) {
    && s.server.Downloading? && s.serverSent < s.server.size
    && Drawable(4096, 65536, s.server.size - s.serverSent, |data|)
    && s' == s.(server := if s.serverSent + |data| < s.server.size then s.server else Await,
                serverSent := s.serverSent + |data|, serverSequence := s.serverSequence + 1,
                down := s.down + [Message(FileDownloadChunk, data, s.serverSequence)])
  }

  predicate ServerSends(s: Session) {
    s.server.Reply? || s.server.FirstAck? || s.server.ChunkAck? || s.server.Downloading?
  }
  predicate ServerWaits(s: Session) { s.server == Await || s.server.Uploading? }

  /** The client has gone and everything it sent has been read. */
  ghost predicate ServerEof(s: Session, s': Session) {
    && ClientGone(s) && ServerWaits(s) && s.up == []
    && s' == s.(server := Done(if s.server == Await then ByEof else Failed))
  }

  /** The client has gone: a send fails, or a receive meets a reset because bytes were left unread. */
  ghost predicate ServerFail(s: Session, s': Session) {
    && ClientGone(s) && (ServerSends(s) || (ServerWaits(s) && s.down != []))
    && s' == s.(server := Done(Failed))
  }

  ghost predicate ClientStep(c: Config, s: Session, s': Session) {
    || (exists d: seq<byte> :: ClientOpen(c, s, s', d))
    || ClientFirstReply(s, s')
    || (exists d: seq<byte> :: ClientLoop(c, s, s', d))
    || (exists stop: bool :: ClientReply(c, s, s', stop))
    || (exists stop: bool :: ClientChunk(c, s, s', stop))
    || ClientClose(s, s') || ClientFail(s, s')
  }

  ghost predicate ServerStep(c: Config, s: Session, s': Session) {
    || (exists d: seq<byte> :: ServerReceive(c, s, s', d))
    || ServerReply(s, s') || ServerFirstAck(s, s') || ServerUpload(c, s, s') || ServerChunkAck(s, s')
    || (exists d: seq<byte> :: ServerDownload(s, s', d))
    || ServerEof(s, s') || ServerFail(s, s')
  }

  ghost predicate Next(c: Config, s: Session, s': Session) {
    ClientStep(c, s, s') || ServerStep(c, s, s')
  }

  ghost predicate StepAt(c: Config, run: seq<Session>, i: nat)
    requires 0 < i < |run|
  {
    Next(c, run[i - 1], run[i])
  }

  ghost predicate IsRun(c: Config, run: seq<Session>) {
    && run != [] && Init(run[0])
    && forall i :: 0 < i < |run| ==> StepAt(c, run, i)
  }

  // ------------------------------------------------------------------ invariant

  predicate Quiet(s: Session) { s.up == [] && s.down == [] }

  ghost predicate Carries(queue: seq<Message>, kind: MessageType, size: nat, sequence: nat) {
    |queue| == 1 && queue[0].kind == kind && |queue[0].payload| == size && queue[0].sequence == sequence
  }

  /** The answer to a handshake or to a page's request. */
  predicate IsAnswer(m: Message, lo: nat, hi: nat, sequence: nat) {
    m.kind == HttpResponse && lo <= |m.payload| <= hi && m.sequence == sequence
  }

  predicate IsAck(m: Message, sequence: nat) { m == Message(HttpResponse, CHUNK_ACK, sequence) }

  /** Where the server stands between two chunks of an upload. */
  ghost predicate BetweenChunks(c: Config, s: Session) requires c.activity.Upload? {
    s.server == if s.serverReceived < c.activity.size then Uploading(c.activity.size) else Await
  }

  /** The range allows a chunk over the receiver's limit, and the file is large enough for one. */
  predicate Oversized(c: Config) requires c.activity.Upload? {
    c.activity.hi > c.limit && c.activity.size > c.limit
  }

  /** An upload goes back and forth: one message, or one answer, or the client's turn. */
  ghost predicate UploadInv(c: Config, s: Session) requires c.activity.Upload? {
    var size := c.activity.size;
    && s.sent <= size && (s.stopped ==> s.client == Closing || ClientGone(s))
    && match s.client
       case Start => s.server == Await && Quiet(s) && s.sent == s.sequence == s.serverReceived == 0
       case AwaitFirst =>
         && s.sent == s.sequence == s.serverReceived == 0
         && (|| (s.server == Await && s.up == [Message(FileUploadRequest, ToLe(size, 8), 0)] && s.down == [])
             || (s.server == FirstAck(size) && Quiet(s))
             || (BetweenChunks(c, s) && s.up == [] && s.down == [Message(HttpResponse, ACK, 0)]))
       case Loop => BetweenChunks(c, s) && Quiet(s) && s.serverReceived == s.sent
       case AwaitReply(n) =>
         && s.sent < size && s.sent + n <= size && n <= c.activity.hi
         && (n == size - s.sent || c.activity.lo <= n)
         && (|| (&& s.server == Uploading(size) && Carries(s.up, FileUploadChunk, n, s.sequence) && s.down == []
                 && s.serverReceived == s.sent)
             || (s.server == ChunkAck(size, s.sequence) && Quiet(s) && s.serverReceived == s.sent + n)
             || (&& BetweenChunks(c, s) && s.up == [] && |s.down| == 1 && IsAck(s.down[0], s.sequence)
                 && s.serverReceived == s.sent + n)
             || (s.server == Done(Failed) && n > c.limit && Quiet(s) && s.serverReceived == s.sent))
       case AwaitChunk => false
       case Closing => BetweenChunks(c, s) && Quiet(s) && s.serverReceived == s.sent && (s.stopped || s.sent == size)
       case Ended =>
         && s.serverReceived == s.sent && s.down == [] && (s.stopped || s.sent == size)
         && (|| (BetweenChunks(c, s) && s.up == [CLOSE])
             || (s.server == Await && s.up == [] && s.sent < size)
             || (s.server == Done(if s.sent < size then ByEof else ByClose) && s.up == []))
       case Aborted => s.server == Done(Failed) && Quiet(s) && s.serverReceived == s.sent < size && Oversized(c)
  }

  /** A page: the handshake and the requests, each followed by its response. */
  ghost predicate PageInv(c: Config, s: Session) requires c.activity.Page? {
    && s.sequence <= c.activity.requests && (s.stopped ==> s.client == Closing || ClientGone(s))
    && match s.client
       case Start => s.server == Await && Quiet(s) && s.sequence == 0
       case AwaitFirst =>
         && s.sequence == 0
         && (|| (s.server == Await && |s.up| == 1 && s.up[0].kind == TlsHandshake && 400 <= |s.up[0].payload| <= 2000 && s.down == [])
             || (s.server.Reply? && IsAnswer(s.server.message, 2000, 4000, 0) && Quiet(s))
             || (s.server == Await && s.up == [] && |s.down| == 1 && IsAnswer(s.down[0], 2000, 4000, 0)))
       case Loop => s.server == Await && Quiet(s)
       case AwaitReply(n) =>
         && s.sequence < c.activity.requests && 1024 <= n <= 4096
         && (|| (s.server == Await && Carries(s.up, HttpRequest, n, s.sequence) && s.down == [])
             || (s.server.Reply? && IsAnswer(s.server.message, 4096, 32768, s.sequence) && Quiet(s))
             || (s.server == Await && s.up == [] && |s.down| == 1 && IsAnswer(s.down[0], 4096, 32768, s.sequence)))
       case AwaitChunk => false
       case Closing => s.server == Await && Quiet(s) && (s.stopped || s.sequence == c.activity.requests)
       case Ended =>
         && s.down == [] && (s.stopped || s.sequence == c.activity.requests)
         && ((s.server == Await && s.up == [CLOSE]) || (s.server == Done(ByClose) && s.up == []))
       case Aborted => false
  }

  function PayloadBytes(ms: seq<Message>): nat {
    if ms == [] then 0 else |ms[0].payload| + PayloadBytes(ms[1..])
  }

  /** Chunks in flight: numbered up to `next`, none empty, none above 65536 bytes. */
  ghost predicate Chunks(ms: seq<Message>, next: nat) {
    && |ms| <= next
    && forall i :: 0 <= i < |ms| ==>
         && ms[i].kind == FileDownloadChunk && 1 <= |ms[i].payload| <= 65536
         && ms[i].sequence == next - |ms| + i
  }

  /** None is below 4096 bytes but the one that completes the file. */
  ghost predicate FullChunks(ms: seq<Message>, complete: bool) {
    forall i :: 0 <= i < |ms| ==> |ms[i].payload| >= 4096 || (complete && i == |ms| - 1)
  }

  /** How far the server has come with the request, and what waits for it behind the request. */
  ghost predicate DownloadServer(c: Config, s: Session, behind: seq<Message>) requires c.activity.Download? {
    var size := c.activity.size;
    || (s.server == Await && s.up == [Message(FileDownloadRequest, ToLe(size, 8), 0)] + behind && s.serverSent == 0 && s.down == [])
    || (s.server == Downloading(size) && s.up == behind && s.serverSent < size)
    || (s.server == Await && s.up == behind && s.serverSent == size)
  }

  /** A download: what was received, what is in flight and what is still to be sent add up to the file. */
  ghost predicate DownloadInv(c: Config, s: Session) requires c.activity.Download? {
    var size := c.activity.size;
    && s.serverSent <= size
    && s.received + PayloadBytes(s.down) == s.serverSent
    && Chunks(s.down, s.serverSequence) && FullChunks(s.down, s.serverSent == size)
    && (s.stopped ==> s.client == Closing || ClientGone(s))
    && match s.client
       case Start => s.server == Await && Quiet(s) && s.serverSent == s.serverSequence == 0
       case AwaitChunk => s.received < size && DownloadServer(c, s, [])
       case Closing => DownloadServer(c, s, []) && (s.stopped || s.received == size)
       case Ended =>
         && (s.stopped || s.received == size)
         && (DownloadServer(c, s, [CLOSE]) || (s.server == Done(ByClose) && s.serverSent == size)
             || (s.server == Done(Failed) && s.stopped))
       case _ => false
  }

  ghost predicate Inv(c: Config, s: Session) {
    match c.activity
    case Upload(_, _, _) => UploadInv(c, s)
    case Download(_) => DownloadInv(c, s)
    case Page(_) => PageInv(c, s)
  }

  // ------------------------------------------------------------------ preservation

  /** The size is read as it was written, whatever follows it; of a payload too short for one it is 1 MiB. */
  lemma SizeIsUnderstood(size: u64, more: seq<byte>)
    ensures RequestedSize(ToLe(size, 8)) == RequestedSize(ToLe(size, 8) + more) == size
    ensures |more| < 8 ==> RequestedSize(more) == 1024 * 1024
  {
    U64RoundTrip(size);
    assert ToLe(size, 8)[0..8] == ToLe(size, 8);
  }

  lemma UploadOpens(c: Config, s: Session, s': Session, d: seq<byte>)
    requires c.activity.Upload? && UploadInv(c, s)
    requires ClientOpen(c, s, s', d) || ClientFirstReply(s, s') || ClientClose(s, s') || ClientFail(s, s')
    ensures UploadInv(c, s')
  {
  }

  lemma UploadTurns(c: Config, s: Session, s': Session, d: seq<byte>, stop: bool)
    requires c.activity.Upload? && UploadInv(c, s)
    requires ClientLoop(c, s, s', d) || ClientReply(c, s, s', stop) || ClientChunk(c, s, s', stop)
    ensures UploadInv(c, s')
  {
  }

  lemma UploadClient(c: Config, s: Session, s': Session)
    requires c.activity.Upload? && UploadInv(c, s) && ClientStep(c, s, s')
    ensures UploadInv(c, s')
  {
    hide UploadInv;
    if d: seq<byte> :| ClientOpen(c, s, s', d) {
      UploadOpens(c, s, s', d);
    } else if d: seq<byte> :| ClientLoop(c, s, s', d) {
      UploadTurns(c, s, s', d, false);
    } else if stop: bool :| ClientReply(c, s, s', stop) {
      UploadTurns(c, s, s', [], stop);
    } else if stop: bool :| ClientChunk(c, s, s', stop) {
      UploadTurns(c, s, s', [], stop);
    } else {
      UploadOpens(c, s, s', []);
    }
  }

  lemma UploadReceived(c: Config, s: Session, s': Session, d: seq<byte>)
    requires c.Valid() && c.activity.Upload? && UploadInv(c, s)
    requires ServerReceive(c, s, s', d)
    ensures UploadInv(c, s')
  {
    SizeIsUnderstood(c.activity.size, []);
  }

  lemma UploadInner(c: Config, s: Session, s': Session, d: seq<byte>)
    requires c.Valid() && c.activity.Upload? && UploadInv(c, s)
    requires ServerUpload(c, s, s') || ServerChunkAck(s, s')
    ensures UploadInv(c, s')
  {
  }

  lemma UploadOther(c: Config, s: Session, s': Session, d: seq<byte>)
    requires c.Valid() && c.activity.Upload? && UploadInv(c, s)
    requires || ServerReply(s, s') || ServerFirstAck(s, s') || ServerDownload(s, s', d)
             || ServerEof(s, s') || ServerFail(s, s')
    ensures UploadInv(c, s')
  {
  }

  lemma UploadServer(c: Config, s: Session, s': Session)
    requires c.Valid() && c.activity.Upload? && UploadInv(c, s) && ServerStep(c, s, s')
    ensures UploadInv(c, s')
  {
    hide UploadInv;
    if d: seq<byte> :| ServerReceive(c, s, s', d) {
      UploadReceived(c, s, s', d);
    } else if d: seq<byte> :| ServerDownload(s, s', d) {
      UploadOther(c, s, s', d);
    } else if ServerUpload(c, s, s') || ServerChunkAck(s, s') {
      UploadInner(c, s, s', []);
    } else {
      UploadOther(c, s, s', []);
    }
  }

  lemma PageClient(c: Config, s: Session, s': Session)
    requires c.Valid() && c.activity.Page? && PageInv(c, s) && ClientStep(c, s, s')
    ensures PageInv(c, s')
  {
  }

  lemma PageServer(c: Config, s: Session, s': Session)
    requires c.Valid() && c.activity.Page? && PageInv(c, s) && ServerStep(c, s, s')
    ensures PageInv(c, s')
  {
  }

  lemma {:induction false} PayloadSnoc(ms: seq<Message>, m: Message)
    ensures PayloadBytes(ms + [m]) == PayloadBytes(ms) + |m.payload|
  {
    if ms == [] {
      assert ms + [m] == [m];
    } else {
      assert (ms + [m])[1..] == ms[1..] + [m];
      PayloadSnoc(ms[1..], m);
    }
  }

  lemma ChunkTaken(ms: seq<Message>, next: nat)
    requires ms != [] && Chunks(ms, next)
    ensures Chunks(ms[1..], next)
  {
  }

  lemma ChunkAdded(ms: seq<Message>, next: nat, data: seq<byte>)
    requires Chunks(ms, next) && 1 <= |data| <= 65536
    ensures Chunks(ms + [Message(FileDownloadChunk, data, next)], next + 1)
    ensures PayloadBytes(ms + [Message(FileDownloadChunk, data, next)]) == PayloadBytes(ms) + |data|
  {
    PayloadSnoc(ms, Message(FileDownloadChunk, data, next));
  }

  lemma DownloadOpens(c: Config, s: Session, s': Session, d: seq<byte>)
    requires c.activity.Download? && DownloadInv(c, s)
    requires ClientOpen(c, s, s', d) || ClientFirstReply(s, s') || ClientLoop(c, s, s', d)
    ensures DownloadInv(c, s')
  {
  }

  lemma DownloadTakes(c: Config, s: Session, s': Session, stop: bool)
    requires c.activity.Download? && DownloadInv(c, s)
    requires ClientReply(c, s, s', stop) || ClientChunk(c, s, s', stop)
    ensures DownloadInv(c, s')
  {
    if s.down != [] {
      ChunkTaken(s.down, s.serverSequence);
    }
  }

  lemma DownloadCloses(c: Config, s: Session, s': Session)
    requires c.activity.Download? && DownloadInv(c, s)
    requires ClientClose(s, s') || ClientFail(s, s')
    ensures DownloadInv(c, s')
  {
    assert s.up + [CLOSE] == if s.up == [] then [CLOSE] else [s.up[0]] + (s.up[1..] + [CLOSE]);
  }

  lemma DownloadClient(c: Config, s: Session, s': Session)
    requires c.activity.Download? && DownloadInv(c, s) && ClientStep(c, s, s')
    ensures DownloadInv(c, s')
  {
    hide DownloadInv;
    if d: seq<byte> :| ClientOpen(c, s, s', d) || ClientLoop(c, s, s', d) {
      DownloadOpens(c, s, s', d);
    } else if ClientFirstReply(s, s') {
      DownloadOpens(c, s, s', []);
    } else if stop: bool :| ClientReply(c, s, s', stop) || ClientChunk(c, s, s', stop) {
      DownloadTakes(c, s, s', stop);
    } else {
      DownloadCloses(c, s, s');
    }
  }

  lemma DownloadReceived(c: Config, s: Session, s': Session, d: seq<byte>)
    requires c.Valid() && c.activity.Download? && DownloadInv(c, s)
    requires ServerReceive(c, s, s', d)
    ensures DownloadInv(c, s')
  {
    SizeIsUnderstood(c.activity.size, []);
  }

  lemma DownloadSends(c: Config, s: Session, s': Session, d: seq<byte>)
    requires c.Valid() && c.activity.Download? && DownloadInv(c, s)
    requires ServerDownload(s, s', d)
    ensures DownloadInv(c, s')
  {
    ChunkAdded(s.down, s.serverSequence, d);
  }

  lemma DownloadOther(c: Config, s: Session, s': Session)
    requires c.Valid() && c.activity.Download? && DownloadInv(c, s)
    requires || ServerReply(s, s') || ServerFirstAck(s, s') || ServerUpload(c, s, s') || ServerChunkAck(s, s')
             || ServerEof(s, s') || ServerFail(s, s')
    ensures DownloadInv(c, s')
  {
  }

  lemma DownloadServes(c: Config, s: Session, s': Session)
    requires c.Valid() && c.activity.Download? && DownloadInv(c, s) && ServerStep(c, s, s')
    ensures DownloadInv(c, s')
  {
    hide DownloadInv;
    if d: seq<byte> :| ServerReceive(c, s, s', d) {
      DownloadReceived(c, s, s', d);
    } else if d: seq<byte> :| ServerDownload(s, s', d) {
      DownloadSends(c, s, s', d);
    } else {
      DownloadOther(c, s, s');
    }
  }

  lemma NextKeeps(c: Config, s: Session, s': Session)
    requires c.Valid() && Inv(c, s) && Next(c, s, s')
    ensures Inv(c, s')
  {
    hide UploadInv, DownloadInv, PageInv, ClientStep, ServerStep;
    if ClientStep(c, s, s') {
      match c.activity
      case Upload(_, _, _) => UploadClient(c, s, s');
      case Download(_) => DownloadClient(c, s, s');
      case Page(_) => PageClient(c, s, s');
    } else {
      match c.activity
      case Upload(_, _, _) => UploadServer(c, s, s');
      case Download(_) => DownloadServes(c, s, s');
      case Page(_) => PageServer(c, s, s');
    }
  }

  lemma {:induction false} RunInv(c: Config, run: seq<Session>, i: nat)
    requires c.Valid() && IsRun(c, run) && i < |run|
    ensures Inv(c, run[i])
  {
    if i > 0 {
      hide Inv, Next;
      RunInv(c, run, i - 1);
      assert StepAt(c, run, i);
      NextKeeps(c, run[i - 1], run[i]);
    }
  }
}
