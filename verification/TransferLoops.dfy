/**
 The transfer loops as the two sides run them, each over a connection whose inbox is all that the other side ever sends:
 the server's handler and its upload and download loops, and the client's three loops.  Writes succeed here; a side that
 goes away early is the business of the session machine.
 */
module TransferLoops {
  import opened Basics
  import opened Bytes
  import opened Transfer

  // ------------------------------------------------------------------ the connection

  datatype Received = Got(message: Message) | Failure

  class Connection {
    var inbox: seq<Message>
    var outbox: seq<Message>

    constructor (inbox: seq<Message>)
      ensures this.inbox == inbox && outbox == []
    {
      this.inbox := inbox;
      outbox := [];
    }

    method Send(m: Message)
      modifies this`outbox
      ensures outbox == old(outbox) + [m]
    {
      outbox := outbox + [m];
    }

    /** The next message; or the end of the stream, or a length over the limit. */
    method Receive(limit: nat) returns (r: Received)
      modifies this`inbox
      ensures Readable(old(inbox), limit) ==> r == Got(old(inbox)[0]) && inbox == old(inbox)[1..]
      ensures !Readable(old(inbox), limit) ==> r == Failure && inbox == old(inbox)
    {
      if inbox == [] || |inbox[0].payload| > limit {
        return Failure;
      }
      r := Got(inbox[0]);
      inbox := inbox[1..];
    }
  }

  predicate Readable(inbox: seq<Message>, limit: nat) { inbox != [] && |inbox[0].payload| <= limit }

  // ------------------------------------------------------------------ random sizes

  /** `gen_range(lo..=hi)`, from a random word. */
  function InRange(word: nat, lo: nat, hi: nat): (n: nat)
    requires lo <= hi
    ensures lo <= n <= hi
  {
    lo + word % (hi - lo + 1)
  }

  /** Every size of the range is drawn from some word. */
  lemma AllInRange(lo: nat, hi: nat, n: nat)
    requires lo <= n <= hi
    ensures InRange(n - lo, lo, hi) == n
  {
    assert (n - lo) % (hi - lo + 1) == n - lo;
  }

  lemma TakeBytes(ms: seq<Message>, k: nat)
    requires 0 < k <= |ms|
    ensures PayloadBytes(ms[..k]) == |ms[0].payload| + PayloadBytes(ms[1..][..k - 1])
  {
    assert ms[..k][1..] == ms[1..][..k - 1];
  }

  // ------------------------------------------------------------------ the server's upload loop

  function AckOf(m: Message): Message { Message(HttpResponse, CHUNK_ACK, m.sequence) }

  datatype Served = Served(acks: seq<Message>, received: nat, left: seq<Message>, ok: bool)

  /** What comes of the loop when `got` bytes are in. */
  function ServeUpload(inbox: seq<Message>, expected: nat, got: nat, limit: nat): Served {
    if got >= expected then Served([], got, inbox, true)
    else if !Readable(inbox, limit) then Served([], got, inbox, false)
    else if inbox[0].kind != FileUploadChunk then Served([], got, inbox[1..], true)
    else
      var rest := ServeUpload(inbox[1..], expected, got + |inbox[0].payload|, limit);
      rest.(acks := [AckOf(inbox[0])] + rest.acks)
  }

  lemma ServeStep(inbox: seq<Message>, expected: nat, got: nat, limit: nat)
    requires got < expected
    ensures !Readable(inbox, limit) ==> ServeUpload(inbox, expected, got, limit) == Served([], got, inbox, false)
    ensures Readable(inbox, limit) && inbox[0].kind != FileUploadChunk ==>
              ServeUpload(inbox, expected, got, limit) == Served([], got, inbox[1..], true)
    ensures Readable(inbox, limit) && inbox[0].kind == FileUploadChunk ==>
              var rest := ServeUpload(inbox[1..], expected, got + |inbox[0].payload|, limit);
              ServeUpload(inbox, expected, got, limit) == rest.(acks := [AckOf(inbox[0])] + rest.acks)
  {
  }

  lemma ServeDone(inbox: seq<Message>, expected: nat, got: nat, limit: nat)
    requires got >= expected
    ensures ServeUpload(inbox, expected, got, limit) == Served([], got, inbox, true)
  {
  }

  /** The `k`th message of the inbox is a chunk that can be read while the upload is not complete. */
  ghost predicate Wanted(inbox: seq<Message>, expected: nat, got: nat, limit: nat, k: nat) {
    && k < |inbox| && inbox[k].kind == FileUploadChunk && |inbox[k].payload| <= limit
    && got + PayloadBytes(inbox[..k]) < expected
  }

  /** Of the inbox the chunks at the front are taken, up to the one that makes the upload complete, and each is acknowledged with
      its own sequence.  If that one does not come, the loop ends in front of a message that cannot be read, with a
      failure, or behind one that is no chunk. */
  ghost predicate ServesUpload(inbox: seq<Message>, expected: nat, got: nat, limit: nat, s: Served) {
    var n := |s.acks|;
    && n <= |inbox| && (forall k | 0 <= k < n :: Wanted(inbox, expected, got, limit, k))
    && (forall k | 0 <= k < n :: s.acks[k] == Message(HttpResponse, CHUNK_ACK, inbox[k].sequence))
    && s.received == got + PayloadBytes(inbox[..n])
    && if s.received >= expected then s.ok && s.left == inbox[n..]
       else if n == |inbox| || |inbox[n].payload| > limit then !s.ok && s.left == inbox[n..]
       else s.ok && inbox[n].kind != FileUploadChunk && s.left == inbox[n + 1..]
  }

  lemma ServesOneMore(inbox: seq<Message>, expected: nat, got: nat, limit: nat, rest: Served)
    requires Wanted(inbox, expected, got, limit, 0)
    requires ServesUpload(inbox[1..], expected, got + |inbox[0].payload|, limit, rest)
    ensures ServesUpload(inbox, expected, got, limit, rest.(acks := [AckOf(inbox[0])] + rest.acks))
  {
    var n := |rest.acks| + 1;
    TakeBytes(inbox, n);
    forall k | 0 <= k < n ensures Wanted(inbox, expected, got, limit, k) {
      if k > 0 {
        assert Wanted(inbox[1..], expected, got + |inbox[0].payload|, limit, k - 1);
        TakeBytes(inbox, k);
      }
    }
  }

  lemma {:induction false} UploadIsServed(inbox: seq<Message>, expected: nat, got: nat, limit: nat)
    ensures ServesUpload(inbox, expected, got, limit, ServeUpload(inbox, expected, got, limit))
    decreases |inbox|
  {
    if got < expected && Readable(inbox, limit) && inbox[0].kind == FileUploadChunk {
      UploadIsServed(inbox[1..], expected, got + |inbox[0].payload|, limit);
      hide ServesUpload;
      ServesOneMore(inbox, expected, got, limit, ServeUpload(inbox[1..], expected, got + |inbox[0].payload|, limit));
    }
  }

  method HandleFileUpload(c: Connection, expected: nat, limit: nat) returns (received: nat, ok: bool)
    modifies c
    ensures var s := ServeUpload(old(c.inbox), expected, 0, limit);
            c.outbox == old(c.outbox) + s.acks && c.inbox == s.left && received == s.received && ok == s.ok
    ensures exists s: Served ::
              && ServesUpload(old(c.inbox), expected, 0, limit, s)
              && c.outbox == old(c.outbox) + s.acks && c.inbox == s.left && received == s.received && ok == s.ok
  {
    hide ServeUpload, AckOf, ServesUpload;
    UploadIsServed(c.inbox, expected, 0, limit);
    received := 0;
    ghost var all := ServeUpload(c.inbox, expected, 0, limit);
    while received < expected
      invariant var s := ServeUpload(c.inbox, expected, received, limit);
                all == s.(acks := all.acks) && c.outbox + s.acks == old(c.outbox) + all.acks
      decreases |c.inbox|
    {
      ghost var inbox, outbox := c.inbox, c.outbox;
      ServeStep(inbox, expected, received, limit);
      var r := c.Receive(limit);
      if r.Failure? {
        return received, false;
      }
      if r.message.kind != FileUploadChunk {
        return received, true;
      }
      received := received + |r.message.payload|;
      c.Send(AckOf(r.message));
      Associate(outbox, [AckOf(r.message)], ServeUpload(c.inbox, expected, received, limit).acks);
      if received >= expected {
        break;
      }
    }
    ServeDone(c.inbox, expected, received, limit);
    ok := true;
  }

  // ------------------------------------------------------------------ the server's download loop

  function ChunkSize(draw: nat -> nat, i: nat, left: nat): (n: nat)
    requires left > 0
    ensures 1 <= n && SizeFits(n, 4096, 65536, left)
  {
    Min(InRange(draw(i), 4096, 65536), left)
  }

  /** The chunks from the `n`th on, `sent` bytes being out. */
  function ChunksFrom(size: nat, sent: nat, n: nat, draw: nat -> nat): seq<Message>
    decreases size - sent
  {
    if sent >= size then []
    else
      var k := ChunkSize(draw, n, size - sent);
      [Message(FileDownloadChunk, Zeros(k), n)] + ChunksFrom(size, sent + k, n + 1, draw)
  }

  method HandleFileDownload(c: Connection, size: nat, draw: nat -> nat)
    modifies c`outbox
    ensures c.outbox == old(c.outbox) + ChunksFrom(size, 0, 0, draw)
    ensures exists chunks :: AddUp(chunks, size, 0, 0) && c.outbox == old(c.outbox) + chunks
  {
    hide ChunksFrom, AddUp;
    ChunksAddUp(size, 0, 0, draw);
    var sent, sequence := 0, 0;
    while sent < size
      invariant sent <= size
      invariant c.outbox + ChunksFrom(size, sent, sequence, draw) == old(c.outbox) + ChunksFrom(size, 0, 0, draw)
    {
      ghost var outbox := c.outbox;
      ChunksStep(size, sent, sequence, draw);
      var k := ChunkSize(draw, sequence, size - sent);
      var m := Message(FileDownloadChunk, Zeros(k), sequence);
      c.Send(m);
      Associate(outbox, [m], ChunksFrom(size, sent + k, sequence + 1, draw));
      sent := sent + k;
      sequence := sequence + 1;
    }
    ChunksStep(size, sent, sequence, draw);
  }

  lemma ChunksStep(size: nat, sent: nat, n: nat, draw: nat -> nat)
    ensures sent >= size ==> ChunksFrom(size, sent, n, draw) == []
    ensures sent < size ==>
              var k := ChunkSize(draw, n, size - sent);
              ChunksFrom(size, sent, n, draw)
              == [Message(FileDownloadChunk, Zeros(k), n)] + ChunksFrom(size, sent + k, n + 1, draw)
  {
  }

  /** A chunk of a download: not empty, of 4 to 64 KiB or what is left behind `before` bytes if that is less. */
  ghost predicate ChunkAt(m: Message, size: nat, before: nat, n: nat) {
    && before < size && m.kind == FileDownloadChunk && m.sequence == n && m.payload != []
    && SizeFits(|m.payload|, 4096, 65536, size - before)
  }

  /** The chunks are numbered in order, each of a fitting size, and come to exactly the size asked for. */
  ghost predicate AddUp(ms: seq<Message>, size: nat, sent: nat, n: nat) {
    && PayloadBytes(ms) == size - sent
    && forall k | 0 <= k < |ms| :: ChunkAt(ms[k], size, sent + PayloadBytes(ms[..k]), n + k)
  }

  lemma AddUpOneMore(m: Message, ms: seq<Message>, size: nat, sent: nat, n: nat)
    requires ChunkAt(m, size, sent, n) && AddUp(ms, size, sent + |m.payload|, n + 1)
    ensures AddUp([m] + ms, size, sent, n)
  {
    var all := [m] + ms;
    assert all[1..] == ms;
    forall k | 0 <= k < |all| ensures ChunkAt(all[k], size, sent + PayloadBytes(all[..k]), n + k) {
      if k > 0 {
        TakeBytes(all, k);
        assert ChunkAt(ms[k - 1], size, sent + |m.payload| + PayloadBytes(ms[..k - 1]), n + 1 + (k - 1));
      }
    }
  }

  lemma NothingAddsUp(size: nat, n: nat)
    ensures AddUp([], size, size, n)
  {
  }

  lemma {:induction false} ChunksAddUp(size: nat, sent: nat, n: nat, draw: nat -> nat)
    requires sent <= size
    ensures AddUp(ChunksFrom(size, sent, n, draw), size, sent, n)
    decreases size - sent
  {
    hide AddUp, ChunksFrom;
    ChunksStep(size, sent, n, draw);
    if sent == size {
      NothingAddsUp(size, n);
    } else {
      var k := ChunkSize(draw, n, size - sent);
      ChunksAddUp(size, sent + k, n + 1, draw);
      AddUpOneMore(Message(FileDownloadChunk, Zeros(k), n), ChunksFrom(size, sent + k, n + 1, draw), size, sent, n);
    }
  }

  // ------------------------------------------------------------------ the server's outer loop

  datatype Reaction = Reaction(out: seq<Message>, left: seq<Message>, goesOn: bool, ok: bool)

  /** `handle_message`, with what is left in the inbox behind the message. */
  function React(m: Message, left: seq<Message>, limit: nat, draw: nat -> nat): Reaction {
    match m.kind
    case TlsHandshake => Reaction([Message(HttpResponse, Zeros(InRange(draw(0), 2000, 4000)), 0)], left, true, true)
    case HttpRequest =>
      Reaction([Message(HttpResponse, Zeros(InRange(draw(0), 4096, 32768)), m.sequence)], left, true, true)
    case FileDownloadRequest => Reaction(ChunksFrom(RequestedSize(m.payload), 0, 0, draw), left, true, true)
    case FileUploadRequest =>
      var s := ServeUpload(left, RequestedSize(m.payload), 0, limit);
      Reaction([Message(HttpResponse, ACK, 0)] + s.acks, s.left, true, s.ok)
    case FileUploadChunk => Reaction([AckOf(m)], left, true, true)
    case ConnectionClose => Reaction([], left, false, true)
    case _ => Reaction([], left, true, true)
  }

  /** What is sent in answer to a message, what is left of the inbox behind it, and whether the connection goes on. */
  ghost predicate Answers(m: Message, left: seq<Message>, limit: nat, r: Reaction) {
    match m.kind
    case TlsHandshake => |r.out| == 1 && IsAnswer(r.out[0], 2000, 4000, 0) && r.left == left && r.goesOn && r.ok
    case HttpRequest => |r.out| == 1 && IsAnswer(r.out[0], 4096, 32768, m.sequence) && r.left == left && r.goesOn && r.ok
    case FileDownloadRequest => AddUp(r.out, RequestedSize(m.payload), 0, 0) && r.left == left && r.goesOn && r.ok
    case FileUploadRequest =>
      && |r.out| > 0 && r.out[0] == Message(HttpResponse, ACK, 0)
      && exists s: Served ::
           ServesUpload(left, RequestedSize(m.payload), 0, limit, s)
           && r.out[1..] == s.acks && r.left == s.left && r.ok == s.ok && r.goesOn
    case FileUploadChunk => r.out == [Message(HttpResponse, CHUNK_ACK, m.sequence)] && r.left == left && r.goesOn && r.ok
    case ConnectionClose => r.out == [] && r.left == left && !r.goesOn && r.ok
    case HttpResponse => r.out == [] && r.left == left && r.goesOn && r.ok
    case FileDownloadChunk => r.out == [] && r.left == left && r.goesOn && r.ok
    case Unexpected => r.out == [] && r.left == left && r.goesOn && r.ok
  }

  lemma ReactionAnswers(m: Message, left: seq<Message>, limit: nat, draw: nat -> nat)
    ensures Answers(m, left, limit, React(m, left, limit, draw))
  {
    hide ServesUpload, AddUp, ChunksFrom, ServeUpload;
    if m.kind == FileDownloadRequest {
      ChunksAddUp(RequestedSize(m.payload), 0, 0, draw);
    } else if m.kind == FileUploadRequest {
      UploadIsServed(left, RequestedSize(m.payload), 0, limit);
      var s := ServeUpload(left, RequestedSize(m.payload), 0, limit);
      assert ([Message(HttpResponse, ACK, 0)] + s.acks)[1..] == s.acks;
    }
  }

  method HandleMessage(c: Connection, m: Message, limit: nat, draw: nat -> nat) returns (goesOn: bool, ok: bool)
    modifies c
    ensures var r := React(m, old(c.inbox), limit, draw);
            c.outbox == old(c.outbox) + r.out && c.inbox == r.left && goesOn == r.goesOn && ok == r.ok
    ensures exists out ::
              Answers(m, old(c.inbox), limit, Reaction(out, c.inbox, goesOn, ok)) && c.outbox == old(c.outbox) + out
  {
    hide Answers, ServesUpload, AddUp;
    ReactionAnswers(m, c.inbox, limit, draw);
    goesOn, ok := true, true;
    match m.kind
    case TlsHandshake => c.Send(Message(HttpResponse, Zeros(InRange(draw(0), 2000, 4000)), 0));
    case HttpRequest => c.Send(Message(HttpResponse, Zeros(InRange(draw(0), 4096, 32768)), m.sequence));
    case FileDownloadRequest => HandleFileDownload(c, RequestedSize(m.payload), draw);
    case FileUploadRequest => {
      c.Send(Message(HttpResponse, ACK, 0));
      var received;
      received, ok := HandleFileUpload(c, RequestedSize(m.payload), limit);
    }
    case FileUploadChunk => c.Send(AckOf(m));
    case ConnectionClose => goesOn := false;
    case _ =>
  }

  lemma {:induction false} UploadLeaves(inbox: seq<Message>, expected: nat, got: nat, limit: nat)
    ensures |ServeUpload(inbox, expected, got, limit).left| <= |inbox|
    decreases |inbox|
  {
    if got < expected && Readable(inbox, limit) && inbox[0].kind == FileUploadChunk {
      UploadLeaves(inbox[1..], expected, got + |inbox[0].payload|, limit);
    }
  }

  datatype Conversation = Conversation(out: seq<Message>, how: Ending)

  /** The whole connection, from the server's side; `draws(i)` are the random words for the `i`th message handled. */
  function Converse(inbox: seq<Message>, limit: nat, draws: nat -> nat -> nat, i: nat): Conversation
    decreases |inbox|
  {
    if inbox == [] then Conversation([], ByEof)
    else if !Readable(inbox, limit) then Conversation([], Failed)
    else
      var r := React(inbox[0], inbox[1..], limit, draws(i));
      if !r.ok then Conversation(r.out, Failed)
      else if !r.goesOn then Conversation(r.out, ByClose)
      else
        UploadLeaves(inbox[1..], RequestedSize(inbox[0].payload), 0, limit);
        var rest := Converse(r.left, limit, draws, i + 1);
        rest.(out := r.out + rest.out)
  }

  lemma ConverseStep(inbox: seq<Message>, limit: nat, draws: nat -> nat -> nat, i: nat)
    ensures !Readable(inbox, limit) ==>
              Converse(inbox, limit, draws, i) == Conversation([], if inbox == [] then ByEof else Failed)
    ensures Readable(inbox, limit) ==>
              var r := React(inbox[0], inbox[1..], limit, draws(i));
              && |r.left| < |inbox|
              && (!r.ok ==> Converse(inbox, limit, draws, i) == Conversation(r.out, Failed))
              && (r.ok && !r.goesOn ==> Converse(inbox, limit, draws, i) == Conversation(r.out, ByClose))
              && (r.ok && r.goesOn ==>
                    var rest := Converse(r.left, limit, draws, i + 1);
                    Converse(inbox, limit, draws, i) == rest.(out := r.out + rest.out))
  {
    if Readable(inbox, limit) {
      UploadLeaves(inbox[1..], RequestedSize(inbox[0].payload), 0, limit);
    }
    hide ServeUpload, ChunksFrom;
  }

  /** A connection, message by message: it ends with the stream, at a message that cannot be read, at an upload that fails, or at a
      close; and otherwise, the message answered, it goes on with what is left. */
  ghost predicate Talks(inbox: seq<Message>, limit: nat, r: Reaction, rest: Conversation, all: Conversation) {
    if inbox == [] then all == Conversation([], ByEof)
    else if |inbox[0].payload| > limit then all == Conversation([], Failed)
    else
      && Answers(inbox[0], inbox[1..], limit, r)
      && if !r.ok then all == Conversation(r.out, Failed)
         else if inbox[0].kind == ConnectionClose then all == Conversation([], ByClose)
         else all == Conversation(r.out + rest.out, rest.how)
  }

  lemma ConnectionTalks(inbox: seq<Message>, limit: nat, draws: nat -> nat -> nat, i: nat) returns (r: Reaction)
    ensures Talks(inbox, limit, r, Converse(r.left, limit, draws, i + 1), Converse(inbox, limit, draws, i))
    ensures Readable(inbox, limit) ==> |r.left| < |inbox|
  {
    hide Converse, React, ServesUpload, AddUp;
    ConverseStep(inbox, limit, draws, i);
    r := Reaction([], [], true, true);
    if Readable(inbox, limit) {
      r := React(inbox[0], inbox[1..], limit, draws(i));
      ReactionAnswers(inbox[0], inbox[1..], limit, draws(i));
    }
  }

  method HandleConnection(c: Connection, limit: nat, draws: nat -> nat -> nat) returns (how: Ending)
    modifies c
    ensures var v := Converse(old(c.inbox), limit, draws, 0); c.outbox == old(c.outbox) + v.out && how == v.how
  {
    hide Converse, React;
    ghost var all := Converse(c.inbox, limit, draws, 0);
    var i := 0;
    while true
      invariant var v := Converse(c.inbox, limit, draws, i); all.how == v.how && c.outbox + v.out == old(c.outbox) + all.out
      decreases |c.inbox|
    {
      ghost var inbox, outbox := c.inbox, c.outbox;
      ConverseStep(inbox, limit, draws, i);
      var ended := c.inbox == [];
      var r := c.Receive(limit);
      if r.Failure? {
        return if ended then ByEof else Failed;
      }
      ghost var reaction := React(r.message, c.inbox, limit, draws(i));
      var goesOn, ok := HandleMessage(c, r.message, limit, draws(i));
      if !ok {
        return Failed;
      }
      if !goesOn {
        return ByClose;
      }
      i := i + 1;
      Associate(outbox, reaction.out, Converse(c.inbox, limit, draws, i).out);
    }
  }

  // ------------------------------------------------------------------ the client's upload

  datatype ClientRun = ClientRun(out: seq<Message>, left: seq<Message>, total: nat, ok: bool)

  /** What the client draws and sees: sizes from `lo` to `hi`, and whether it is told to stop after the `n`th chunk. */
  datatype Plan = Plan(size: u64, lo: nat, hi: nat, draw: nat -> nat, stop: nat -> bool) {
    ghost predicate Valid() { lo <= hi }
  }

  function UploadSize(p: Plan, n: nat, sent: nat): (k: nat)
    requires p.Valid() && sent < p.size
    ensures SizeFits(k, p.lo, p.hi, p.size - sent)
  {
    Min(InRange(p.draw(n), p.lo, p.hi), p.size - sent)
  }

  function UploadFrom(p: Plan, inbox: seq<Message>, sent: nat, n: nat, limit: nat): ClientRun
    requires p.Valid() && sent <= p.size
    decreases |inbox|
  {
    if sent == p.size then ClientRun([CLOSE], inbox, sent, true)
    else
      var k := UploadSize(p, n, sent);
      var m := Message(FileUploadChunk, Zeros(k), n);
      if !Readable(inbox, limit) then ClientRun([m], inbox, sent, false)
      else if p.stop(n) then ClientRun([m, CLOSE], inbox[1..], sent + k, true)
      else var rest := UploadFrom(p, inbox[1..], sent + k, n + 1, limit); rest.(out := [m] + rest.out)
  }

  function UploadRun(p: Plan, inbox: seq<Message>, limit: nat): ClientRun
    requires p.Valid()
  {
    var request := Message(FileUploadRequest, ToLe(p.size, 8), 0);
    if !Readable(inbox, limit) then ClientRun([request], inbox, 0, false)
    else var rest := UploadFrom(p, inbox[1..], 0, 0, limit); rest.(out := [request] + rest.out)
  }

  lemma UploadStep(p: Plan, inbox: seq<Message>, sent: nat, n: nat, limit: nat)
    requires p.Valid() && sent <= p.size
    ensures sent == p.size ==> UploadFrom(p, inbox, sent, n, limit) == ClientRun([CLOSE], inbox, sent, true)
    ensures sent < p.size ==>
              var k := UploadSize(p, n, sent);
              var m := Message(FileUploadChunk, Zeros(k), n);
              && (!Readable(inbox, limit) ==> UploadFrom(p, inbox, sent, n, limit) == ClientRun([m], inbox, sent, false))
              && (Readable(inbox, limit) && p.stop(n) ==>
                    UploadFrom(p, inbox, sent, n, limit) == ClientRun([m] + [CLOSE], inbox[1..], sent + k, true))
              && (Readable(inbox, limit) && !p.stop(n) ==>
                    var rest := UploadFrom(p, inbox[1..], sent + k, n + 1, limit);
                    UploadFrom(p, inbox, sent, n, limit) == rest.(out := [m] + rest.out))
  {
  }

  lemma UploadBegins(p: Plan, inbox: seq<Message>, limit: nat)
    requires p.Valid()
    ensures var request := Message(FileUploadRequest, ToLe(p.size, 8), 0);
            && (!Readable(inbox, limit) ==> UploadRun(p, inbox, limit) == ClientRun([request], inbox, 0, false))
            && (Readable(inbox, limit) ==>
                  var rest := UploadFrom(p, inbox[1..], 0, 0, limit);
                  UploadRun(p, inbox, limit) == rest.(out := [request] + rest.out))
  {
  }

  ghost predicate NoStop(stop: nat -> bool, from: nat, to: int) {
    forall k: nat | from <= k < to :: !stop(k)
  }

  ghost predicate UploadChunkAt(p: Plan, m: Message, before: nat, n: nat) {
    && before < p.size && m.kind == FileUploadChunk && m.sequence == n
    && SizeFits(|m.payload|, p.lo, p.hi, p.size - before)
  }

  /** The chunks are numbered from `n` on, each of a fitting size. */
  ghost predicate UploadChunks(p: Plan, chunks: seq<Message>, sent: nat, n: nat) {
    forall k | 0 <= k < |chunks| :: UploadChunkAt(p, chunks[k], sent + PayloadBytes(chunks[..k]), n + k)
  }

  /** So many messages from the front of the inbox can be read, and have been. */
  ghost predicate Taken(inbox: seq<Message>, limit: nat, taken: int, left: seq<Message>) {
    && 0 <= taken <= |inbox| && left == inbox[taken..]
    && forall k | 0 <= k < taken :: |inbox[k].payload| <= limit
  }

  lemma TakenOneMore(inbox: seq<Message>, limit: nat, taken: int, left: seq<Message>)
    requires Readable(inbox, limit) && Taken(inbox[1..], limit, taken, left)
    ensures Taken(inbox, limit, taken + 1, left)
  {
    forall k | 0 <= k < taken + 1 ensures |inbox[k].payload| <= limit {
      assert k > 0 ==> inbox[k] == inbox[1..][k - 1];
    }
  }

  lemma UploadChunksOneMore(p: Plan, m: Message, chunks: seq<Message>, sent: nat, n: nat)
    requires UploadChunkAt(p, m, sent, n) && UploadChunks(p, chunks, sent + |m.payload|, n + 1)
    ensures UploadChunks(p, [m] + chunks, sent, n)
  {
    hide UploadChunkAt;
    var all := [m] + chunks;
    assert all[1..] == chunks;
    forall k | 0 <= k < |all| ensures UploadChunkAt(p, all[k], sent + PayloadBytes(all[..k]), n + k) {
      if k > 0 {
        TakeBytes(all, k);
        assert UploadChunkAt(p, chunks[k - 1], sent + |m.payload| + PayloadBytes(chunks[..k - 1]), n + 1 + (k - 1));
      }
    }
  }

  /** The client has sent `chunks`, numbered from `n` on, each of a fitting size, and taken a reply to each; with the last that
      was answered the file is out or the client is told to stop, never before, and it closes; or the reply to the last
      cannot be read, and it fails. */
  ghost predicate Uploads(p: Plan, inbox: seq<Message>, sent: nat, n: nat, limit: nat, r: ClientRun, chunks: seq<Message>) {
    var taken := if r.ok then |chunks| else |chunks| - 1;
    && Taken(inbox, limit, taken, r.left) && r.total == sent + PayloadBytes(chunks[..taken])
    && UploadChunks(p, chunks, sent, n)
    && NoStop(p.stop, n, n + |chunks| - 1)
    && if r.ok then r.out == chunks + [CLOSE] && (r.total == p.size || (taken > 0 && p.stop(n + taken - 1)))
       else r.out == chunks && !Readable(r.left, limit)
  }

  lemma NoStopMore(stop: nat -> bool, from: nat, to: int)
    requires !stop(from) && NoStop(stop, from + 1, to)
    ensures NoStop(stop, from, to)
  {
  }

  lemma UploadsOneMore(p: Plan, inbox: seq<Message>, sent: nat, n: nat, limit: nat, m: Message, rest: ClientRun,
                       chunks: seq<Message>)
    requires UploadChunkAt(p, m, sent, n) && Readable(inbox, limit) && !p.stop(n)
    requires Uploads(p, inbox[1..], sent + |m.payload|, n + 1, limit, rest, chunks)
    ensures Uploads(p, inbox, sent, n, limit, rest.(out := [m] + rest.out), [m] + chunks)
  {
    hide UploadChunks, Taken, UploadChunkAt, NoStop, Readable;
    var all := [m] + chunks;
    assert all[1..] == chunks;
    var taken := if rest.ok then |chunks| else |chunks| - 1;
    UploadChunksOneMore(p, m, chunks, sent, n);
    TakenOneMore(inbox, limit, taken, rest.left);
    NoStopMore(p.stop, n, n + |chunks|);
    TakenBounds(inbox[1..], limit, taken, rest.left);
    TakeBytes(all, taken + 1);
    assert rest.ok ==> [m] + rest.out == all + [CLOSE];
  }

  lemma TakenBounds(inbox: seq<Message>, limit: nat, taken: int, left: seq<Message>)
    requires Taken(inbox, limit, taken, left)
    ensures 0 <= taken <= |inbox|
  {
  }

  lemma UploadsOne(p: Plan, inbox: seq<Message>, sent: nat, n: nat, limit: nat, m: Message)
    requires UploadChunkAt(p, m, sent, n) && (!Readable(inbox, limit) || p.stop(n))
    ensures !Readable(inbox, limit) ==> Uploads(p, inbox, sent, n, limit, ClientRun([m], inbox, sent, false), [m])
    ensures Readable(inbox, limit) ==>
              Uploads(p, inbox, sent, n, limit, ClientRun([m] + [CLOSE], inbox[1..], sent + |m.payload|, true), [m])
  {
    TakeBytes([m], 1);
    assert [m][1..][..0] == [] && [m][..0] == [];
    assert UploadChunks(p, [m], sent, n);
  }

  lemma UploadsNothing(p: Plan, inbox: seq<Message>, n: nat, limit: nat)
    ensures Uploads(p, inbox, p.size, n, limit, ClientRun([CLOSE], inbox, p.size, true), [])
  {
    assert [] + [CLOSE] == [CLOSE];
  }

  lemma SizedChunk(p: Plan, sent: nat, n: nat)
    requires p.Valid() && sent < p.size
    ensures UploadChunkAt(p, Message(FileUploadChunk, Zeros(UploadSize(p, n, sent)), n), sent, n)
  {
  }

  lemma {:induction false} ClientUploads(p: Plan, inbox: seq<Message>, sent: nat, n: nat,
                                         limit: nat) returns (chunks: seq<Message>)
    requires p.Valid() && sent <= p.size
    ensures Uploads(p, inbox, sent, n, limit, UploadFrom(p, inbox, sent, n, limit), chunks)
    decreases |inbox|
  {
    hide UploadFrom, Uploads, UploadChunkAt, Zeros, UploadSize;
    UploadStep(p, inbox, sent, n, limit);
    if sent == p.size {
      UploadsNothing(p, inbox, n, limit);
      chunks := [];
    } else {
      var k := UploadSize(p, n, sent);
      var m := Message(FileUploadChunk, Zeros(k), n);
      SizedChunk(p, sent, n);
      if Readable(inbox, limit) && !p.stop(n) {
        chunks := ClientUploads(p, inbox[1..], sent + k, n + 1, limit);
        UploadsOneMore(p, inbox, sent, n, limit, m, UploadFrom(p, inbox[1..], sent + k, n + 1, limit), chunks);
        chunks := [m] + chunks;
      } else {
        UploadsOne(p, inbox, sent, n, limit, m);
        chunks := [m];
      }
    }
  }

  /** The whole of it: the request with the size, a reply that is not looked into, and then the chunks. */
  ghost predicate UploadsFile(p: Plan, inbox: seq<Message>, limit: nat, r: ClientRun, chunks: seq<Message>) {
    && r.out != [] && r.out[0] == Message(FileUploadRequest, ToLe(p.size, 8), 0)
    && if !Readable(inbox, limit) then r.left == inbox && r.total == 0 && !r.ok && |r.out| == 1
       else Uploads(p, inbox[1..], 0, 0, limit, r.(out := r.out[1..]), chunks)
  }

  lemma ClientUploadsFile(p: Plan, inbox: seq<Message>, limit: nat) returns (chunks: seq<Message>)
    requires p.Valid()
    ensures UploadsFile(p, inbox, limit, UploadRun(p, inbox, limit), chunks)
  {
    chunks := [];
    UploadBegins(p, inbox, limit);
    hide UploadRun, UploadFrom, Uploads, ToLe;
    if Readable(inbox, limit) {
      chunks := ClientUploads(p, inbox[1..], 0, 0, limit);
      var request, rest := Message(FileUploadRequest, ToLe(p.size, 8), 0), UploadFrom(p, inbox[1..], 0, 0, limit);
      assert ([request] + rest.out)[1..] == rest.out;
    }
  }

  method PerformFileUpload(c: Connection, p: Plan, limit: nat) returns (sent: nat, ok: bool, ghost chunks: seq<Message>)
    requires p.Valid()
    modifies c
    ensures var r := UploadRun(p, old(c.inbox), limit);
            c.outbox == old(c.outbox) + r.out && c.inbox == r.left && sent == r.total && ok == r.ok
    ensures exists out ::
              UploadsFile(p, old(c.inbox), limit, ClientRun(out, c.inbox, sent, ok), chunks) && c.outbox == old(c.outbox) + out
  {
    hide UploadRun, UploadFrom, UploadsFile;
    chunks := ClientUploadsFile(p, c.inbox, limit);
    ghost var all := UploadRun(p, c.inbox, limit);
    UploadBegins(p, c.inbox, limit);
    var request := Message(FileUploadRequest, ToLe(p.size, 8), 0);
    c.Send(request);
    var first := c.Receive(limit);
    if first.Failure? {
      return 0, false, chunks;
    }
    sent := 0;
    var sequence := 0;
    Associate(old(c.outbox), [request], UploadFrom(p, c.inbox, 0, 0, limit).out);
    while sent < p.size
      invariant sent <= p.size
      invariant var r := UploadFrom(p, c.inbox, sent, sequence, limit);
                all == r.(out := all.out) && c.outbox + r.out == old(c.outbox) + all.out
      decreases |c.inbox|
    {
      ghost var outbox := c.outbox;
      UploadStep(p, c.inbox, sent, sequence, limit);
      var k := UploadSize(p, sequence, sent);
      var m := Message(FileUploadChunk, Zeros(k), sequence);
      c.Send(m);
      var reply := c.Receive(limit);
      if reply.Failure? {
        return sent, false, chunks;
      }
      sent := sent + k;
      if p.stop(sequence) {
        Associate(outbox, [m], [CLOSE]);
        c.Send(CLOSE);
        return sent, true, chunks;
      }
      sequence := sequence + 1;
      Associate(outbox, [m], UploadFrom(p, c.inbox, sent, sequence, limit).out);
    }
    UploadStep(p, c.inbox, sent, sequence, limit);
    c.Send(CLOSE);
    ok := true;
  }

  // ------------------------------------------------------------------ the client's download

  function DownloadFrom(size: nat, stop: nat -> bool, inbox: seq<Message>, got: nat, n: nat, limit: nat): ClientRun
    decreases |inbox|
  {
    if got >= size then ClientRun([CLOSE], inbox, got, true)
    else if !Readable(inbox, limit) then ClientRun([], inbox, got, false)
    else if stop(n) then ClientRun([CLOSE], inbox[1..], got + |inbox[0].payload|, true)
    else DownloadFrom(size, stop, inbox[1..], got + |inbox[0].payload|, n + 1, limit)
  }

  /** The client has taken `taken` messages from the front of the inbox; with the last the size is reached or the client is told
      to stop, never before, and it closes; or the next cannot be read, and it fails. */
  ghost predicate Downloads(size: nat, stop: nat -> bool, inbox: seq<Message>, got: nat, n: nat, limit: nat, r: ClientRun,
                            taken: nat) {
    && taken <= |inbox| && r.left == inbox[taken..] && r.total == got + PayloadBytes(inbox[..taken])
    && (forall k | 0 <= k < taken :: |inbox[k].payload| <= limit && got + PayloadBytes(inbox[..k]) < size)
    && NoStop(stop, n, n + taken - 1)
    && if r.ok then r.out == [CLOSE] && (r.total >= size || (taken > 0 && stop(n + taken - 1)))
       else r.out == [] && r.total < size && (taken > 0 ==> !stop(n + taken - 1)) && !Readable(r.left, limit)
  }

  lemma DownloadsOneMore(size: nat, stop: nat -> bool, inbox: seq<Message>, got: nat, n: nat, limit: nat, r: ClientRun,
                         taken: nat)
    requires got < size && Readable(inbox, limit)
    requires Downloads(size, stop, inbox[1..], got + |inbox[0].payload|, n + 1, limit, r, taken)
    requires stop(n) ==> taken == 0 && got + |inbox[0].payload| >= size
    ensures Downloads(size, stop, inbox, got, n, limit, r, taken + 1)
  {
    TakeBytes(inbox, taken + 1);
    forall k | 0 <= k < taken + 1 ensures |inbox[k].payload| <= limit && got + PayloadBytes(inbox[..k]) < size {
      if k > 0 {
        TakeBytes(inbox, k);
        assert inbox[k] == inbox[1..][k - 1];
      }
    }
  }

  lemma {:induction false} ClientDownloads(size: nat, stop: nat -> bool, inbox: seq<Message>, got: nat, n: nat,
                                           limit: nat) returns (taken: nat)
    ensures Downloads(size, stop, inbox, got, n, limit, DownloadFrom(size, stop, inbox, got, n, limit), taken)
    decreases |inbox|
  {
    taken := 0;
    if got < size && Readable(inbox, limit) {
      var got' := got + |inbox[0].payload|;
      if stop(n) {
        TakeBytes(inbox, 1);
        taken := 1;
      } else {
        taken := ClientDownloads(size, stop, inbox[1..], got', n + 1, limit);
        DownloadsOneMore(size, stop, inbox, got, n, limit, DownloadFrom(size, stop, inbox[1..], got', n + 1, limit), taken);
        taken := taken + 1;
      }
    }
  }

  method PerformFileDownload(c: Connection, size: u64, stop: nat -> bool, limit: nat)
    returns (received: nat, ok: bool, ghost taken: nat)
    modifies c
    ensures exists out ::
              && Downloads(size, stop, old(c.inbox), 0, 0, limit, ClientRun(out, c.inbox, received, ok), taken)
              && c.outbox == old(c.outbox) + [Message(FileDownloadRequest, ToLe(size, 8), 0)] + out
    ensures var r := DownloadFrom(size, stop, old(c.inbox), 0, 0, limit);
            && c.outbox == old(c.outbox) + [Message(FileDownloadRequest, ToLe(size, 8), 0)] + r.out
            && c.inbox == r.left && received == r.total && ok == r.ok
  {
    hide Downloads;
    taken := ClientDownloads(size, stop, c.inbox, 0, 0, limit);
    ghost var all := DownloadFrom(size, stop, c.inbox, 0, 0, limit);
    c.Send(Message(FileDownloadRequest, ToLe(size, 8), 0));
    received := 0;
    var count := 0;
    while received < size
      invariant c.outbox == old(c.outbox) + [Message(FileDownloadRequest, ToLe(size, 8), 0)]
      invariant all == DownloadFrom(size, stop, c.inbox, received, count, limit)
      decreases |c.inbox|
    {
      var chunk := c.Receive(limit);
      if chunk.Failure? {
        return received, false, taken;
      }
      received := received + |chunk.message.payload|;
      if received >= size || stop(count) {
        break;
      }
      count := count + 1;
    }
    c.Send(CLOSE);
    ok := true;
  }

  // ------------------------------------------------------------------ the client's page

  /** What the client draws for a page: how large its handshake is, how many requests it makes, how large each is; and whether
      it is told to stop after the `n`th. */
  datatype PagePlan = PagePlan(handshake: nat, requests: nat, draw: nat -> nat, stop: nat -> bool)

  function RequestOf(p: PagePlan, n: nat): Message { Message(HttpRequest, Zeros(InRange(p.draw(n), 1024, 4096)), n) }

  /** The requests from the `n`th on; `total` counts the answers taken. */
  function PageFrom(p: PagePlan, inbox: seq<Message>, n: nat, limit: nat): ClientRun
    decreases |inbox|
  {
    if n >= p.requests then ClientRun([CLOSE], inbox, n, true)
    else if !Readable(inbox, limit) then ClientRun([RequestOf(p, n)], inbox, n, false)
    else if p.stop(n) then ClientRun([RequestOf(p, n), CLOSE], inbox[1..], n + 1, true)
    else var rest := PageFrom(p, inbox[1..], n + 1, limit); rest.(out := [RequestOf(p, n)] + rest.out)
  }

  lemma PageStep(p: PagePlan, inbox: seq<Message>, n: nat, limit: nat)
    ensures n >= p.requests ==> PageFrom(p, inbox, n, limit) == ClientRun([CLOSE], inbox, n, true)
    ensures n < p.requests && !Readable(inbox, limit) ==>
              PageFrom(p, inbox, n, limit) == ClientRun([RequestOf(p, n)], inbox, n, false)
    ensures n < p.requests && Readable(inbox, limit) && p.stop(n) ==>
              PageFrom(p, inbox, n, limit) == ClientRun([RequestOf(p, n)] + [CLOSE], inbox[1..], n + 1, true)
    ensures n < p.requests && Readable(inbox, limit) && !p.stop(n) ==>
              var rest := PageFrom(p, inbox[1..], n + 1, limit);
              PageFrom(p, inbox, n, limit) == rest.(out := [RequestOf(p, n)] + rest.out)
  {
  }

  /** A request of the page: of 1 to 4 KiB, and with its number. */
  ghost predicate RequestAt(p: PagePlan, m: Message, n: nat) {
    n < p.requests && m.kind == HttpRequest && 1024 <= |m.payload| <= 4096 && m.sequence == n
  }

  /** The client has sent requests `n` and on, and taken an answer to each; with the last that was answered there are no more to
      make or it is told to stop, never before, and it closes; or the answer to the last cannot be read, and it fails. */
  ghost predicate Browses(p: PagePlan, inbox: seq<Message>, n: nat, limit: nat, r: ClientRun, requests: seq<Message>) {
    var taken := if r.ok then |requests| else |requests| - 1;
    && Taken(inbox, limit, taken, r.left) && r.total == n + taken
    && (forall k | 0 <= k < |requests| :: RequestAt(p, requests[k], n + k))
    && NoStop(p.stop, n, n + |requests| - 1)
    && if r.ok then r.out == requests + [CLOSE] && (r.total >= p.requests || (taken > 0 && p.stop(n + taken - 1)))
       else r.out == requests && !Readable(r.left, limit)
  }

  lemma BrowsesOneMore(p: PagePlan, inbox: seq<Message>, n: nat, limit: nat, m: Message, rest: ClientRun,
                       requests: seq<Message>)
    requires RequestAt(p, m, n) && Readable(inbox, limit) && !p.stop(n)
    requires Browses(p, inbox[1..], n + 1, limit, rest, requests)
    ensures Browses(p, inbox, n, limit, rest.(out := [m] + rest.out), [m] + requests)
  {
    hide RequestAt;
    var all := [m] + requests;
    forall k | 0 <= k < |all| ensures RequestAt(p, all[k], n + k) {
      assert k > 0 ==> RequestAt(p, requests[k - 1], n + 1 + (k - 1));
    }
    TakenOneMore(inbox, limit, if rest.ok then |requests| else |requests| - 1, rest.left);
    hide Taken;
    assert rest.ok ==> [m] + rest.out == all + [CLOSE];
  }

  lemma BrowsesOne(p: PagePlan, inbox: seq<Message>, n: nat, limit: nat, m: Message)
    requires RequestAt(p, m, n) && (!Readable(inbox, limit) || p.stop(n))
    ensures !Readable(inbox, limit) ==> Browses(p, inbox, n, limit, ClientRun([m], inbox, n, false), [m])
    ensures Readable(inbox, limit) ==> Browses(p, inbox, n, limit, ClientRun([m] + [CLOSE], inbox[1..], n + 1, true), [m])
  {
  }

  lemma BrowsesNothing(p: PagePlan, inbox: seq<Message>, limit: nat)
    ensures Browses(p, inbox, p.requests, limit, ClientRun([CLOSE], inbox, p.requests, true), [])
  {
    assert [] + [CLOSE] == [CLOSE];
  }

  lemma SizedRequest(p: PagePlan, n: nat)
    requires n < p.requests
    ensures RequestAt(p, RequestOf(p, n), n)
  {
  }

  lemma {:induction false} ClientBrowses(p: PagePlan, inbox: seq<Message>, n: nat, limit: nat) returns (requests: seq<Message>)
    requires n <= p.requests
    ensures Browses(p, inbox, n, limit, PageFrom(p, inbox, n, limit), requests)
    decreases |inbox|
  {
    hide PageFrom, Browses, RequestAt, RequestOf;
    PageStep(p, inbox, n, limit);
    if n == p.requests {
      BrowsesNothing(p, inbox, limit);
      requests := [];
    } else {
      var m := RequestOf(p, n);
      SizedRequest(p, n);
      if Readable(inbox, limit) && !p.stop(n) {
        requests := ClientBrowses(p, inbox[1..], n + 1, limit);
        BrowsesOneMore(p, inbox, n, limit, m, PageFrom(p, inbox[1..], n + 1, limit), requests);
        requests := [m] + requests;
      } else {
        BrowsesOne(p, inbox, n, limit, m);
        requests := [m];
      }
    }
  }

  function HandshakeOf(p: PagePlan): Message { Message(TlsHandshake, Zeros(InRange(p.handshake, 400, 2000)), 0) }

  function PageRun(p: PagePlan, inbox: seq<Message>, limit: nat): ClientRun {
    if !Readable(inbox, limit) then ClientRun([HandshakeOf(p)], inbox, 0, false)
    else var rest := PageFrom(p, inbox[1..], 0, limit); rest.(out := [HandshakeOf(p)] + rest.out)
  }

  lemma PageBegins(p: PagePlan, inbox: seq<Message>, limit: nat)
    ensures !Readable(inbox, limit) ==> PageRun(p, inbox, limit) == ClientRun([HandshakeOf(p)], inbox, 0, false)
    ensures Readable(inbox, limit) ==>
              var rest := PageFrom(p, inbox[1..], 0, limit);
              PageRun(p, inbox, limit) == rest.(out := [HandshakeOf(p)] + rest.out)
  {
  }

  /** The whole of it: a handshake of 400 to 2000 bytes, a reply that is not looked into, and then the requests. */
  ghost predicate LoadsPage(p: PagePlan, inbox: seq<Message>, limit: nat, r: ClientRun, requests: seq<Message>) {
    && r.out != [] && r.out[0].kind == TlsHandshake && 400 <= |r.out[0].payload| <= 2000 && r.out[0].sequence == 0
    && if !Readable(inbox, limit) then r.left == inbox && r.total == 0 && !r.ok && |r.out| == 1
       else Browses(p, inbox[1..], 0, limit, r.(out := r.out[1..]), requests)
  }

  lemma ClientLoadsPage(p: PagePlan, inbox: seq<Message>, limit: nat) returns (requests: seq<Message>)
    ensures LoadsPage(p, inbox, limit, PageRun(p, inbox, limit), requests)
  {
    requests := [];
    PageBegins(p, inbox, limit);
    hide PageRun, PageFrom, Browses;
    if Readable(inbox, limit) {
      requests := ClientBrowses(p, inbox[1..], 0, limit);
      var rest := PageFrom(p, inbox[1..], 0, limit);
      assert ([HandshakeOf(p)] + rest.out)[1..] == rest.out;
    }
  }

  /** `simulate_single_page`, on a connection that is up. */
  method SimulateSinglePage(c: Connection, p: PagePlan, limit: nat) returns (answers: nat, ok: bool,
                            ghost requests: seq<Message>)
    modifies c
    ensures var r := PageRun(p, old(c.inbox), limit);
            c.outbox == old(c.outbox) + r.out && c.inbox == r.left && answers == r.total && ok == r.ok
    ensures exists out ::
              LoadsPage(p, old(c.inbox), limit, ClientRun(out, c.inbox, answers, ok), requests) && c.outbox == old(c.outbox) + out
  {
    hide PageRun, PageFrom, LoadsPage, RequestOf, HandshakeOf;
    requests := ClientLoadsPage(p, c.inbox, limit);
    ghost var all := PageRun(p, c.inbox, limit);
    PageBegins(p, c.inbox, limit);
    c.Send(HandshakeOf(p));
    var first := c.Receive(limit);
    if first.Failure? {
      return 0, false, requests;
    }
    Associate(old(c.outbox), [HandshakeOf(p)], PageFrom(p, c.inbox, 0, limit).out);
    var n := 0;
    answers := 0;
    while n < p.requests
      invariant answers == n <= p.requests
      invariant var r := PageFrom(p, c.inbox, n, limit);
                all == r.(out := all.out) && c.outbox + r.out == old(c.outbox) + all.out
      decreases |c.inbox|
    {
      ghost var outbox := c.outbox;
      PageStep(p, c.inbox, n, limit);
      c.Send(RequestOf(p, n));
      var answer := c.Receive(limit);
      if answer.Failure? {
        return answers, false, requests;
      }
      answers := answers + 1;
      if p.stop(n) {
        Associate(outbox, [RequestOf(p, n)], [CLOSE]);
        c.Send(CLOSE);
        return answers, true, requests;
      }
      n := n + 1;
      Associate(outbox, [RequestOf(p, n - 1)], PageFrom(p, c.inbox, n, limit).out);
    }
    PageStep(p, c.inbox, n, limit);
    c.Send(CLOSE);
    ok := true;
  }

  // ------------------------------------------------------------------ the loops agree

  /** From any point on, what the client still sends is what the server's loop needs: it receives the very bytes, answers
      each chunk with its own sequence, one answer for each that the client takes, and has the close left to read
      exactly when the client was not stopped short. */
  lemma {:induction false} UploadLoopsAgree(p: Plan, inbox: seq<Message>, sent: nat, n: nat, limit: nat)
    requires p.Valid() && sent <= p.size && (p.hi <= limit || p.size <= limit)
    requires UploadFrom(p, inbox, sent, n, limit).ok
    ensures var client := UploadFrom(p, inbox, sent, n, limit);
            var server := ServeUpload(client.out, p.size, sent, limit);
            && server.ok && server.received == client.total <= p.size
            && |server.acks| == |inbox| - |client.left|
            && (forall k | 0 <= k < |server.acks| :: IsAck(server.acks[k], n + k))
            && server.left == if client.total < p.size then [] else [CLOSE]
    decreases |inbox|
  {
    hide UploadFrom, ServeUpload, AckOf;
    UploadStep(p, inbox, sent, n, limit);
    var client := UploadFrom(p, inbox, sent, n, limit);
    if sent == p.size {
      ServeDone(client.out, p.size, sent, limit);
    } else {
      var k := UploadSize(p, n, sent);
      var m := Message(FileUploadChunk, Zeros(k), n);
      AckIsFor(m);
      var next := client.out[1..];
      ServeStep(client.out, p.size, sent, limit);
      if p.stop(n) {
        assert next == [CLOSE];
        ServeClose(p.size, sent + k, limit);
      } else {
        UploadLoopsAgree(p, inbox[1..], sent + k, n + 1, limit);
        assert next == UploadFrom(p, inbox[1..], sent + k, n + 1, limit).out;
      }
    }
  }

  lemma AckIsFor(m: Message)
    ensures IsAck(AckOf(m), m.sequence)
  {
  }

  lemma ServeClose(expected: nat, got: nat, limit: nat)
    requires got <= expected
    ensures ServeUpload([CLOSE], expected, got, limit) == Served([], got, if got < expected then [] else [CLOSE], true)
  {
  }

  /** A whole upload: whatever replies the client was given, if it ended well the server, given what the client sent, has
      the same total, sends as many replies as were taken, the first an ACK and the others the chunks' own, and ends by
      the close message; or, when the client was stopped short, by the end of the stream, the close having been
      taken by the inner loop. */
  lemma UploadAgrees(p: Plan, inbox: seq<Message>, limit: nat, draws: nat -> nat -> nat)
    requires p.Valid() && (p.hi <= limit || p.size <= limit) && 8 <= limit && UploadRun(p, inbox, limit).ok
    ensures var client := UploadRun(p, inbox, limit);
            var server := Converse(client.out, limit, draws, 0);
            && ServeUpload(client.out[1..], p.size, 0, limit).received == client.total <= p.size
            && |server.out| == |inbox| - |client.left| && server.out[0] == Message(HttpResponse, ACK, 0)
            && (forall k | 1 <= k < |server.out| :: IsAck(server.out[k], k - 1))
            && server.how == if client.total < p.size then ByEof else ByClose
  {
    var client := UploadRun(p, inbox, limit);
    UploadLoopsAgree(p, inbox[1..], 0, 0, limit);
    SizeIsUnderstood(p.size, []);
    var rest := client.out[1..];
    assert rest == UploadFrom(p, inbox[1..], 0, 0, limit).out;
    var r := React(client.out[0], rest, limit, draws(0));
    ClosingTalk(r.left, limit, draws);
    assert forall k | 1 <= k < |r.out| :: r.out[k] == ServeUpload(rest, p.size, 0, limit).acks[k - 1];
  }

  lemma ClosingTalk(left: seq<Message>, limit: nat, draws: nat -> nat -> nat)
    requires left == [] || left == [CLOSE]
    ensures Converse(left, limit, draws, 1) == Conversation([], if left == [] then ByEof else ByClose)
  {
  }

  /** A chunk above the limit: the server's loop fails where it meets it, whatever it has received, and sends no answer. */
  lemma OversizedChunkIsRefused(p: Plan, inbox: seq<Message>, sent: nat, n: nat, limit: nat)
    requires p.Valid() && sent < p.size && UploadSize(p, n, sent) > limit
    ensures var client := UploadFrom(p, inbox, sent, n, limit);
            ServeUpload(client.out, p.size, sent, limit) == Served([], sent, client.out, false)
  {
    hide UploadFrom, ServeUpload;
    UploadStep(p, inbox, sent, n, limit);
    ServeStep(UploadFrom(p, inbox, sent, n, limit).out, p.size, sent, limit);
  }

  /** From any point on, the client takes the server's chunks, never failing and never past the size, and to the end
      unless it is stopped. */
  lemma {:induction false} DownloadLoopsAgree(size: nat, sent: nat, n: nat, draw: nat -> nat, stop: nat -> bool, limit: nat)
    requires sent <= size && 65536 <= limit
    ensures var chunks := ChunksFrom(size, sent, n, draw);
            var client := DownloadFrom(size, stop, chunks, sent, n, limit);
            && client.ok && client.out == [CLOSE] && client.total <= size
            && PayloadBytes(client.left) == size - client.total
            && (client.total == size || exists k | n <= k < n + |chunks| :: stop(k))
    decreases size - sent
  {
    if sent < size {
      var k := ChunkSize(draw, n, size - sent);
      var chunks := ChunksFrom(size, sent, n, draw);
      assert chunks[1..] == ChunksFrom(size, sent + k, n + 1, draw);
      if stop(n) {
        ChunksAddUp(size, sent + k, n + 1, draw);
        assert |chunks| > 0;
      } else {
        DownloadLoopsAgree(size, sent + k, n + 1, draw, stop, limit);
      }
    }
  }

  /** A whole download: the request is understood, the chunks answer it, the client takes them without fault up to the
      size or to where it is stopped, and the server ends by the close message. */
  lemma DownloadAgrees(size: u64, draws: nat -> nat -> nat, stop: nat -> bool, limit: nat)
    requires 65536 <= limit
    ensures var request := Message(FileDownloadRequest, ToLe(size, 8), 0);
            var server := Converse([request, CLOSE], limit, draws, 0);
            var client := DownloadFrom(size, stop, server.out, 0, 0, limit);
            && server.how == ByClose && PayloadBytes(server.out) == size
            && client.ok && client.out == [CLOSE] && client.total + PayloadBytes(client.left) == size
            && (client.total == size || exists k | 0 <= k < |server.out| :: stop(k))
  {
    var request := Message(FileDownloadRequest, ToLe(size, 8), 0);
    SizeIsUnderstood(size, []);
    assert [request, CLOSE][1..] == [CLOSE];
    ClosingTalk([CLOSE], limit, draws);
    ChunksAddUp(size, 0, 0, draws(0));
    DownloadLoopsAgree(size, 0, 0, draws(0), stop, limit);
    var chunks := ChunksFrom(size, 0, 0, draws(0));
    assert Converse([request, CLOSE], limit, draws, 0).out == chunks + [];
    assert chunks + [] == chunks;
  }

  lemma CloseEnds(limit: nat, draws: nat -> nat -> nat, i: nat)
    ensures Converse([CLOSE], limit, draws, i) == Conversation([], ByClose)
  {
  }

  ghost predicate Asks(m: Message, n: nat, limit: nat) { m.kind == HttpRequest && m.sequence == n && |m.payload| <= limit }

  lemma OneAnswered(inbox: seq<Message>, n: nat, limit: nat, draws: nat -> nat -> nat, i: nat)
    requires inbox != [] && Asks(inbox[0], n, limit)
    ensures var all, next := Converse(inbox, limit, draws, i), Converse(inbox[1..], limit, draws, i + 1);
            && |all.out| == 1 + |next.out| && all.out[1..] == next.out && all.how == next.how
            && IsAnswer(all.out[0], 4096, 32768, n)
  {
    ConverseStep(inbox, limit, draws, i);
    hide Converse;
  }

  lemma HandshakeAnswered(inbox: seq<Message>, limit: nat, draws: nat -> nat -> nat, i: nat)
    requires inbox != [] && inbox[0].kind == TlsHandshake && |inbox[0].payload| <= limit
    ensures var all, next := Converse(inbox, limit, draws, i), Converse(inbox[1..], limit, draws, i + 1);
            && |all.out| == 1 + |next.out| && all.out[1..] == next.out && all.how == next.how
            && IsAnswer(all.out[0], 2000, 4000, 0)
  {
    ConverseStep(inbox, limit, draws, i);
    hide Converse;
  }

  /** Requests numbered from `n` on, and a close behind them: a page each, with the request's own sequence, and the end. */
  lemma {:induction false} RequestsAnswered(requests: seq<Message>, n: nat, limit: nat, draws: nat -> nat -> nat, i: nat)
    requires forall k | 0 <= k < |requests| :: Asks(requests[k], n + k, limit)
    ensures var server := Converse(requests + [CLOSE], limit, draws, i);
            && server.how == ByClose && |server.out| == |requests|
            && forall k | 0 <= k < |requests| :: IsAnswer(server.out[k], 4096, 32768, n + k)
  {
    hide Converse, IsAnswer;
    if requests == [] {
      assert requests + [CLOSE] == [CLOSE];
      CloseEnds(limit, draws, i);
    } else {
      forall k | 0 <= k < |requests| - 1 ensures Asks(requests[1..][k], n + 1 + k, limit) {
        assert Asks(requests[k + 1], n + (k + 1), limit);
      }
      RequestsAnswered(requests[1..], n + 1, limit, draws, i + 1);
      assert (requests + [CLOSE])[1..] == requests[1..] + [CLOSE];
      assert Asks(requests[0], n + 0, limit);
      OneAnswered(requests + [CLOSE], n, limit, draws, i);
    }
  }

  /** A page, in messages: a handshake, requests numbered from 0 on, and a close, of whatever sizes within the limit. */
  lemma PageConversation(hello: Message, requests: seq<Message>, limit: nat, draws: nat -> nat -> nat)
    requires hello.kind == TlsHandshake && |hello.payload| <= limit
    requires forall k | 0 <= k < |requests| :: Asks(requests[k], k, limit)
    ensures var server := Converse([hello] + (requests + [CLOSE]), limit, draws, 0);
            && server.how == ByClose && |server.out| == |requests| + 1 && IsAnswer(server.out[0], 2000, 4000, 0)
            && forall k | 1 <= k < |server.out| :: IsAnswer(server.out[k], 4096, 32768, k - 1)
  {
    hide Converse, IsAnswer;
    var inbox := [hello] + (requests + [CLOSE]);
    assert inbox[1..] == requests + [CLOSE];
    HandshakeAnswered(inbox, limit, draws, 0);
    forall k | 0 <= k < |requests| ensures Asks(requests[k], 0 + k, limit) {
      assert Asks(requests[k], k, limit);
    }
    RequestsAnswered(requests, 0, limit, draws, 1);
    var server := Converse(inbox, limit, draws, 0);
    forall k | 1 <= k < |server.out| ensures IsAnswer(server.out[k], 4096, 32768, k - 1) {
      assert server.out[k] == server.out[1..][k - 1];
      assert IsAnswer(server.out[1..][k - 1], 4096, 32768, 0 + (k - 1));
    }
  }

  /** A whole page: whatever the client was given, if it ended well the server, given what the client sent, answers the handshake
      and each request, in order, with the request's own sequence, one answer for each that the client takes, and ends by the
      close message; the requests are as many as were drawn, unless the client is told to stop. */
  lemma PageAgrees(p: PagePlan, inbox: seq<Message>, limit: nat, draws: nat -> nat -> nat)
    requires 4096 <= limit && PageRun(p, inbox, limit).ok
    ensures var client := PageRun(p, inbox, limit);
            var server := Converse(client.out, limit, draws, 0);
            && server.how == ByClose && |server.out| == client.total + 1 == |inbox| - |client.left| == |client.out| - 1
            && IsAnswer(server.out[0], 2000, 4000, 0)
            && (forall k | 1 <= k < |server.out| :: IsAnswer(server.out[k], 4096, 32768, k - 1))
            && (client.total == p.requests || exists k | 0 <= k < client.total :: p.stop(k))
  {
    hide PageRun, Converse, IsAnswer;
    var client := PageRun(p, inbox, limit);
    var requests := ClientLoadsPage(p, inbox, limit);
    assert client.out == [client.out[0]] + (requests + [CLOSE]);
    forall k | 0 <= k < |requests| ensures Asks(requests[k], k, limit) {
      assert RequestAt(p, requests[k], 0 + k);
    }
    if |requests| > 0 {
      assert RequestAt(p, requests[|requests| - 1], 0 + (|requests| - 1));
      assert client.total < p.requests ==> p.stop(client.total - 1);
    }
    PageConversation(client.out[0], requests, limit, draws);
  }
}
