/**
 One TCP flow of the continuity probe as three actors: the writer task, the echo server's
 `tcp_echo`, and the reader loop, joined by two byte streams.  The transport hands bytes on in pieces
 of any size, and can cut either direction at any moment.
 */
module EchoPipeline {
  import opened Bytes
  import opened Codec

  /** The payload every frame of the run carries (`vec![0xA5; payload_bytes.max(1)]`). */
  datatype Config = Config(payload: seq<byte>) {
    ghost predicate Valid() { 1 <= |payload| < 0x1_0000_0000 }
    function FrameLen(): nat { HEADER_LEN + |payload| }
  }

  /** One direction: every byte put into it so far, whether the sender has shut it down,
      and whether the transport has cut it. */
  datatype Link = Link(sent: seq<byte>, finished: bool, cut: bool)

  /** A `Frame::read` in progress: bytes taken off the link in all, and those of the current frame. */
  datatype Intake = Intake(pos: nat, buf: seq<byte>)

  datatype WriterPc = Top | Sending | Flushed | WriterDone
  datatype ServerPc = Awaiting | Echoing | Echoed(len: nat) | ServerDone
  datatype ReaderPc = Reading | Counting(len: nat) | ReaderDone

  datatype State = State(
    wpc: WriterPc, frames: seq<Frame>, unsent: seq<byte>, bytesSent: nat,
    up: Link,
    spc: ServerPc, sIn: Intake, echoed: seq<Frame>, unechoed: seq<byte>, bytesEchoed: nat,
    down: Link,
    rpc: ReaderPc, rIn: Intake, accepted: seq<Frame>, bytesRecv: nat)

  ghost predicate Init(s: State) {
    && s.wpc == Top && s.frames == [] && s.unsent == [] && s.bytesSent == 0
    && s.spc == Awaiting && s.echoed == [] && s.unechoed == [] && s.bytesEchoed == 0
    && s.rpc == Reading && s.accepted == [] && s.bytesRecv == 0
    && s.sIn == Intake(0, []) && s.rIn == Intake(0, [])
    && s.up == Link([], false, false) && s.down == Link([], false, false)
  }

  // ------------------------------------------------------------------ Frame::read in steps

  /** A full header that `Frame::read` refuses. */
  predicate Refused(buf: seq<byte>) {
    |buf| >= HEADER_LEN && (MagicOf(buf) != MAGIC || LenOf(buf) > MAX_PAYLOAD)
  }

  /** The bytes the current `read_exact` still waits for. */
  function Need(buf: seq<byte>): nat {
    if |buf| < HEADER_LEN then HEADER_LEN - |buf|
    else if Refused(buf) || |buf| >= HEADER_LEN + LenOf(buf) then 0
    else HEADER_LEN + LenOf(buf) - |buf|
  }

  predicate Complete(buf: seq<byte>) {
    |buf| >= HEADER_LEN && !Refused(buf) && Need(buf) == 0
  }

  /** The frame a complete buffer holds. */
  function FrameIn(buf: seq<byte>): Frame
    requires Complete(buf)
  {
    Frame(SequenceOf(buf), SendTsOf(buf), buf[HEADER_LEN..])
  }

  ghost predicate Deliver(link: Link, i: Intake, i': Intake, n: nat) {
    && 0 < n <= Need(i.buf)
    && i.pos + n <= |link.sent|
    && i' == Intake(i.pos + n, i.buf + link.sent[i.pos..i.pos + n])
  }

  /** `read_exact` hits the end of the stream, or a transport error, while it waits for bytes. */
  ghost predicate AtEnd(link: Link, i: Intake) {
    Need(i.buf) > 0 && (link.cut || (link.finished && i.pos == |link.sent|))
  }

  // ------------------------------------------------------------------ writer steps

  ghost predicate WriterBegin(c: Config, s: State, s': State, ts: u64) {
    var f := Frame(|s.frames| % 0x1_0000_0000_0000_0000, ts, c.payload);
    && s.wpc == Top
    && s' == s.(wpc := Sending, frames := s.frames + [f], unsent := Encoding(f))
  }

  ghost predicate WriterPush(s: State, s': State, n: nat) {
    && s.wpc == Sending && 0 < n <= |s.unsent|
    && s' == s.(wpc := if n == |s.unsent| then Flushed else Sending,
                up := s.up.(sent := s.up.sent + s.unsent[..n]), unsent := s.unsent[n..])
  }

  ghost predicate WriterCount(c: Config, s: State, s': State) {
    && s.wpc == Flushed
    && s' == s.(wpc := Top, bytesSent := s.bytesSent + c.FrameLen())
  }

  /** `write_all` or `flush` fails: the direction is cut, or the peer has gone. */
  ghost predicate WriterFail(s: State, s': State) {
    && (s.wpc == Sending || s.wpc == Flushed)
    && (s.up.cut || s.spc == ServerDone)
    && s' == s.(wpc := WriterDone, up := s.up.(finished := true))
  }

  /** The deadline has passed at the loop head: shut the write half down. */
  ghost predicate WriterStop(s: State, s': State) {
    && s.wpc == Top
    && s' == s.(wpc := WriterDone, up := s.up.(finished := true))
  }

  /** A frame carries whatever time the writer reads. */
  lemma AnyStamp(c: Config, s: State, ts: u64) returns (s': State)
    requires s.wpc == Top
    ensures Next(c, s, s') && s'.frames == s.frames + [Frame(|s.frames| % 0x1_0000_0000_0000_0000, ts, c.payload)]
  {
    var f := Frame(|s.frames| % 0x1_0000_0000_0000_0000, ts, c.payload);
    s' := s.(wpc := Sending, frames := s.frames + [f], unsent := Encoding(f));
    assert WriterBegin(c, s, s', ts);
  }

  // ------------------------------------------------------------------ server steps

  ghost predicate ServerDeliver(s: State, s': State, n: nat) {
    && s.spc == Awaiting
    && Deliver(s.up, s.sIn, s'.sIn, n)
    && s' == s.(sIn := s'.sIn)
  }

  ghost predicate ServerTake(s: State, s': State) {
    && s.spc == Awaiting && Complete(s.sIn.buf)
    && var f := FrameIn(s.sIn.buf);
       s' == s.(spc := Echoing, sIn := s.sIn.(buf := []), echoed := s.echoed + [f], unechoed := Encoding(f))
  }

  ghost predicate ServerPush(s: State, s': State, n: nat) {
    && s.spc == Echoing && 0 < n <= |s.unechoed|
    && s.echoed != []
    && s' == s.(spc := if n == |s.unechoed| then Echoed(|Encoding(s.echoed[|s.echoed| - 1])|) else Echoing,
                down := s.down.(sent := s.down.sent + s.unechoed[..n]), unechoed := s.unechoed[n..])
  }

  ghost predicate ServerCount(s: State, s': State) {
    && s.spc.Echoed?
    && s' == s.(spc := Awaiting, bytesEchoed := s.bytesEchoed + s.spc.len)
  }

  /** `tcp_echo` returns, with an error or without, and drops both halves of the stream. */
  ghost predicate ServerEnd(s: State, s': State) {
    && (|| (s.spc == Awaiting && (Refused(s.sIn.buf) || AtEnd(s.up, s.sIn)))
        || ((s.spc == Echoing || s.spc.Echoed?) && (s.down.cut || (s.rpc == ReaderDone && s.wpc == WriterDone))))
    && s' == s.(spc := ServerDone, down := s.down.(finished := true))
  }

  // ------------------------------------------------------------------ reader steps

  ghost predicate ReaderDeliver(s: State, s': State, n: nat) {
    && s.rpc == Reading
    && Deliver(s.down, s.rIn, s'.rIn, n)
    && s' == s.(rIn := s'.rIn)
  }

  ghost predicate ReaderTake(s: State, s': State) {
    && s.rpc == Reading && Complete(s.rIn.buf)
    && var f := FrameIn(s.rIn.buf);
       s' == s.(rpc := Counting(HEADER_LEN + |f.payload|), rIn := s.rIn.(buf := []), accepted := s.accepted + [f])
  }

  ghost predicate ReaderCount(s: State, s': State) {
    && s.rpc.Counting?
    && s' == s.(rpc := Reading, bytesRecv := s.bytesRecv + s.rpc.len)
  }

  ghost predicate ReaderEnd(s: State, s': State) {
    && s.rpc == Reading && (Refused(s.rIn.buf) || AtEnd(s.down, s.rIn))
    && s' == s.(rpc := ReaderDone)
  }

  // ------------------------------------------------------------------ transport faults

  ghost predicate Cut(s: State, s': State) {
    s' == s.(up := s.up.(cut := true)) || s' == s.(down := s.down.(cut := true))
  }

  ghost predicate WriterStep(c: Config, s: State, s': State) {
    || (exists ts: u64 :: WriterBegin(c, s, s', ts))
    || (exists n: nat :: WriterPush(s, s', n))
    || WriterCount(c, s, s') || WriterFail(s, s') || WriterStop(s, s')
  }

  ghost predicate ServerStep(s: State, s': State) {
    || (exists n: nat :: ServerDeliver(s, s', n))
    || (exists n: nat :: ServerPush(s, s', n))
    || ServerTake(s, s') || ServerCount(s, s') || ServerEnd(s, s')
  }

  ghost predicate ReaderStep(s: State, s': State) {
    || (exists n: nat :: ReaderDeliver(s, s', n))
    || ReaderTake(s, s') || ReaderCount(s, s') || ReaderEnd(s, s')
  }

  ghost predicate Next(c: Config, s: State, s': State) {
    WriterStep(c, s, s') || ServerStep(s, s') || ReaderStep(s, s') || Cut(s, s')
  }

  ghost predicate StepAt(c: Config, run: seq<State>, i: nat)
    requires 0 < i < |run|
  {
    Next(c, run[i - 1], run[i])
  }

  ghost predicate IsRun(c: Config, run: seq<State>) {
    && run != [] && Init(run[0])
    && forall i :: 0 < i < |run| ==> StepAt(c, run, i)
  }

  // ------------------------------------------------------------------ invariant

  /** A reader has turned the bytes it took off its link into frames, and keeps the rest. */
  ghost predicate IntakeInv(link: Link, i: Intake, got: seq<Frame>) {
    && i.pos <= |link.sent|
    && AllCapped(got)
    && link.sent[..i.pos] == EncodeAll(got) + i.buf
    && (|i.buf| >= HEADER_LEN && !Refused(i.buf) ==> |i.buf| <= HEADER_LEN + LenOf(i.buf))
  }

  ghost predicate WriterInv(c: Config, s: State) {
    && (forall i :: 0 <= i < |s.frames| ==>
          && s.frames[i].sequence == i % 0x1_0000_0000_0000_0000
          && s.frames[i].payload == c.payload)
    && s.up.sent + s.unsent == EncodeAll(s.frames)
    && (s.wpc == Top ==> s.bytesSent == EncodedSize(s.frames))
    && (s.wpc == Sending || s.wpc == Flushed ==> s.bytesSent + c.FrameLen() == EncodedSize(s.frames))
    && s.bytesSent <= EncodedSize(s.frames) <= s.bytesSent + c.FrameLen()
    && (s.wpc == Top || s.wpc == Flushed ==> s.unsent == [])
    && (s.wpc == Sending ==> s.unsent != [])
    && (s.wpc == Sending || s.wpc == Flushed ==> s.frames != [])
  }

  ghost predicate ServerInv(s: State) {
    && IntakeInv(s.up, s.sIn, s.echoed)
    && s.down.sent + s.unechoed == EncodeAll(s.echoed)
    && (s.spc == Awaiting || s.spc.Echoed? ==> s.unechoed == [])
    && (s.spc == Echoing ==> s.unechoed != [] && s.echoed != [])
  }

  ghost predicate ReaderInv(c: Config, s: State) {
    && IntakeInv(s.down, s.rIn, s.accepted)
    && s.bytesRecv == EncodedSize(s.accepted) - (if s.rpc.Counting? then s.rpc.len else 0)
  }

  function EncodedSize(fs: seq<Frame>): nat { |EncodeAll(fs)| }

  ghost predicate Inv(c: Config, s: State) {
    WriterInv(c, s) && ServerInv(s) && ReaderInv(c, s)
  }

  // ------------------------------------------------------------------ preservation

  lemma InitInv(c: Config, s: State)
    requires c.Valid() && Init(s)
    ensures Inv(c, s)
  {
  }

  lemma IntakeGrows(link: Link, link': Link, i: Intake, got: seq<Frame>)
    requires IntakeInv(link, i, got) && link.sent <= link'.sent
    ensures IntakeInv(link', i, got)
  {
    assert link'.sent[..i.pos] == link.sent[..i.pos];
  }

  lemma IntakeDelivers(link: Link, i: Intake, i': Intake, n: nat, got: seq<Frame>)
    requires IntakeInv(link, i, got) && Deliver(link, i, i', n)
    ensures IntakeInv(link, i', got)
  {
    var chunk := link.sent[i.pos..i'.pos];
    assert link.sent[..i'.pos] == link.sent[..i.pos] + chunk;
    assert (EncodeAll(got) + i.buf) + chunk == EncodeAll(got) + i'.buf;
    NeverTooMuch(i.buf, chunk);
  }

  /** `read_exact` asks for no more than the rest of the current frame. */
  lemma NeverTooMuch(buf: seq<byte>, chunk: seq<byte>)
    requires 0 < |chunk| <= Need(buf)
    ensures |buf + chunk| >= HEADER_LEN && !Refused(buf + chunk) ==> |buf + chunk| <= HEADER_LEN + LenOf(buf + chunk)
  {
    if |buf| >= HEADER_LEN {
      HeaderKept(buf, chunk);
    }
  }

  lemma HeaderKept(h: seq<byte>, tail: seq<byte>)
    requires |h| >= HEADER_LEN
    ensures MagicOf(h + tail) == MagicOf(h) && LenOf(h + tail) == LenOf(h)
  {
    assert (h + tail)[0..4] == h[0..4];
    assert (h + tail)[4..8] == h[4..8];
  }

  /** A complete buffer is one capped frame's encoding, nothing more. */
  lemma CompleteIsEncoding(buf: seq<byte>)
    requires Complete(buf) && |buf| <= HEADER_LEN + LenOf(buf)
    ensures |FrameIn(buf).payload| <= MAX_PAYLOAD
    ensures buf == Encoding(FrameIn(buf))
  {
    AcceptedIsEncoding(buf, Eof);
    var (o, n) := Parse(buf, Eof);
    assert n == |buf| && buf[..n] == buf;
    assert buf[HEADER_LEN..n] == buf[HEADER_LEN..];
  }

  lemma IntakeTakes(link: Link, i: Intake, got: seq<Frame>)
    requires IntakeInv(link, i, got) && Complete(i.buf)
    ensures IntakeInv(link, i.(buf := []), got + [FrameIn(i.buf)])
    ensures i.buf == Encoding(FrameIn(i.buf))
  {
    var f := FrameIn(i.buf);
    CompleteIsEncoding(i.buf);
    EncodeAllSnoc(got, f);
    assert EncodeAll(got + [f]) + [] == EncodeAll(got) + i.buf;
  }

  lemma PushInv(sent: seq<byte>, rest: seq<byte>, n: nat)
    requires n <= |rest|
    ensures (sent + rest[..n]) + rest[n..] == sent + rest
  {
  }

  lemma WriterBeginPreserves(c: Config, s: State, s': State, ts: u64)
    requires c.Valid() && WriterInv(c, s) && WriterBegin(c, s, s', ts)
    ensures WriterInv(c, s')
  {
    var f := s'.frames[|s.frames|];
    EncodeAllSnoc(s.frames, f);
    assert s.up.sent + s.unsent == s.up.sent;
  }

  lemma WriterPushPreserves(c: Config, s: State, s': State, n: nat)
    requires c.Valid() && WriterInv(c, s) && WriterPush(s, s', n)
    ensures WriterInv(c, s')
  {
    PushInv(s.up.sent, s.unsent, n);
  }

  lemma WriterPreserves(c: Config, s: State, s': State)
    requires c.Valid() && Inv(c, s) && WriterStep(c, s, s')
    ensures Inv(c, s')
  {
    if ts: u64 :| WriterBegin(c, s, s', ts) {
      WriterBeginPreserves(c, s, s', ts);
    } else if n: nat :| WriterPush(s, s', n) {
      WriterPushPreserves(c, s, s', n);
    }
    IntakeGrows(s.up, s'.up, s.sIn, s.echoed);
  }

  lemma ServerPreserves(c: Config, s: State, s': State)
    requires c.Valid() && Inv(c, s) && ServerStep(s, s')
    ensures Inv(c, s')
  {
    if n: nat :| ServerDeliver(s, s', n) {
      IntakeDelivers(s.up, s.sIn, s'.sIn, n, s.echoed);
    } else if n: nat :| ServerPush(s, s', n) {
      PushInv(s.down.sent, s.unechoed, n);
      IntakeGrows(s.down, s'.down, s.rIn, s.accepted);
    } else if ServerTake(s, s') {
      IntakeTakes(s.up, s.sIn, s.echoed);
      EncodeAllSnoc(s.echoed, FrameIn(s.sIn.buf));
      assert s.down.sent + [] == s.down.sent;
    } else if ServerEnd(s, s') {
      IntakeGrows(s.down, s'.down, s.rIn, s.accepted);
    }
  }

  lemma ReaderPreserves(c: Config, s: State, s': State)
    requires c.Valid() && Inv(c, s) && ReaderStep(s, s')
    ensures Inv(c, s')
  {
    if n: nat :| ReaderDeliver(s, s', n) {
      IntakeDelivers(s.down, s.rIn, s'.rIn, n, s.accepted);
    } else if ReaderTake(s, s') {
      IntakeTakes(s.down, s.rIn, s.accepted);
      EncodeAllSnoc(s.accepted, FrameIn(s.rIn.buf));
    }
  }

  lemma CutPreserves(c: Config, s: State, s': State)
    requires Inv(c, s) && Cut(s, s')
    ensures Inv(c, s')
  {
  }

  lemma NextPreserves(c: Config, s: State, s': State)
    requires c.Valid() && Inv(c, s) && Next(c, s, s')
    ensures Inv(c, s')
  {
    hide Inv, WriterStep, ServerStep, ReaderStep, Cut;
    if WriterStep(c, s, s') {
      WriterPreserves(c, s, s');
    } else if ServerStep(s, s') {
      ServerPreserves(c, s, s');
    } else if ReaderStep(s, s') {
      ReaderPreserves(c, s, s');
    } else {
      CutPreserves(c, s, s');
    }
  }

  lemma {:induction false} RunInv(c: Config, run: seq<State>, i: nat)
    requires c.Valid() && IsRun(c, run) && i < |run|
    ensures Inv(c, run[i])
  {
    hide Inv, Next, Init;
    if i == 0 {
      InitInv(c, run[0]);
    } else {
      RunInv(c, run, i - 1);
      assert StepAt(c, run, i);
      NextPreserves(c, run[i - 1], run[i]);
    }
  }

  // ------------------------------------------------------------------ safety

  /** The frames whose every byte the writer has put into the stream. */
  function Written(s: State): (w: nat)
    ensures w <= |s.frames|
  {
    Contained(s.frames, |s.up.sent|)
  }

  lemma EncodedSizeGrows(a: seq<Frame>, b: seq<Frame>)
    requires a <= b
    ensures EncodedSize(a) <= EncodedSize(b)
  {
    EncodeAllAppend(a, b[|a|..]);
    assert b == a + b[|a|..];
  }

  /** What a reader has accepted off a link is a prefix of what was encoded into it. */
  lemma IntakePrefix(link: Link, i: Intake, got: seq<Frame>, rest: seq<byte>, fs: seq<Frame>)
    requires IntakeInv(link, i, got)
    requires link.sent + rest == EncodeAll(fs)
    requires forall j :: 0 <= j < |fs| ==> |fs[j].payload| < 0x1_0000_0000
    ensures got <= fs[..Contained(fs, |link.sent|)]
  {
    assert EncodeAll(got) + i.buf <= link.sent;
    assert EncodeAll(got) + i.buf <= EncodeAll(fs);
    PrefixOfEncoding(got, i.buf, fs);
    assert got == fs[..|got|];
    ContainedIsMaximal(fs, |link.sent|, |got|);
  }

  ghost predicate Safe(c: Config, s: State) {
    && s.accepted <= s.echoed <= s.frames[..Written(s)]
    && (forall i :: 0 <= i < |s.accepted| ==>
          s.accepted[i] == Frame(i % 0x1_0000_0000_0000_0000, s.frames[i].sendTs, c.payload))
    && s.bytesRecv <= s.bytesSent + c.FrameLen()
  }

  lemma InvSafe(c: Config, s: State)
    requires c.Valid() && Inv(c, s)
    ensures Safe(c, s)
  {
    IntakePrefix(s.up, s.sIn, s.echoed, s.unsent, s.frames);
    IntakePrefix(s.down, s.rIn, s.accepted, s.unechoed, s.echoed);
    assert s.accepted <= s.frames;
    EncodedSizeGrows(s.accepted, s.frames);
  }

  /** In every interleaving, with the bytes split anywhere and either direction cut anywhere:
      the reader accepts exactly the first so many fully written frames, in order and unchanged, and the
      bytes it has counted run ahead of those the writer has counted by at most one frame. */
  lemma EchoSafety(c: Config, run: seq<State>, i: nat)
    requires c.Valid() && IsRun(c, run) && i < |run|
    ensures Safe(c, run[i])
  {
    RunInv(c, run, i);
    InvSafe(c, run[i]);
  }

  /** With a payload over the cap the server refuses the first frame: nothing ever comes back. */
  lemma OversizedNothingEchoed(c: Config, run: seq<State>, i: nat)
    requires c.Valid() && IsRun(c, run) && i < |run| && |c.payload| > MAX_PAYLOAD
    ensures run[i].echoed == [] && run[i].accepted == [] && run[i].bytesRecv == 0
  {
    RunInv(c, run, i);
    InvSafe(c, run[i]);
  }

  /** A partial read at the front of encoded frames shows the first frame's own header. */
  lemma PartialHeader(fs: seq<Frame>, buf: seq<byte>)
    requires buf <= EncodeAll(fs) && |buf| >= HEADER_LEN
    ensures fs != []
    ensures MagicOf(buf) == MAGIC && LenOf(buf) == |fs[0].payload| % 0x1_0000_0000
  {
    var all := EncodeAll(fs);
    HeaderFields(fs[0], EncodeAll(fs[1..]));
    assert buf[0..4] == all[0..4];
    assert buf[4..8] == all[4..8];
  }

  /** The unfinished frame in a reader's buffer starts what is left of the link once the
      accepted frames are taken away, and is all of it when the reader has every byte. */
  lemma IntakeFront(link: Link, i: Intake, got: seq<Frame>, rest: seq<byte>, fs: seq<Frame>)
    requires IntakeInv(link, i, got)
    requires link.sent + rest == EncodeAll(fs)
    requires forall j :: 0 <= j < |fs| ==> |fs[j].payload| < 0x1_0000_0000
    ensures got <= fs
    ensures i.buf <= EncodeAll(fs[|got|..])
    ensures rest == [] && i.pos == |link.sent| ==> i.buf == EncodeAll(fs[|got|..])
  {
    IntakePrefix(link, i, got, rest, fs);
    EncodeAllAppend(got, fs[|got|..]);
    assert fs == got + fs[|got|..];
    CancelPrefix(EncodeAll(got), i.buf, link.sent, i.pos, rest, EncodeAll(fs[|got|..]));
  }

  lemma CancelPrefix(g: seq<byte>, buf: seq<byte>, sent: seq<byte>, pos: nat, rest: seq<byte>, tail: seq<byte>)
    requires pos <= |sent| && sent[..pos] == g + buf
    requires sent + rest == g + tail
    ensures buf <= tail
    ensures rest == [] && pos == |sent| ==> buf == tail
  {
    assert tail == (g + tail)[|g|..];
    assert (sent + rest)[..pos] == g + buf;
    assert tail[..|buf|] == (g + tail)[|g|..pos];
  }

  lemma NotRefused(link: Link, i: Intake, got: seq<Frame>, rest: seq<byte>, fs: seq<Frame>)
    requires IntakeInv(link, i, got) && AllCapped(fs)
    requires link.sent + rest == EncodeAll(fs)
    ensures !Refused(i.buf)
  {
    IntakeFront(link, i, got, rest, fs);
    var left := fs[|got|..];
    assert AllCapped(left);
    CappedHeader(left, i.buf);
  }

  lemma CappedHeader(left: seq<Frame>, buf: seq<byte>)
    requires AllCapped(left) && buf <= EncodeAll(left)
    ensures !Refused(buf)
  {
    if |buf| >= HEADER_LEN {
      PartialHeader(left, buf);
    }
  }

  /** Neither end ever meets a header it refuses, when the payload is within the cap. */
  lemma NothingRefused(c: Config, s: State)
    requires c.Valid() && Inv(c, s) && |c.payload| <= MAX_PAYLOAD
    ensures !Refused(s.sIn.buf) && !Refused(s.rIn.buf)
  {
    NotRefused(s.up, s.sIn, s.echoed, s.unsent, s.frames);
    NotRefused(s.down, s.rIn, s.accepted, s.unechoed, s.echoed);
  }

  // ------------------------------------------------------------------ a run without faults

  ghost predicate Faultless(s: State) { !s.up.cut && !s.down.cut }

  /** On a connection that is never cut, each actor outlives the ones it hears from, and
      stops only when it has heard everything. */
  ghost predicate OrderlyInv(c: Config, s: State) {
    && (s.up.finished <==> s.wpc == WriterDone)
    && (s.down.finished <==> s.spc == ServerDone)
    && s.bytesEchoed <= EncodedSize(s.echoed)
    && (s.spc == Awaiting ==> s.bytesEchoed == EncodedSize(s.echoed))
    && (s.spc == Echoing ==> s.bytesEchoed + LastSize(s.echoed) == EncodedSize(s.echoed))
    && (s.spc.Echoed? ==> s.bytesEchoed + s.spc.len == EncodedSize(s.echoed))
    && (s.wpc == WriterDone ==> s.unsent == [] && s.bytesSent == EncodedSize(s.frames))
    && (s.spc == ServerDone ==>
          s.wpc == WriterDone && s.echoed == s.frames && s.unechoed == [] && s.bytesEchoed == EncodedSize(s.echoed))
    && (s.rpc == ReaderDone ==> s.spc == ServerDone && s.accepted == s.echoed)
  }

  function LastSize(fs: seq<Frame>): nat {
    if fs == [] then 0 else |Encoding(fs[|fs| - 1])|
  }

  /** A reader that waits at the end of a link which holds whole frames has taken them all. */
  lemma EndTakesAll(link: Link, i: Intake, got: seq<Frame>, fs: seq<Frame>)
    requires IntakeInv(link, i, got) && link.sent + [] == EncodeAll(fs)
    requires forall j :: 0 <= j < |fs| ==> |fs[j].payload| < 0x1_0000_0000
    requires Need(i.buf) > 0 && i.pos == |link.sent|
    ensures got == fs
  {
    IntakeFront(link, i, got, [], fs);
    if |got| < |fs| {
      WholeFrameNeedsNothing(fs[|got|..], i.buf);
    }
  }

  lemma WholeFrameNeedsNothing(left: seq<Frame>, buf: seq<byte>)
    requires left != [] && |left[0].payload| < 0x1_0000_0000
    requires buf == EncodeAll(left)
    ensures Need(buf) == 0
  {
    assert |buf| >= |Encoding(left[0])|;
    PartialHeader(left, buf);
  }

  lemma OrderlyServer(c: Config, s: State, s': State)
    requires c.Valid() && |c.payload| <= MAX_PAYLOAD
    requires Inv(c, s) && OrderlyInv(c, s) && ServerStep(s, s') && Faultless(s')
    ensures OrderlyInv(c, s')
  {
    if n: nat :| ServerDeliver(s, s', n) {
    } else if n: nat :| ServerPush(s, s', n) {
    } else if ServerTake(s, s') {
      EncodeAllSnoc(s.echoed, FrameIn(s.sIn.buf));
    } else if ServerEnd(s, s') {
      NothingRefused(c, s);
      assert s.up.sent + [] == s.up.sent;
      EndTakesAll(s.up, s.sIn, s.echoed, s.frames);
    }
  }

  lemma OrderlyReader(c: Config, s: State, s': State)
    requires c.Valid() && |c.payload| <= MAX_PAYLOAD
    requires Inv(c, s) && OrderlyInv(c, s) && ReaderStep(s, s') && Faultless(s')
    ensures OrderlyInv(c, s')
  {
    if ReaderEnd(s, s') {
      NothingRefused(c, s);
      assert s.down.sent + [] == s.down.sent;
      EndTakesAll(s.down, s.rIn, s.accepted, s.echoed);
    } else if ReaderTake(s, s') {
      assert s.rpc == Reading;
    }
  }

  lemma OrderlyWriter(c: Config, s: State, s': State)
    requires c.Valid() && |c.payload| <= MAX_PAYLOAD
    requires Inv(c, s) && OrderlyInv(c, s) && WriterStep(c, s, s') && Faultless(s')
    ensures OrderlyInv(c, s')
  {
    if ts: u64 :| WriterBegin(c, s, s', ts) {
    } else if n: nat :| WriterPush(s, s', n) {
    }
  }

  lemma OrderlyNext(c: Config, s: State, s': State)
    requires c.Valid() && |c.payload| <= MAX_PAYLOAD
    requires Inv(c, s) && OrderlyInv(c, s) && Next(c, s, s') && Faultless(s')
    ensures OrderlyInv(c, s')
  {
    if Cut(s, s') {
      return;
    }
    hide Inv, OrderlyInv, WriterStep, ServerStep, ReaderStep, Cut;
    if WriterStep(c, s, s') {
      OrderlyWriter(c, s, s');
    } else if ServerStep(s, s') {
      OrderlyServer(c, s, s');
    } else if ReaderStep(s, s') {
      OrderlyReader(c, s, s');
    }
  }

  /** A cut is never undone. */
  lemma FaultlessBefore(c: Config, s: State, s': State)
    requires Next(c, s, s') && Faultless(s')
    ensures Faultless(s)
  {
  }

  lemma InitOrderly(c: Config, s: State)
    requires Init(s)
    ensures OrderlyInv(c, s)
  {
  }

  lemma {:induction false} OrderlyRun(c: Config, run: seq<State>, i: nat)
    requires c.Valid() && IsRun(c, run) && i < |run|
    requires |c.payload| <= MAX_PAYLOAD && Faultless(run[i])
    ensures OrderlyInv(c, run[i])
  {
    hide Inv, OrderlyInv, Next, Init, Faultless;
    if i == 0 {
      InitOrderly(c, run[0]);
    } else {
      assert StepAt(c, run, i);
      FaultlessBefore(c, run[i - 1], run[i]);
      OrderlyRun(c, run, i - 1);
      RunInv(c, run, i - 1);
      OrderlyNext(c, run[i - 1], run[i]);
    }
  }

  /** When a flow that was never cut is over, every frame sent has come back, and the three
      byte counters agree. */
  lemma CleanRunIsLossless(c: Config, run: seq<State>, i: nat)
    requires c.Valid() && IsRun(c, run) && i < |run|
    requires |c.payload| <= MAX_PAYLOAD && Faultless(run[i]) && run[i].rpc == ReaderDone
    ensures var s := run[i];
            && s.accepted == s.frames
            && s.bytesRecv == s.bytesSent == s.bytesEchoed
  {
    RunInv(c, run, i);
    OrderlyRun(c, run, i);
  }

  // ------------------------------------------------------------------ progress

  ghost predicate Over(s: State) {
    s.wpc == WriterDone && s.spc == ServerDone && s.rpc == ReaderDone
  }

  ghost predicate FinishesInStep(s: State) {
    && (s.up.finished <==> s.wpc == WriterDone) && (s.down.finished <==> s.spc == ServerDone)
    && (s.rpc == ReaderDone ==> s.down.cut || s.down.finished || Refused(s.rIn.buf))
  }

  lemma FinishedKept(c: Config, s: State, s': State)
    requires FinishesInStep(s) && Next(c, s, s')
    ensures FinishesInStep(s')
  {
  }

  lemma {:induction false} FinishedRun(c: Config, run: seq<State>, i: nat)
    requires c.Valid() && IsRun(c, run) && i < |run|
    ensures FinishesInStep(run[i])
  {
    hide Next;
    if i > 0 {
      FinishedRun(c, run, i - 1);
      assert StepAt(c, run, i);
      FinishedKept(c, run[i - 1], run[i]);
    }
  }

  /** Each direction holds at most so many bytes that its reader has not taken: more cannot be pushed. */
  ghost predicate Fits(upRoom: nat, downRoom: nat, s: State) {
    |s.up.sent| <= s.sIn.pos + upRoom && |s.down.sent| <= s.rIn.pos + downRoom
  }

  /** A reader that waits can be given a byte, or has a frame or a reason to stop, when the sender has finished or
      there is a byte it has not taken. */
  lemma IntakeMoves(link: Link, i: Intake, got: seq<Frame>)
    requires IntakeInv(link, i, got) && (link.finished || i.pos < |link.sent|)
    ensures Refused(i.buf) || Complete(i.buf) || AtEnd(link, i)
            || Deliver(link, i, Intake(i.pos + 1, i.buf + link.sent[i.pos..i.pos + 1]), 1)
  {
  }

  /** The writer is in `write_all`, and can neither put a byte into its link nor fail. */
  ghost predicate WriterBlocked(upRoom: nat, s: State) {
    s.wpc == Sending && !s.up.cut && s.spc != ServerDone && |s.up.sent| == s.sIn.pos + upRoom
  }

  ghost predicate ServerBlocked(downRoom: nat, s: State) {
    s.spc == Echoing && !s.down.cut && |s.down.sent| == s.rIn.pos + downRoom
  }

  /** No reachable state is stuck, however little each direction can hold: until all three actors are done, one of them
      has a step that leaves both directions within their room.  So the back-pressure of the two directions never closes
      into a circle. */
  lemma NeverStuck(c: Config, run: seq<State>, i: nat, upRoom: nat, downRoom: nat) returns (s': State)
    requires c.Valid() && IsRun(c, run) && i < |run| && !Over(run[i])
    requires upRoom > 0 && downRoom > 0 && Fits(upRoom, downRoom, run[i])
    ensures Next(c, run[i], s') && s' != run[i] && Fits(upRoom, downRoom, s')
  {
    var s := run[i];
    hide Next, Inv, Fits, WriterStep, ServerStep, ReaderStep, Safe;
    RunInv(c, run, i);
    FinishedRun(c, run, i);
    ReaderNeverRefusesWhileEchoing(c, run, i);
    if s.wpc != WriterDone && !WriterBlocked(upRoom, s) {
      s' := WriterMove(c, s, upRoom, downRoom);
    } else if s.spc != ServerDone && !ServerBlocked(downRoom, s) {
      s' := ServerMove(c, s, upRoom, downRoom);
    } else {
      s' := ReaderMove(c, s, upRoom, downRoom);
    }
    AStep(c, s, s');
  }

  lemma AStep(c: Config, s: State, s': State)
    requires WriterStep(c, s, s') || ServerStep(s, s') || ReaderStep(s, s')
    ensures Next(c, s, s')
  {
    hide WriterStep, ServerStep, ReaderStep;
  }

  /** What the reader takes is never refused while the server has something to echo. */
  lemma ReaderNeverRefusesWhileEchoing(c: Config, run: seq<State>, i: nat)
    requires c.Valid() && IsRun(c, run) && i < |run|
    ensures run[i].spc == Echoing ==> !Refused(run[i].rIn.buf)
  {
    hide Next, Refused;
    RunInv(c, run, i);
    if |c.payload| <= MAX_PAYLOAD {
      NothingRefused(c, run[i]);
    } else {
      OversizedNothingEchoed(c, run, i);
    }
  }

  lemma WriterMove(c: Config, s: State, upRoom: nat, downRoom: nat) returns (s': State)
    requires c.Valid() && Inv(c, s) && s.wpc != WriterDone && !WriterBlocked(upRoom, s) && Fits(upRoom, downRoom, s)
    ensures WriterStep(c, s, s') && s' != s && Fits(upRoom, downRoom, s')
  {
    if s.wpc == Top {
      s' := s.(wpc := WriterDone, up := s.up.(finished := true));
      assert WriterStop(s, s');
    } else if s.wpc == Flushed {
      s' := s.(wpc := Top, bytesSent := s.bytesSent + c.FrameLen());
      assert WriterCount(c, s, s');
    } else if s.up.cut || s.spc == ServerDone {
      s' := s.(wpc := WriterDone, up := s.up.(finished := true));
      assert WriterFail(s, s');
    } else {
      s' := s.(wpc := if 1 == |s.unsent| then Flushed else Sending,
               up := s.up.(sent := s.up.sent + s.unsent[..1]), unsent := s.unsent[1..]);
      assert WriterPush(s, s', 1);
    }
  }

  lemma ServerMove(c: Config, s: State, upRoom: nat, downRoom: nat) returns (s': State)
    requires c.Valid() && Inv(c, s) && s.spc != ServerDone && !ServerBlocked(downRoom, s) && Fits(upRoom, downRoom, s)
    requires s.up.finished || s.sIn.pos < |s.up.sent|
    ensures ServerStep(s, s') && s' != s && Fits(upRoom, downRoom, s')
  {
    if s.spc.Echoed? {
      s' := s.(spc := Awaiting, bytesEchoed := s.bytesEchoed + s.spc.len);
      assert ServerCount(s, s');
    } else if s.spc == Echoing && s.down.cut {
      s' := s.(spc := ServerDone, down := s.down.(finished := true));
      assert ServerEnd(s, s');
    } else if s.spc == Echoing {
      s' := s.(spc := if 1 == |s.unechoed| then Echoed(|Encoding(s.echoed[|s.echoed| - 1])|) else Echoing,
               down := s.down.(sent := s.down.sent + s.unechoed[..1]), unechoed := s.unechoed[1..]);
      assert ServerPush(s, s', 1);
    } else {
      s' := ServerReads(c, s);
    }
  }

  lemma ServerReads(c: Config, s: State) returns (s': State)
    requires c.Valid() && Inv(c, s) && s.spc == Awaiting && (s.up.finished || s.sIn.pos < |s.up.sent|)
    ensures ServerStep(s, s') && s' != s && s'.up.sent == s.up.sent && s'.down.sent == s.down.sent
    ensures s'.sIn.pos >= s.sIn.pos && s'.rIn.pos == s.rIn.pos
  {
    IntakeMoves(s.up, s.sIn, s.echoed);
    if Complete(s.sIn.buf) {
      var f := FrameIn(s.sIn.buf);
      s' := s.(spc := Echoing, sIn := s.sIn.(buf := []), echoed := s.echoed + [f], unechoed := Encoding(f));
      assert ServerTake(s, s');
    } else if Refused(s.sIn.buf) || AtEnd(s.up, s.sIn) {
      s' := s.(spc := ServerDone, down := s.down.(finished := true));
      assert ServerEnd(s, s');
    } else {
      s' := s.(sIn := Intake(s.sIn.pos + 1, s.sIn.buf + s.up.sent[s.sIn.pos..s.sIn.pos + 1]));
      assert ServerDeliver(s, s', 1);
    }
  }

  lemma ReaderMove(c: Config, s: State, upRoom: nat, downRoom: nat) returns (s': State)
    requires c.Valid() && Inv(c, s) && s.rpc != ReaderDone && Fits(upRoom, downRoom, s)
    requires s.down.finished || s.rIn.pos < |s.down.sent|
    ensures ReaderStep(s, s') && s' != s && Fits(upRoom, downRoom, s')
  {
    if s.rpc.Counting? {
      s' := s.(rpc := Reading, bytesRecv := s.bytesRecv + s.rpc.len);
      assert ReaderCount(s, s');
    } else {
      IntakeMoves(s.down, s.rIn, s.accepted);
      if Complete(s.rIn.buf) {
        var f := FrameIn(s.rIn.buf);
        s' := s.(rpc := Counting(HEADER_LEN + |f.payload|), rIn := s.rIn.(buf := []), accepted := s.accepted + [f]);
        assert ReaderTake(s, s');
      } else if Refused(s.rIn.buf) || AtEnd(s.down, s.rIn) {
        s' := s.(rpc := ReaderDone);
        assert ReaderEnd(s, s');
      } else {
        s' := s.(rIn := Intake(s.rIn.pos + 1, s.rIn.buf + s.down.sent[s.rIn.pos..s.rIn.pos + 1]));
        assert ReaderDeliver(s, s', 1);
      }
    }
  }

  // ------------------------------------------------------------------ the end

  ghost predicate Positions(s: State) { s.sIn.pos <= |s.up.sent| && s.rIn.pos <= |s.down.sent| }

  /** What is still to be done once the writer is done: each byte counts for the hands it has still to pass through, each
      actor for the steps of its present frame, and each direction that can still be cut for one. */
  ghost function Left(s: State): nat
    requires Positions(s)
  {
    5 * (|s.up.sent| - s.sIn.pos) + 4 * |s.sIn.buf| + 3 * |s.unechoed| + 2 * (|s.down.sent| - s.rIn.pos) + |s.rIn.buf|
    + (match s.spc case Awaiting => 1 case Echoing => 3 case Echoed(_) => 2 case ServerDone => 0)
    + (match s.rpc case Reading => 1 case Counting(_) => 2 case ReaderDone => 0)
    + (if s.up.cut then 0 else 1) + (if s.down.cut then 0 else 1)
  }

  ghost predicate Less(s: State, s': State)
    requires Positions(s)
  {
    Positions(s') && s'.wpc == s.wpc && (s' != s ==> Left(s') < Left(s))
  }

  lemma ServerLess(s: State, s': State)
    requires Positions(s) && ServerStep(s, s')
    ensures Less(s, s')
  {
    if n: nat :| ServerDeliver(s, s', n) {
    } else if n: nat :| ServerPush(s, s', n) {
    } else if ServerTake(s, s') {
    } else if ServerCount(s, s') {
    } else {
    }
  }

  lemma ReaderLess(s: State, s': State)
    requires Positions(s) && ReaderStep(s, s')
    ensures Less(s, s')
  {
    if n: nat :| ReaderDeliver(s, s', n) {
    } else if ReaderTake(s, s') {
    } else if ReaderCount(s, s') {
    } else {
    }
  }

  lemma CutLess(s: State, s': State)
    requires Positions(s) && Cut(s, s')
    ensures Less(s, s')
  {
  }

  lemma WriterIsDone(c: Config, s: State, s': State)
    requires s.wpc == WriterDone
    ensures !WriterStep(c, s, s')
  {
  }

  /** Once the writer is done, every step that changes anything leaves less to be done. */
  lemma StepLess(c: Config, s: State, s': State)
    requires Inv(c, s) && s.wpc == WriterDone && Next(c, s, s')
    ensures Positions(s) && Less(s, s')
  {
    assert Positions(s);
    hide Inv, WriterStep, ServerStep, ReaderStep, Cut, Less;
    WriterIsDone(c, s, s');
    if ServerStep(s, s') {
      ServerLess(s, s');
    } else if ReaderStep(s, s') {
      ReaderLess(s, s');
    } else {
      CutLess(s, s');
    }
  }

  /** The steps between two states of a run that change anything. */
  function Changes(run: seq<State>, i: nat, j: nat): nat
    requires i <= j < |run|
  {
    if i == j then 0 else Changes(run, i, j - 1) + if run[j] != run[j - 1] then 1 else 0
  }

  /** The run ends: after the writer is done at most `Left` steps can change anything. */
  lemma {:induction false} StepsAreBounded(c: Config, run: seq<State>, i: nat, j: nat)
    requires c.Valid() && IsRun(c, run) && i <= j < |run| && run[i].wpc == WriterDone
    ensures run[j].wpc == WriterDone && Positions(run[i]) && Positions(run[j])
    ensures Left(run[j]) + Changes(run, i, j) <= Left(run[i])
    decreases j
  {
    hide Inv, Next, Left;
    if i == j {
      RunInv(c, run, i);
      InvPositions(c, run[i]);
    } else {
      StepsAreBounded(c, run, i, j - 1);
      RunInv(c, run, j - 1);
      assert StepAt(c, run, j);
      StepLess(c, run[j - 1], run[j]);
    }
  }

  lemma InvPositions(c: Config, s: State)
    requires Inv(c, s)
    ensures Positions(s)
  {
  }

  lemma Extended(c: Config, run: seq<State>, s: State)
    requires IsRun(c, run) && Next(c, run[|run| - 1], s)
    ensures IsRun(c, run + [s])
  {
    var run' := run + [s];
    hide Next;
    forall i | 0 < i < |run'| ensures StepAt(c, run', i) {
      if i < |run| {
        assert StepAt(c, run, i);
      }
    }
  }

  /** A step that is not the transport's, once the writer is done. */
  lemma Onward(c: Config, s: State) returns (s': State)
    requires c.Valid() && Inv(c, s) && FinishesInStep(s) && s.wpc == WriterDone && !Over(s)
    ensures Next(c, s, s') && s' != s && (Faultless(s) ==> Faultless(s'))
  {
    hide Next, Inv, WriterStep, ServerStep, ReaderStep, Fits;
    var room := 1 + |s.up.sent| + |s.down.sent|;
    EnoughRoom(s, room);
    if s.spc != ServerDone {
      s' := ServerMove(c, s, room, room);
      ServerCuts(s, s');
    } else {
      s' := ReaderMove(c, s, room, room);
      ReaderCuts(s, s');
    }
    AStep(c, s, s');
  }

  lemma EnoughRoom(s: State, room: nat)
    requires room == 1 + |s.up.sent| + |s.down.sent|
    ensures Fits(room, room, s) && !ServerBlocked(room, s)
  {
  }

  lemma ServerCuts(s: State, s': State)
    requires ServerStep(s, s')
    ensures s'.up.cut == s.up.cut && s'.down.cut == s.down.cut
  {
  }

  lemma ReaderCuts(s: State, s': State)
    requires ReaderStep(s, s')
    ensures s'.up.cut == s.up.cut && s'.down.cut == s.down.cut
  {
  }

  ghost function End(run: seq<State>): State
    requires run != []
  {
    run[|run| - 1]
  }

  lemma Reached(c: Config, run: seq<State>)
    requires c.Valid() && IsRun(c, run)
    ensures Inv(c, End(run)) && FinishesInStep(End(run)) && Positions(End(run))
  {
    hide Inv, IsRun, FinishesInStep;
    assert run != [] by { RunsOn(c, run); }
    RunInv(c, run, |run| - 1);
    FinishedRun(c, run, |run| - 1);
    InvPositions(c, run[|run| - 1]);
  }

  lemma RunsOn(c: Config, run: seq<State>)
    requires IsRun(c, run)
    ensures run != []
  {
  }

  lemma Lossless(c: Config, run: seq<State>)
    requires c.Valid() && IsRun(c, run) && |c.payload| <= MAX_PAYLOAD && Faultless(End(run)) && Over(End(run))
    ensures End(run).accepted == End(run).frames && End(run).bytesRecv == End(run).bytesSent == End(run).bytesEchoed
  {
    RunsOn(c, run);
    hide IsRun, Faultless;
    CleanRunIsLossless(c, run, |run| - 1);
  }

  lemma EndOfMore(run: seq<State>, s: State)
    ensures End(run + [s]) == s && run <= run + [s]
  {
  }

  lemma {:induction false} FinishesFrom(c: Config, run: seq<State>, left: nat) returns (whole: seq<State>)
    requires c.Valid() && IsRun(c, run) && |c.payload| <= MAX_PAYLOAD
    requires End(run).wpc == WriterDone && Faultless(End(run)) && Positions(End(run)) && left == Left(End(run))
    ensures IsRun(c, whole) && run <= whole && |whole| - |run| <= left
    ensures var s := End(whole);
            Over(s) && Faultless(s) && s.accepted == s.frames && s.bytesRecv == s.bytesSent == s.bytesEchoed
    decreases left, 1
  {
    hide Next, Inv, IsRun, Left, End, Faultless, Over, FinishesInStep, Positions;
    RunsOn(c, run);
    Reached(c, run);
    if Over(End(run)) {
      whole := run;
      Lossless(c, run);
    } else {
      whole := GoesOn(c, run, left);
    }
  }

  lemma GoesOn(c: Config, run: seq<State>, left: nat) returns (whole: seq<State>)
    requires c.Valid() && IsRun(c, run) && |c.payload| <= MAX_PAYLOAD && !Over(End(run))
    requires End(run).wpc == WriterDone && Faultless(End(run)) && Positions(End(run)) && left == Left(End(run))
    ensures IsRun(c, whole) && run <= whole && |whole| - |run| <= left
    ensures var s := End(whole);
            Over(s) && Faultless(s) && s.accepted == s.frames && s.bytesRecv == s.bytesSent == s.bytesEchoed
    decreases left, 0
  {
    hide Next, Inv, IsRun, Left, Faultless, Over, FinishesInStep, Positions;
    RunsOn(c, run);
    Reached(c, run);
    var s := End(run);
    var s' := Onward(c, s);
    StepLess(c, s, s');
    Extended(c, run, s');
    EndOfMore(run, s');
    hide End;
    whole := FinishesFrom(c, run + [s'], Left(s'));
  }

  /** A flow that is not cut and whose writer has stopped does finish: however the run came here, it goes on without a cut to
      its end within `Left` steps, and then every frame sent has come back.  And every way of going on is as
      bounded (`StepsAreBounded`) and stops only at the end (`NeverStuck`). */
  lemma Finishes(c: Config, run: seq<State>) returns (whole: seq<State>)
    requires c.Valid() && IsRun(c, run) && |c.payload| <= MAX_PAYLOAD
    requires End(run).wpc == WriterDone && Faultless(End(run))
    ensures Positions(End(run)) && IsRun(c, whole) && run <= whole && |whole| - |run| <= Left(End(run))
    ensures var s := End(whole);
            Over(s) && Faultless(s) && s.accepted == s.frames && s.bytesRecv == s.bytesSent == s.bytesEchoed
  {
    hide IsRun, Left, End, Faultless, Over, Positions;
    RunsOn(c, run);
    Reached(c, run);
    whole := FinishesFrom(c, run, Left(End(run)));
  }
}
