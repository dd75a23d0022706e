/** The echo server's loops: `tcp_echo` over one connection, and `udp_echo` over the datagrams that reach its socket. */
module EchoServer {
  import opened Basics
  import opened Bytes
  import opened Codec
  import opened FrameStream

  /** The sending half of a connection, which takes `room` bytes in all and then fails. */
  class Sink {
    var written: seq<byte>
    const room: nat

    ghost predicate Valid() reads this { |written| <= room }

    constructor (room: nat)
      ensures Valid() && written == [] && this.room == room
    {
      this.written := [];
      this.room := room;
    }

    /** `write_all`: on failure a part of the bytes may have gone out. */
    method WriteAll(bytes: seq<byte>) returns (ok: bool)
      requires Valid()
      modifies this`written
      ensures Valid()
      ensures ok <==> |old(written)| + |bytes| <= room
      ensures ok ==> written == old(written) + bytes
      ensures !ok ==> written == old(written) + bytes[..room - |old(written)|]
    {
      ok := |written| + |bytes| <= room;
      written := written + if ok then bytes else bytes[..room - |written|];
    }
  }

  class ServeStats {
    var bytesEchoed: nat
    var udpDatagrams: nat

    constructor ()
      ensures bytesEchoed == 0 && udpDatagrams == 0
    {
      bytesEchoed := 0;
      udpDatagrams := 0;
    }
  }

  datatype EchoResult = EchoResult(bytes: seq<byte>, counted: nat, ok: bool)

  /** What the server puts out, and counts, when it reads `b` and can write `room` bytes. */
  function Echo(b: seq<byte>, end: StreamEnd, room: nat): EchoResult {
    var (o, n) := Parse(b, end);
    if o.Got? then
      var e := Encoding(o.frame);
      if |e| <= room then
        var rest := Echo(b[n..], end, room - |e|);
        EchoResult(e + rest.bytes, |e| + rest.counted, rest.ok)
      else EchoResult(e[..room], 0, false)
    else EchoResult([], 0, o == Closed)
  }

  /** With `written` bytes out and `counted` counted, `rest` completes what was to come in all. */
  ghost predicate Completes(written: seq<byte>, counted: nat, rest: EchoResult, bytes: seq<byte>, total: nat, ok: bool) {
    written + rest.bytes == bytes && counted + rest.counted == total && rest.ok == ok
  }

  /** A read of a stream that holds `here` has returned `next`, and left `rest`. */
  ghost predicate Read(here: seq<byte>, end: StreamEnd, next: ReadOutcome, rest: seq<byte>) {
    var (o, n) := Parse(here, end);
    next == o && rest == here[n..]
  }

  lemma EchoBegins(written: seq<byte>, counted: nat, all: EchoResult)
    ensures Completes(written, counted, all, written + all.bytes, counted + all.counted, all.ok)
  {
  }

  /** One more frame goes out whole. */
  lemma EchoStep(here: seq<byte>, end: StreamEnd, next: ReadOutcome, rest: seq<byte>, room: nat,
                 written: seq<byte>, counted: nat, bytes: seq<byte>, total: nat, ok: bool)
    requires Completes(written, counted, Echo(here, end, room), bytes, total, ok)
    requires Read(here, end, next, rest) && next.Got? && |Encoding(next.frame)| <= room
    ensures var e := Encoding(next.frame);
            Completes(written + e, counted + |e|, Echo(rest, end, room - |e|), bytes, total, ok)
    ensures |rest| < |here|
  {
    Associate(written, Encoding(next.frame), Echo(rest, end, room - |Encoding(next.frame)|).bytes);
  }

  /** How the echo stops: at a write that fails, or with the outcome of the last read. */
  lemma EchoStops(here: seq<byte>, end: StreamEnd, next: ReadOutcome, rest: seq<byte>, room: nat,
                  written: seq<byte>, counted: nat, bytes: seq<byte>, total: nat, ok: bool)
    requires Completes(written, counted, Echo(here, end, room), bytes, total, ok) && Read(here, end, next, rest)
    ensures !next.Got? ==> written == bytes && counted == total && ok == (next == Closed)
    ensures next.Got? && |Encoding(next.frame)| > room ==>
              written + Encoding(next.frame)[..room] == bytes && counted == total && !ok
  {
  }

  /** A frame is written, and counted when it is out whole. */
  method WriteFrame(w: Sink, stats: ServeStats, frame: Frame) returns (ok: bool)
    requires w.Valid()
    modifies w`written, stats`bytesEchoed
    ensures w.Valid()
    ensures ok <==> |Encoding(frame)| <= w.room - |old(w.written)|
    ensures ok ==> w.written == old(w.written) + Encoding(frame) && stats.bytesEchoed == old(stats.bytesEchoed) + |Encoding(frame)|
    ensures !ok ==> w.written == old(w.written) + Encoding(frame)[..w.room - |old(w.written)|]
    ensures !ok ==> stats.bytesEchoed == old(stats.bytesEchoed)
  {
    var buf := Encode(frame);
    ok := w.WriteAll(buf);
    if ok {
      stats.bytesEchoed := stats.bytesEchoed + (HEADER_LEN + |frame.payload|);
    }
  }

  method TcpEcho(r: Source, w: Sink, stats: ServeStats) returns (ok: bool)
    requires r.Valid() && w.Valid()
    modifies r, w`written, stats`bytesEchoed
    ensures r.Valid() && w.Valid()
    ensures var echo := Echo(old(r.Remaining()), r.end, w.room - |old(w.written)|);
            && w.written == old(w.written) + echo.bytes
            && stats.bytesEchoed == old(stats.bytesEchoed) + echo.counted
            && ok == echo.ok
    ensures ok <==> Served(old(r.Remaining()), r.end, w.room - |old(w.written)|)
  {
    hide Source.Valid, Source.Remaining, Echo, Parse, Encoding, Completes, Served, Reports;
    OkIffServed(r.Remaining(), r.end, w.room - |w.written|);
    ghost var here := r.Remaining();
    ghost var all := Echo(here, r.end, w.room - |w.written|);
    ghost var bytes, total := w.written + all.bytes, stats.bytesEchoed + all.counted;
    EchoBegins(w.written, stats.bytesEchoed, all);
    var next := r.ReadFrame();
    ghost var rest := r.Remaining();
    while next.Got?
      invariant r.Valid() && w.Valid()
      invariant Read(here, r.end, next, rest) && rest == r.Remaining()
      invariant Completes(w.written, stats.bytesEchoed, Echo(here, r.end, w.room - |w.written|), bytes, total, all.ok)
      decreases |here|
    {
      ghost var room, written, counted := w.room - |w.written|, w.written, stats.bytesEchoed;
      EchoStops(here, r.end, next, rest, room, written, counted, bytes, total, all.ok);
      var sent := WriteFrame(w, stats, next.frame);
      if !sent {
        return false;
      }
      EchoStep(here, r.end, next, rest, room, written, counted, bytes, total, all.ok);
      here := rest;
      next := r.ReadFrame();
      rest := r.Remaining();
    }
    EchoStops(here, r.end, next, rest, w.room - |w.written|, w.written, stats.bytesEchoed, bytes, total, all.ok);
    return next == Closed;
  }

  /** What the reading loop accepts is, byte for byte, the front of what it read. */
  lemma {:induction false} AcceptedBytes(b: seq<byte>, end: StreamEnd)
    ensures EncodeAll(ParseAll(b, end).0) <= b
  {
    var (o, n) := Parse(b, end);
    if o.Got? {
      AcceptedIsEncoding(b, end);
      AcceptedBytes(b[n..], end);
      var fs := ParseAll(b[n..], end).0;
      assert ([o.frame] + fs)[1..] == fs;
      assert b == b[..n] + b[n..];
    }
  }

  /** The output is the input, cut after the last whole frame accepted or where the writing fails; the frames
      that went out whole are counted; all is well when the input closed cleanly and everything went out. */
  ghost predicate Verbatim(b: seq<byte>, fs: seq<Frame>, last: ReadOutcome, room: nat, echo: EchoResult) {
    && EncodeAll(fs) <= b
    && echo.bytes == b[..Min(room, |EncodeAll(fs)|)]
    && echo.counted == |EncodeAll(fs[..Contained(fs, room)])|
    && (echo.ok <==> last == Closed && |EncodeAll(fs)| <= room)
  }

  lemma VerbatimStep(f: Frame, tail: seq<byte>, rest: seq<Frame>, last: ReadOutcome, room: nat, echo: EchoResult)
    requires |Encoding(f)| <= room && Verbatim(tail, rest, last, room - |Encoding(f)|, echo)
    ensures Verbatim(Encoding(f) + tail, [f] + rest, last, room,
                     EchoResult(Encoding(f) + echo.bytes, |Encoding(f)| + echo.counted, echo.ok))
  {
    var e, fs := Encoding(f), [f] + rest;
    assert fs[1..] == rest;
    TakeThrough(e, tail, |e| + Min(room - |e|, |EncodeAll(rest)|));
    TakeFirst(fs, Contained(rest, room - |e|));
  }

  lemma VerbatimCut(f: Frame, tail: seq<byte>, rest: seq<Frame>, last: ReadOutcome, room: nat)
    requires room < |Encoding(f)| && EncodeAll([f] + rest) <= Encoding(f) + tail
    ensures Verbatim(Encoding(f) + tail, [f] + rest, last, room, EchoResult(Encoding(f)[..room], 0, false))
  {
    TakeWithin(Encoding(f), tail, room);
  }

  lemma VerbatimStop(b: seq<byte>, last: ReadOutcome, room: nat)
    ensures Verbatim(b, [], last, room, EchoResult([], 0, last == Closed))
  {
  }

  /** The server echoes verbatim. */
  lemma {:induction false} EchoIsVerbatim(b: seq<byte>, end: StreamEnd, room: nat)
    ensures Verbatim(b, ParseAll(b, end).0, ParseAll(b, end).1, room, Echo(b, end, room))
  {
    hide Verbatim, Parse, Encoding;
    var (o, n) := Parse(b, end);
    if !o.Got? {
      VerbatimStop(b, o, room);
    } else {
      AcceptedIsEncoding(b, end);
      var e, tail := Encoding(o.frame), b[n..];
      var (rest, last) := ParseAll(tail, end);
      assert b == e + tail;
      if |e| <= room {
        EchoIsVerbatim(tail, end, room - |e|);
        VerbatimStep(o.frame, tail, rest, last, room, Echo(tail, end, room - |e|));
      } else {
        AcceptedBytes(b, end);
        VerbatimCut(o.frame, tail, rest, last, room);
      }
    }
  }

  lemma TakeWithin(x: seq<byte>, y: seq<byte>, k: nat)
    requires k <= |x|
    ensures (x + y)[..k] == x[..k]
  {
  }

  /** The bytes are whole frames within the cap, and behind them less than a header. */
  ghost predicate WholeFrames(b: seq<byte>, fs: seq<Frame>, tail: seq<byte>) {
    AllCapped(fs) && b == EncodeAll(fs) + tail && |tail| < HEADER_LEN
  }

  lemma {:induction false} ReadsWhole(fs: seq<Frame>, tail: seq<byte>)
    requires AllCapped(fs) && |tail| < HEADER_LEN
    ensures ParseAll(EncodeAll(fs) + tail, Eof) == (fs, Closed)
  {
    hide Encoding;
    if fs == [] {
      assert EncodeAll(fs) + tail == tail;
    } else {
      ReadsWhole(fs[1..], tail);
      Associate(Encoding(fs[0]), EncodeAll(fs[1..]), tail);
      ParseAllStep(fs[0], EncodeAll(fs[1..]) + tail, Eof);
      assert fs == [fs[0]] + fs[1..];
    }
  }

  lemma ClosesBehindWhole(b: seq<byte>, end: StreamEnd) returns (tail: seq<byte>)
    requires ParseAll(b, end).1 == Closed
    ensures end == Eof && WholeFrames(b, ParseAll(b, end).0, tail)
  {
    hide ParseAll, EncodeAll, CutShort;
    tail := ReadsAll(b, end);
  }

  /** The connection is served without error exactly when the client sends nothing but whole frames within the cap, and perhaps
      less than a header behind them, closes in an orderly way, and takes all of the frames back. */
  ghost predicate Served(b: seq<byte>, end: StreamEnd, room: nat) {
    end == Eof && exists fs, tail :: WholeFrames(b, fs, tail) && |EncodeAll(fs)| <= room
  }

  lemma OkIffServed(b: seq<byte>, end: StreamEnd, room: nat)
    ensures Echo(b, end, room).ok <==> Served(b, end, room)
  {
    hide Echo, ParseAll, EncodeAll;
    EchoIsVerbatim(b, end, room);
    if ParseAll(b, end).1 == Closed {
      var tail := ClosesBehindWhole(b, end);
      assert WholeFrames(b, ParseAll(b, end).0, tail);
    }
    if Served(b, end, room) {
      var fs, tail :| WholeFrames(b, fs, tail) && |EncodeAll(fs)| <= room;
      ReadsWhole(fs, tail);
    }
  }

  /** On an intact connection that closes after whole frames, the echo is the input. */
  lemma IntactEcho(fs: seq<Frame>, room: nat)
    requires AllCapped(fs) && |EncodeAll(fs)| <= room
    ensures Echo(EncodeAll(fs), Eof, room) == EchoResult(EncodeAll(fs), |EncodeAll(fs)|, true)
  {
    WholeStream(fs);
    EchoIsVerbatim(EncodeAll(fs), Eof, room);
    ContainedIsMaximal(fs, room, |fs|);
    assert fs[..|fs|] == fs && EncodeAll(fs)[..|EncodeAll(fs)|] == EncodeAll(fs);
  }

  // ------------------------------------------------------------------ datagrams

  datatype Datagram = Datagram(peer: nat, bytes: seq<byte>)

  /** The datagrams that get a reply: the probe's own, where the send goes through; `sends(i)` says whether that of the
      `i`th datagram would. */
  function Replies(inbox: seq<Datagram>, sends: nat -> bool): seq<Datagram> {
    if inbox == [] then []
    else
      var n := |inbox| - 1;
      Replies(inbox[..n], sends) + if DecodeUdp(inbox[n].bytes).Stamp? && sends(n) then [inbox[n]] else []
  }

  function BytesOf(ds: seq<Datagram>): nat {
    if ds == [] then 0 else BytesOf(ds[..|ds| - 1]) + |ds[|ds| - 1].bytes|
  }

  /** One more reply, or none. */
  lemma ReplyNext(inbox: seq<Datagram>, i: nat, sends: nat -> bool)
    requires i < |inbox|
    ensures var before := Replies(inbox[..i], sends); var after := Replies(inbox[..i + 1], sends);
            if DecodeUdp(inbox[i].bytes).Stamp? && sends(i)
            then after == before + [inbox[i]] && BytesOf(after) == BytesOf(before) + |inbox[i].bytes|
            else after == before
  {
    assert inbox[..i + 1][..i] == inbox[..i];
    var before := Replies(inbox[..i], sends);
    assert (before + [inbox[i]])[..|before|] == before;
  }

  method UdpEcho(inbox: seq<Datagram>, sends: nat -> bool, stats: ServeStats) returns (outbox: seq<Datagram>)
    modifies stats
    ensures outbox == Replies(inbox, sends)
    ensures stats.udpDatagrams == old(stats.udpDatagrams) + |outbox|
    ensures stats.bytesEchoed == old(stats.bytesEchoed) + BytesOf(outbox)
  {
    outbox := [];
    for i := 0 to |inbox|
      invariant outbox == Replies(inbox[..i], sends)
      invariant stats.udpDatagrams == old(stats.udpDatagrams) + |outbox|
      invariant stats.bytesEchoed == old(stats.bytesEchoed) + BytesOf(outbox)
    {
      ReplyNext(inbox, i, sends);
      var datagram := inbox[i];
      if DecodeUdp(datagram.bytes).Stamp? {
        if !sends(i) {
          continue;
        }
        outbox := outbox + [datagram];
        stats.udpDatagrams := stats.udpDatagrams + 1;
        stats.bytesEchoed := stats.bytesEchoed + |datagram.bytes|;
      }
    }
    assert inbox[..|inbox|] == inbox;
  }

  ghost predicate IsProbe(bytes: seq<byte>) {
    exists sequence: u64, sendTs: u64, payload: seq<byte> :: bytes == UdpEncoding(sequence, sendTs, payload)
  }

  lemma ProbeIff(bytes: seq<byte>)
    ensures DecodeUdp(bytes).Stamp? <==> IsProbe(bytes)
  {
    if DecodeUdp(bytes).Stamp? {
      UdpAcceptedIsEncoding(bytes);
    }
    if sequence: u64, sendTs: u64, payload: seq<byte> :| bytes == UdpEncoding(sequence, sendTs, payload) {
      UdpAcceptsEncoding(sequence, sendTs, payload);
    }
  }

  /** The `k`th reply is the datagram at the `k`th of these positions, which are those of the probes whose send goes through. */
  ghost predicate AnsweredAt(inbox: seq<Datagram>, sends: nat -> bool, replies: seq<Datagram>, at: seq<nat>) {
    && |at| == |replies| && (forall k | 0 <= k < |at| :: at[k] < |inbox| && replies[k] == inbox[at[k]])
    && (forall j, k | 0 <= j < k < |at| :: at[j] < at[k])
    && (forall i: nat :: i in at <==> i < |inbox| && IsProbe(inbox[i].bytes) && sends(i))
  }

  lemma AnsweredOneMore(inbox: seq<Datagram>, d: Datagram, sends: nat -> bool, replies: seq<Datagram>, at: seq<nat>)
    requires AnsweredAt(inbox, sends, replies, at)
    ensures var n := |inbox|;
            if IsProbe(d.bytes) && sends(n) then AnsweredAt(inbox + [d], sends, replies + [d], at + [n])
            else AnsweredAt(inbox + [d], sends, replies, at)
  {
    hide IsProbe;
  }

  /** Exactly the encoded probes whose send goes through are answered, in the order in which they came, each with itself. */
  lemma {:induction false} RepliesInOrder(inbox: seq<Datagram>, sends: nat -> bool) returns (at: seq<nat>)
    ensures AnsweredAt(inbox, sends, Replies(inbox, sends), at)
  {
    hide IsProbe, DecodeUdp;
    at := [];
    if inbox != [] {
      var n := |inbox| - 1;
      at := RepliesInOrder(inbox[..n], sends);
      hide AnsweredAt;
      ProbeIff(inbox[n].bytes);
      AnsweredOneMore(inbox[..n], inbox[n], sends, Replies(inbox[..n], sends), at);
      assert inbox == inbox[..n] + [inbox[n]];
      if IsProbe(inbox[n].bytes) && sends(n) {
        at := at + [n];
      }
    }
  }

  /** Every reply goes back unchanged to the peer it came from, no datagram is answered twice, and only encoded probes
      are answered. */
  lemma {:induction false} RepliesAreProbes(inbox: seq<Datagram>, sends: nat -> bool)
    ensures multiset(Replies(inbox, sends)) <= multiset(inbox)
    ensures forall d :: d in Replies(inbox, sends) ==> IsProbe(d.bytes)
  {
    hide IsProbe, DecodeUdp;
    if inbox != [] {
      var n := |inbox| - 1;
      RepliesAreProbes(inbox[..n], sends);
      assert inbox == inbox[..n] + [inbox[n]];
      ProbeIff(inbox[n].bytes);
    }
  }

  /** When no send fails, every encoded probe is answered, as often as it came, and nothing else is. */
  lemma {:induction false} ProbesAreAnswered(inbox: seq<Datagram>, sends: nat -> bool, d: Datagram)
    requires forall j | 0 <= j < |inbox| :: sends(j)
    ensures multiset(Replies(inbox, sends))[d] == if IsProbe(d.bytes) then multiset(inbox)[d] else 0
  {
    hide IsProbe, DecodeUdp;
    if inbox != [] {
      var n := |inbox| - 1;
      ProbesAreAnswered(inbox[..n], sends, d);
      ProbeIff(inbox[n].bytes);
      assert inbox == inbox[..n] + [inbox[n]];
    }
  }
}
