/**
 The probe's wire format: TCP frames, UDP datagrams, and what `Frame::read` makes of a
 given run of bytes.  How the bytes arrive (in which pieces) is the subject of FrameStream.
 */
module Codec {
  import opened Basics
  import opened Bytes

  const MAGIC: u32 := 0x3154_504E
  const HEADER_LEN: nat := 24
  const MAX_PAYLOAD: nat := 8 * 1024 * 1024
  const UDP_HEADER_LEN: nat := 20

  datatype Frame = Frame(sequence: u64, sendTs: u64, payload: seq<byte>)

  // ----------------------------------------------------------------- encoding

  function Header(len: nat, sequence: u64, sendTs: u64): (h: seq<byte>)
    ensures |h| == HEADER_LEN
  {
    ToLe(MAGIC, 4) + ToLe(len, 4) + ToLe(sequence, 8) + ToLe(sendTs, 8)
  }

  /** The bytes of a frame.  The length field keeps only the low four bytes of the payload length. */
  function Encoding(f: Frame): (b: seq<byte>)
    ensures |b| == HEADER_LEN + |f.payload|
  {
    Header(|f.payload|, f.sequence, f.sendTs) + f.payload
  }

  method Encode(f: Frame) returns (buf: seq<byte>)
    ensures buf == Encoding(f)
  {
    buf := [];
    buf := buf + ToLe(MAGIC, 4);
    buf := buf + ToLe(|f.payload|, 4);
    buf := buf + ToLe(f.sequence, 8);
    buf := buf + ToLe(f.sendTs, 8);
    buf := buf + f.payload;
  }

  function EncodeAll(fs: seq<Frame>): seq<byte> {
    if fs == [] then [] else Encoding(fs[0]) + EncodeAll(fs[1..])
  }

  // ----------------------------------------------------------------- parsing

  /** How a byte stream ends once its bytes are used up: an orderly EOF or a transport error. */
  datatype StreamEnd = Eof | Broken

  datatype ReadError = Transport | BadMagic | PayloadTooLarge | UnexpectedEof

  /** `Ok(Some(frame))`, `Ok(None)` and `Err(e)`. */
  datatype ReadOutcome = Got(frame: Frame) | Closed | Failed(error: ReadError)

  function MagicOf(h: seq<byte>): u32 requires |h| >= HEADER_LEN {
    LeBounds(h[0..4]);
    FromLe(h[0..4])
  }

  function LenOf(h: seq<byte>): u32 requires |h| >= HEADER_LEN {
    LeBounds(h[4..8]);
    FromLe(h[4..8])
  }

  function SequenceOf(h: seq<byte>): u64 requires |h| >= HEADER_LEN {
    LeBounds(h[8..16]);
    FromLe(h[8..16])
  }

  function SendTsOf(h: seq<byte>): u64 requires |h| >= HEADER_LEN {
    LeBounds(h[16..24]);
    FromLe(h[16..24])
  }

  /** What one `Frame::read` returns on a stream that holds `b` and then ends with `end`,
      and how many bytes it takes off the stream. */
  function Parse(b: seq<byte>, end: StreamEnd): (r: (ReadOutcome, nat))
    ensures r.1 <= |b|
    ensures r.0.Got? ==> r.1 >= HEADER_LEN
  {
    if |b| < HEADER_LEN then
      (if end == Eof then Closed else Failed(Transport), |b|)
    else if MagicOf(b) != MAGIC then
      (Failed(BadMagic), HEADER_LEN)
    else if LenOf(b) > MAX_PAYLOAD then
      (Failed(PayloadTooLarge), HEADER_LEN)
    else if |b| < HEADER_LEN + LenOf(b) then
      (Failed(if end == Eof then UnexpectedEof else Transport), |b|)
    else
      var total := HEADER_LEN + LenOf(b);
      (Got(Frame(SequenceOf(b), SendTsOf(b), b[HEADER_LEN..total])), total)
  }

  /** `Frame::read` repeated until it stops returning frames, as in `while let Some(frame) = ..`:
      the frames, and the outcome that ended the loop. */
  function ParseAll(b: seq<byte>, end: StreamEnd): (r: (seq<Frame>, ReadOutcome))
    ensures !r.1.Got?
  {
    var (o, n) := Parse(b, end);
    if o.Got? then
      var (rest, last) := ParseAll(b[n..], end);
      ([o.frame] + rest, last)
    else
      ([], o)
  }

  // ----------------------------------------------------------------- one frame

  lemma HeaderParts(f: Frame, tail: seq<byte>)
    ensures var b := Encoding(f) + tail;
            && b[0..4] == ToLe(MAGIC, 4) && b[4..8] == ToLe(|f.payload|, 4)
            && b[8..16] == ToLe(f.sequence, 8) && b[16..24] == ToLe(f.sendTs, 8)
  {
    hide ToLe;
  }

  /** Header fields of an encoding can be read back, the length modulo 2^32. */
  lemma HeaderFields(f: Frame, tail: seq<byte>)
    ensures var b := Encoding(f) + tail;
            && MagicOf(b) == MAGIC
            && LenOf(b) == |f.payload| % 0x1_0000_0000
            && SequenceOf(b) == f.sequence
            && SendTsOf(b) == f.sendTs
  {
    hide ToLe, FromLe, Pow256;
    HeaderParts(f, tail);
    U32RoundTrip(MAGIC);
    LeRoundTrip(|f.payload|, 4);
    PowValues();
    U64RoundTrip(f.sequence);
    U64RoundTrip(f.sendTs);
  }

  /** A frame read back from its own bytes, whatever follows them, is that frame exactly
      when its payload is within the cap.  (A payload of 2^32 bytes or more has its length
      field truncated; one between the cap and 2^32 is refused.) */
  lemma FrameRoundTrip(f: Frame, tail: seq<byte>, end: StreamEnd)
    ensures Parse(Encoding(f) + tail, end) == (Got(f), |Encoding(f)|) <==> |f.payload| <= 8 * 1024 * 1024
    ensures MAX_PAYLOAD < |f.payload| < 0x1_0000_0000 ==>
              Parse(Encoding(f) + tail, end) == (Failed(PayloadTooLarge), HEADER_LEN)
  {
    var b := Encoding(f) + tail;
    HeaderFields(f, tail);
    if |f.payload| <= MAX_PAYLOAD {
      assert b[HEADER_LEN..HEADER_LEN + |f.payload|] == f.payload;
    }
  }

  /** The converse: whatever `read` accepts is a capped frame whose encoding starts the stream. */
  lemma AcceptedIsEncoding(b: seq<byte>, end: StreamEnd)
    requires Parse(b, end).0.Got?
    ensures var (o, n) := Parse(b, end);
            && |o.frame.payload| <= MAX_PAYLOAD
            && b[..n] == Encoding(o.frame)
  {
    var (o, n) := Parse(b, end);
    var h := b[..HEADER_LEN];
    hide ToLe, FromLe;
    LeBytesRoundTrip(b[0..4]);
    LeBytesRoundTrip(b[4..8]);
    LeBytesRoundTrip(b[8..16]);
    LeBytesRoundTrip(b[16..24]);
    assert h == b[0..4] + b[4..8] + b[8..16] + b[16..24];
    assert b[..n] == h + b[HEADER_LEN..n];
  }

  /** Acceptance, stated against the encoder alone. */
  lemma ParseIffEncoding(b: seq<byte>, end: StreamEnd, f: Frame)
    ensures Parse(b, end).0 == Got(f) <==> |f.payload| <= MAX_PAYLOAD && Encoding(f) <= b
  {
    if Parse(b, end).0 == Got(f) {
      AcceptedIsEncoding(b, end);
    }
    if |f.payload| <= MAX_PAYLOAD && Encoding(f) <= b {
      var tail := b[|Encoding(f)|..];
      assert b == Encoding(f) + tail;
      FrameRoundTrip(f, tail, end);
    }
  }

  /** The magic number, as it stands in front of every frame. */
  lemma MagicBytes()
    ensures ToLe(MAGIC, 4) == [0x4E, 0x50, 0x54, 0x31]
  {
    assert ToLe(MAGIC, 4) == [0x4E] + ToLe(0x31_5450, 3);
    assert ToLe(0x31_5450, 3) == [0x50] + ToLe(0x3154, 2);
    assert ToLe(0x3154, 2) == [0x54] + ToLe(0x31, 1);
  }

  lemma MagicIff(b: seq<byte>)
    requires |b| >= HEADER_LEN
    ensures MagicOf(b) == MAGIC <==> b[0..4] == ToLe(MAGIC, 4)
  {
    hide ToLe, FromLe;
    LeBytesRoundTrip(b[0..4]);
    U32RoundTrip(MAGIC);
  }

  lemma LengthIff(b: seq<byte>, n: u32)
    requires |b| >= HEADER_LEN
    ensures LenOf(b) == n <==> b[4..8] == ToLe(n, 4)
  {
    hide ToLe, FromLe;
    LeBytesRoundTrip(b[4..8]);
    U32RoundTrip(n);
  }

  /** The bytes are the front of a frame within the cap, its header and perhaps some of its payload, but not all of it. */
  ghost predicate CutShort(b: seq<byte>) {
    exists f: Frame :: IsCutOf(b, f)
  }

  ghost predicate IsCutOf(b: seq<byte>, f: Frame) {
    |f.payload| <= MAX_PAYLOAD && HEADER_LEN <= |b| < |Encoding(f)| && b == Encoding(f)[..|b|]
  }

  lemma CutShortIff(b: seq<byte>)
    ensures CutShort(b) <==>
            |b| >= HEADER_LEN && MagicOf(b) == MAGIC && LenOf(b) <= MAX_PAYLOAD && |b| < HEADER_LEN + LenOf(b)
  {
    if f: Frame :| IsCutOf(b, f) {
      SameHeader(f, b);
    }
    if |b| >= HEADER_LEN && MagicOf(b) == MAGIC && LenOf(b) <= MAX_PAYLOAD && |b| < HEADER_LEN + LenOf(b) {
      CompletesTo(b);
    }
  }

  /** Any bytes behind it make it a frame that the reader accepts. */
  lemma CompletesTo(b: seq<byte>)
    requires |b| >= HEADER_LEN && MagicOf(b) == MAGIC && LenOf(b) <= MAX_PAYLOAD && |b| < HEADER_LEN + LenOf(b)
    ensures CutShort(b)
  {
    var whole := b + Zeros(HEADER_LEN + LenOf(b) - |b|);
    assert whole[0..4] == b[0..4] && whole[4..8] == b[4..8];
    AcceptedIsEncoding(whole, Eof);
    var f := Parse(whole, Eof).0.frame;
    assert whole[..|whole|] == whole;
    assert IsCutOf(b, f);
  }

  /** How many bytes a read takes off. */
  function Consumed(b: seq<byte>, o: ReadOutcome): nat {
    if o.Got? then |Encoding(o.frame)|
    else if o == Failed(BadMagic) || o == Failed(PayloadTooLarge) then HEADER_LEN
    else |b|
  }

  /** What a read reports, in terms of the bytes that are left: the frame whose encoding they begin with, or one of the ways
      to fail; and what it leaves. */
  ghost predicate Reports(b: seq<byte>, end: StreamEnd, o: ReadOutcome, rest: seq<byte>) {
    && Consumed(b, o) <= |b| && rest == b[Consumed(b, o)..]
    && (o.Got? ==> |o.frame.payload| <= MAX_PAYLOAD && Encoding(o.frame) <= b)
    && (o == Closed <==> |b| < HEADER_LEN && end == Eof)
    && (o == Failed(BadMagic) <==> |b| >= HEADER_LEN && b[0..4] != ToLe(MAGIC, 4))
    && (o == Failed(PayloadTooLarge) <==>
          |b| >= HEADER_LEN && b[0..4] == ToLe(MAGIC, 4) && exists len: u32 :: len > MAX_PAYLOAD && b[4..8] == ToLe(len, 4))
    && (o == Failed(UnexpectedEof) <==> CutShort(b) && end == Eof)
    && (o == Failed(Transport) <==> (|b| < HEADER_LEN || CutShort(b)) && end == Broken)
  }

  lemma ReadReports(b: seq<byte>, end: StreamEnd)
    ensures var (o, n) := Parse(b, end); Reports(b, end, o, b[n..])
  {
    CutShortIff(b);
    if Parse(b, end).0.Got? {
      AcceptedIsEncoding(b, end);
    }
    hide ToLe, FromLe, CutShort, Header;
    if |b| >= HEADER_LEN {
      MagicIff(b);
      LengthIff(b, LenOf(b));
      if len: u32 :| len > MAX_PAYLOAD && b[4..8] == ToLe(len, 4) {
        LengthIff(b, len);
      }
    }
  }

  /** A frame cut short, then EOF.  The comment above `Frame::read` says that any partial
      frame is an error; the code reports an error exactly when the header was complete, and a clean
      close when it was not. */
  lemma PartialFrameIsErrorIff(f: Frame, k: nat)
    requires |f.payload| <= MAX_PAYLOAD && 0 < k < |Encoding(f)|
    ensures var r := Parse(Encoding(f)[..k], Eof);
            && (r.0.Failed? <==> k >= HEADER_LEN)
            && (r.0 == Closed <==> k < HEADER_LEN)
            && r.1 == k
  {
    var b := Encoding(f)[..k];
    if k >= HEADER_LEN {
      SameHeader(f, b);
    }
  }

  lemma SameHeader(f: Frame, b: seq<byte>)
    requires HEADER_LEN <= |b| <= |Encoding(f)| && b == Encoding(f)[..|b|]
    ensures MagicOf(b) == MAGIC
    ensures LenOf(b) == |f.payload| % 0x1_0000_0000
  {
    HeaderFields(f, []);
    var e := Encoding(f) + [];
    assert b[0..4] == e[0..4];
    assert b[4..8] == e[4..8];
  }

  // ----------------------------------------------------------------- lists of frames

  ghost predicate AllCapped(fs: seq<Frame>) {
    forall i :: 0 <= i < |fs| ==> |fs[i].payload| <= MAX_PAYLOAD
  }

  lemma {:induction false} EncodeAllAppend(a: seq<Frame>, b: seq<Frame>)
    ensures EncodeAll(a + b) == EncodeAll(a) + EncodeAll(b)
  {
    if a == [] {
      assert a + b == b;
    } else {
      EncodeAllAppend(a[1..], b);
      assert (a + b)[1..] == a[1..] + b;
      Associate(Encoding(a[0]), EncodeAll(a[1..]), EncodeAll(b));
    }
  }

  lemma EncodeAllSnoc(a: seq<Frame>, f: Frame)
    ensures EncodeAll(a + [f]) == EncodeAll(a) + Encoding(f)
  {
    EncodeAllAppend(a, [f]);
    assert EncodeAll([f]) == Encoding(f) + EncodeAll([]);
  }

  /** The number of frames of `fs` that lie wholly within the first `k` bytes. */
  function Contained(fs: seq<Frame>, k: nat): (m: nat)
    ensures m <= |fs|
  {
    if fs == [] || k < |Encoding(fs[0])| then 0
    else 1 + Contained(fs[1..], k - |Encoding(fs[0])|)
  }

  /** `Contained` is the largest count that fits. */
  lemma {:induction false} ContainedIsMaximal(fs: seq<Frame>, k: nat, j: nat)
    requires j <= |fs|
    ensures |EncodeAll(fs[..j])| <= k <==> j <= Contained(fs, k)
  {
    if j > 0 {
      assert fs[..j][0] == fs[0] && fs[..j][1..] == fs[1..][..j - 1];
      if k >= |Encoding(fs[0])| {
        ContainedIsMaximal(fs[1..], k - |Encoding(fs[0])|, j - 1);
      }
    }
  }

  /** A whole capped frame at the front of the stream is read, and reading goes on behind it. */
  lemma ParseAllStep(f: Frame, rest: seq<byte>, end: StreamEnd)
    requires |f.payload| <= MAX_PAYLOAD
    ensures ParseAll(Encoding(f) + rest, end) == ([f] + ParseAll(rest, end).0, ParseAll(rest, end).1)
  {
    FrameRoundTrip(f, rest, end);
    assert (Encoding(f) + rest)[|Encoding(f)|..] == rest;
  }

  function StopOutcome(end: StreamEnd, left: nat): ReadOutcome {
    if end == Broken then Failed(Transport)
    else if left < HEADER_LEN then Closed
    else Failed(UnexpectedEof)
  }

  /** The bytes are those of the frames, which the reader accepts, and behind them the rest, of which a read reports `last`. */
  ghost predicate ReadsTo(b: seq<byte>, end: StreamEnd, fs: seq<Frame>, last: ReadOutcome, rest: seq<byte>) {
    && AllCapped(fs) && b == EncodeAll(fs) + rest
    && !last.Got? && Consumed(rest, last) <= |rest| && Reports(rest, end, last, rest[Consumed(rest, last)..])
  }

  lemma ReadsOneMore(f: Frame, b: seq<byte>, end: StreamEnd, fs: seq<Frame>, last: ReadOutcome, rest: seq<byte>)
    requires |f.payload| <= MAX_PAYLOAD && ReadsTo(b, end, fs, last, rest)
    ensures ReadsTo(Encoding(f) + b, end, [f] + fs, last, rest)
  {
    hide Encoding, Reports;
    assert ([f] + fs)[1..] == fs;
    Associate(Encoding(f), EncodeAll(fs), rest);
  }

  lemma ReadsNone(b: seq<byte>, end: StreamEnd)
    requires !Parse(b, end).0.Got?
    ensures ReadsTo(b, end, [], Parse(b, end).0, b)
  {
    ReadReports(b, end);
    hide Parse;
    assert [] + b == b;
  }

  /** Of any bytes: the frames returned are exactly those at the front, and the loop ends with what is to be said of the rest. */
  lemma {:induction false} ReadsAll(b: seq<byte>, end: StreamEnd) returns (rest: seq<byte>)
    ensures ReadsTo(b, end, ParseAll(b, end).0, ParseAll(b, end).1, rest)
  {
    hide ReadsTo, Encoding, Parse;
    var (o, n) := Parse(b, end);
    if o.Got? {
      AcceptedIsEncoding(b, end);
      rest := ReadsAll(b[n..], end);
      assert b == Encoding(o.frame) + b[n..];
      ReadsOneMore(o.frame, b[n..], end, ParseAll(b[n..], end).0, ParseAll(b[n..], end).1, rest);
    } else {
      ReadsNone(b, end);
      rest := b;
    }
  }

  /** A frame cut short ends the loop. */
  lemma ParseAllPartial(f: Frame, k: nat, end: StreamEnd)
    requires |f.payload| <= MAX_PAYLOAD && k < |Encoding(f)|
    ensures ParseAll(Encoding(f)[..k], end) == ([], StopOutcome(end, k))
  {
    if k >= HEADER_LEN {
      SameHeader(f, Encoding(f)[..k]);
    }
  }

  /** Truncation at any byte: exactly the frames that are wholly there come out, none is
      invented, and the remaining bytes decide how the reader stops. */
  lemma TruncatedStream(fs: seq<Frame>, k: nat, end: StreamEnd)
    requires AllCapped(fs) && k <= |EncodeAll(fs)|
    ensures var m := Contained(fs, k);
            && |EncodeAll(fs[..m])| <= k
            && ParseAll(EncodeAll(fs)[..k], end) == (fs[..m], StopOutcome(end, k - |EncodeAll(fs[..m])|))
  {
    CutGives(fs, k, end);
  }

  /** Cut at `k`, the stream gives the first `m` frames. */
  ghost predicate Gives(fs: seq<Frame>, k: nat, end: StreamEnd, m: nat) {
    && k <= |EncodeAll(fs)| && m <= |fs| && |EncodeAll(fs[..m])| <= k
    && ParseAll(EncodeAll(fs)[..k], end) == (fs[..m], StopOutcome(end, k - |EncodeAll(fs[..m])|))
  }

  /** The cut is within the first frame. */
  lemma NoFrame(fs: seq<Frame>, k: nat, end: StreamEnd)
    requires AllCapped(fs) && k <= |EncodeAll(fs)| && (fs == [] || k < |Encoding(fs[0])|)
    ensures Contained(fs, k) == 0 && Gives(fs, k, end, 0)
  {
    if fs == [] {
      assert EncodeAll(fs)[..k] == [];
    } else {
      assert EncodeAll(fs)[..k] == Encoding(fs[0])[..k];
      ParseAllPartial(fs[0], k, end);
    }
  }

  lemma {:induction false} CutGives(fs: seq<Frame>, k: nat, end: StreamEnd)
    requires AllCapped(fs) && k <= |EncodeAll(fs)|
    ensures Gives(fs, k, end, Contained(fs, k))
  {
    hide Gives, ParseAll, StopOutcome;
    if fs == [] || k < |Encoding(fs[0])| {
      NoFrame(fs, k, end);
    } else {
      var k' := k - |Encoding(fs[0])|;
      CutGives(fs[1..], k', end);
      OneFrameMore(fs, k, end, Contained(fs[1..], k'));
    }
  }

  lemma OneFrameMore(fs: seq<Frame>, k: nat, end: StreamEnd, m: nat)
    requires AllCapped(fs) && fs != [] && |Encoding(fs[0])| <= k
    requires Gives(fs[1..], k - |Encoding(fs[0])|, end, m)
    ensures Gives(fs, k, end, m + 1)
  {
    hide ParseAll, Encoding, StopOutcome;
    var k' := k - |Encoding(fs[0])|;
    TakeThrough(Encoding(fs[0]), EncodeAll(fs[1..]), k);
    TakeFirst(fs, m);
    ParseAllStep(fs[0], EncodeAll(fs[1..])[..k'], end);
  }

  lemma TakeFirst(fs: seq<Frame>, m: nat)
    requires m < |fs|
    ensures fs[..m + 1] == [fs[0]] + fs[1..][..m]
    ensures |EncodeAll(fs[..m + 1])| == |Encoding(fs[0])| + |EncodeAll(fs[1..][..m])|
  {
    var head := fs[..m + 1];
    assert head[1..] == fs[1..][..m];
  }

  lemma TakeThrough(x: seq<byte>, y: seq<byte>, k: nat)
    requires |x| <= k <= |x + y|
    ensures (x + y)[..k] == x + y[..k - |x|]
  {
  }

  /** The whole stream gives back the whole list, and a clean close. */
  lemma {:induction false} WholeStream(fs: seq<Frame>)
    requires AllCapped(fs)
    ensures ParseAll(EncodeAll(fs), Eof) == (fs, Closed)
  {
    if fs == [] {
    } else {
      WholeStream(fs[1..]);
      ParseAllStep(fs[0], EncodeAll(fs[1..]), Eof);
      assert fs == [fs[0]] + fs[1..];
    }
  }

  /** Two encodings at the front of the same bytes, one of them accepted by the reader. */
  lemma SameFirstFrame(f: Frame, x: seq<byte>, g: Frame, y: seq<byte>)
    requires |f.payload| <= MAX_PAYLOAD && |g.payload| < 0x1_0000_0000
    requires Encoding(f) + x == Encoding(g) + y
    ensures f == g && x == y
  {
    FrameRoundTrip(f, x, Eof);
    FrameRoundTrip(g, y, Eof);
    assert x == (Encoding(f) + x)[|Encoding(f)|..];
    assert y == (Encoding(g) + y)[|Encoding(g)|..];
  }

  lemma {:induction false} SameFrames(a: seq<Frame>, tail: seq<byte>, b: seq<Frame>)
    requires AllCapped(a)
    requires forall i :: 0 <= i < |b| ==> |b[i].payload| < 0x1_0000_0000
    requires EncodeAll(a) + tail == EncodeAll(b)
    ensures a <= b
  {
    hide Encoding;
    if a != [] {
      assert |EncodeAll(a)| >= |Encoding(a[0])| >= HEADER_LEN;
      Associate(Encoding(a[0]), EncodeAll(a[1..]), tail);
      SameFirstFrame(a[0], EncodeAll(a[1..]) + tail, b[0], EncodeAll(b[1..]));
      SameFrames(a[1..], tail, b[1..]);
      assert a == [a[0]] + a[1..] && b == [b[0]] + b[1..];
    }
  }

  /** If the bytes of `a`, frames the reader accepts, start the bytes of `b`, then `a` starts
      `b`: an encoding can be split into frames in one way only. */
  lemma PrefixOfEncoding(a: seq<Frame>, extra: seq<byte>, b: seq<Frame>)
    requires AllCapped(a)
    requires forall i :: 0 <= i < |b| ==> |b[i].payload| < 0x1_0000_0000
    requires EncodeAll(a) + extra <= EncodeAll(b)
    ensures a <= b
  {
    hide EncodeAll;
    var z := EncodeAll(b)[|EncodeAll(a) + extra|..];
    assert EncodeAll(b) == (EncodeAll(a) + extra) + z;
    Associate(EncodeAll(a), extra, z);
    SameFrames(a, extra + z, b);
  }

  // ----------------------------------------------------------------- UDP

  function UdpEncoding(sequence: u64, sendTs: u64, payload: seq<byte>): seq<byte> {
    ToLe(MAGIC, 4) + ToLe(sequence, 8) + ToLe(sendTs, 8) + payload
  }

  datatype UdpResult = Stamp(sequence: u64, sendTs: u64) | NotProbe

  function DecodeUdp(buf: seq<byte>): UdpResult {
    if |buf| < UDP_HEADER_LEN then NotProbe
    else
      LeBounds(buf[0..4]);
      LeBounds(buf[4..12]);
      LeBounds(buf[12..20]);
      if FromLe(buf[0..4]) != MAGIC then NotProbe
      else Stamp(FromLe(buf[4..12]), FromLe(buf[12..20]))
  }

  lemma UdpAcceptsEncoding(sequence: u64, sendTs: u64, payload: seq<byte>)
    ensures DecodeUdp(UdpEncoding(sequence, sendTs, payload)) == Stamp(sequence, sendTs)
  {
    var buf := UdpEncoding(sequence, sendTs, payload);
    assert buf[0..4] == ToLe(MAGIC, 4);
    assert buf[4..12] == ToLe(sequence, 8);
    assert buf[12..20] == ToLe(sendTs, 8);
    U32RoundTrip(MAGIC);
    U64RoundTrip(sequence);
    U64RoundTrip(sendTs);
  }

  lemma UdpAcceptedIsEncoding(buf: seq<byte>)
    requires DecodeUdp(buf).Stamp?
    ensures var stamp := DecodeUdp(buf); buf == UdpEncoding(stamp.sequence, stamp.sendTs, buf[UDP_HEADER_LEN..])
  {
    LeBytesRoundTrip(buf[0..4]);
    LeBytesRoundTrip(buf[4..12]);
    LeBytesRoundTrip(buf[12..20]);
    assert buf == buf[0..4] + buf[4..12] + buf[12..20] + buf[20..];
  }

  /** The datagram carries the stamp and the payload, and is the only one that does. */
  method EncodeUdp(sequence: u64, sendTs: u64, payload: seq<byte>) returns (buf: seq<byte>)
    ensures |buf| == UDP_HEADER_LEN + |payload|
    ensures DecodeUdp(buf) == Stamp(sequence, sendTs) && buf[UDP_HEADER_LEN..] == payload
    ensures forall other :: DecodeUdp(other) == Stamp(sequence, sendTs) && other[UDP_HEADER_LEN..] == payload ==> other == buf
    ensures buf == UdpEncoding(sequence, sendTs, payload)
  {
    buf := [];
    buf := buf + ToLe(MAGIC, 4);
    buf := buf + ToLe(sequence, 8);
    buf := buf + ToLe(sendTs, 8);
    buf := buf + payload;
    UdpAcceptsEncoding(sequence, sendTs, payload);
    hide DecodeUdp;
    forall other | DecodeUdp(other) == Stamp(sequence, sendTs) && |other| >= UDP_HEADER_LEN && other[UDP_HEADER_LEN..] == payload
      ensures other == buf
    {
      UdpAcceptedIsEncoding(other);
    }
  }

  /** A datagram is accepted with a stamp exactly when it is some payload's encoding with that stamp. */
  lemma UdpRoundTrip(buf: seq<byte>, sequence: u64, sendTs: u64)
    ensures DecodeUdp(buf) == Stamp(sequence, sendTs) <==>
            exists payload: seq<byte> :: buf == UdpEncoding(sequence, sendTs, payload)
  {
    if DecodeUdp(buf) == Stamp(sequence, sendTs) {
      UdpAcceptedIsEncoding(buf);
    }
    if payload: seq<byte> :| buf == UdpEncoding(sequence, sendTs, payload) {
      UdpAcceptsEncoding(sequence, sendTs, payload);
    }
  }
}
