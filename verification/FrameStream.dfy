/**
 Reading frames off a stream that the transport may cut into pieces anywhere: `read_exact`
 fills a buffer from however many short reads it takes, and `Frame::read` is two of them.
 */
module FrameStream {
  import opened Basics
  import opened Bytes
  import opened Codec

  function Flatten(pieces: seq<seq<byte>>): seq<byte> {
    if pieces == [] then [] else pieces[0] + Flatten(pieces[1..])
  }

  /** The receiving half of a connection: the pieces still to be delivered, none of them
      empty, and how the stream ends after them. */
  class Source {
    var pieces: seq<seq<byte>>
    const end: StreamEnd

    ghost predicate Valid() reads this {
      forall i :: 0 <= i < |pieces| ==> pieces[i] != []
    }

    ghost function Remaining(): seq<byte> reads this {
      Flatten(pieces)
    }

    constructor (pieces: seq<seq<byte>>, end: StreamEnd)
      requires forall i :: 0 <= i < |pieces| ==> pieces[i] != []
      ensures Valid() && this.pieces == pieces && this.end == end
    {
      this.pieces := pieces;
      this.end := end;
    }

    /** One `read`: at most `max` bytes, at least one unless the stream is used up. */
    method Poll(max: nat) returns (chunk: seq<byte>)
      requires Valid() && max > 0
      modifies this
      ensures Valid()
      ensures |chunk| <= max
      ensures old(Remaining()) == chunk + Remaining()
      ensures chunk == [] <==> old(Remaining()) == []
    {
      if pieces == [] {
        chunk := [];
      } else if |pieces[0]| <= max {
        chunk := pieces[0];
        pieces := pieces[1..];
      } else {
        var p := pieces[0];
        chunk := p[..max];
        pieces := [p[max..]] + pieces[1..];
        assert pieces[1..] == old(pieces)[1..];
        assert p == p[..max] + p[max..];
        assert Remaining() == p[max..] + Flatten(old(pieces)[1..]);
      }
    }

    /** `read_exact`: fill the whole buffer, or take what there is and fail. */
    method ReadExact(buf: array<byte>) returns (filled: bool)
      requires Valid()
      modifies this, buf
      ensures Valid()
      ensures filled <==> buf.Length <= |old(Remaining())|
      ensures filled ==> old(Remaining()) == buf[..] + Remaining()
      ensures !filled ==> Remaining() == []
    {
      ghost var all := Remaining();
      var off := 0;
      while off < buf.Length
        invariant 0 <= off <= buf.Length
        invariant Valid()
        invariant all == buf[..off] + Remaining()
      {
        var chunk := Poll(buf.Length - off);
        if chunk == [] {
          return false;
        }
        ghost var before := buf[..off];
        forall i | 0 <= i < |chunk| {
          buf[off + i] := chunk[i];
        }
        assert buf[..off + |chunk|] == before + chunk;
        off := off + |chunk|;
      }
      assert buf[..off] == buf[..];
      return true;
    }

    /** `Frame::read`.  Only the bytes that remain matter, not the pieces they come in. */
    method ReadFrame() returns (outcome: ReadOutcome)
      requires Valid()
      modifies this
      ensures Valid()
      ensures var (o, n) := Parse(old(Remaining()), end); outcome == o && Remaining() == old(Remaining())[n..]
      ensures Reports(old(Remaining()), end, outcome, Remaining())
    {
      hide ToLe, FromLe, Reports;
      ghost var all := Remaining();
      ReadReports(all, end);
      var header := new byte[HEADER_LEN];
      var ok := ReadExact(header);
      if !ok {
        return if end == Eof then Closed else Failed(Transport);
      }
      var h := header[..];
      HeaderOnly(h, Remaining());
      assert all == h + Remaining();
      if MagicOf(h) != MAGIC {
        return Failed(BadMagic);
      }
      var len := LenOf(h);
      if len > MAX_PAYLOAD {
        return Failed(PayloadTooLarge);
      }
      ghost var behind := Remaining();
      var payload := new byte[len];
      ok := ReadExact(payload);
      if !ok {
        assert |all| < HEADER_LEN + len;
        return Failed(if end == Eof then UnexpectedEof else Transport);
      }
      var body := payload[..];
      assert behind == body + Remaining();
      FrameSlices(h, body, Remaining());
      return Got(Frame(SequenceOf(h), SendTsOf(h), body));
    }

    /** The loop around `Frame::read`, here with nothing done per frame. */
    method ReadFrames() returns (frames: seq<Frame>, last: ReadOutcome)
      requires Valid()
      modifies this
      ensures Valid()
      ensures (frames, last) == ParseAll(old(Remaining()), end)
    {
      hide Parse, ParseAll, Reports;
      frames := [];
      ghost var here := Remaining();
      last := ReadFrame();
      while last.Got?
        invariant Valid()
        invariant last == Parse(here, end).0 && Remaining() == here[Parse(here, end).1..]
        invariant ParseAll(old(Remaining()), end).0 == frames + ParseAll(here, end).0
        invariant ParseAll(old(Remaining()), end).1 == ParseAll(here, end).1
        decreases |here|
      {
        LoopTurn(here, end, frames);
        frames := frames + [last.frame];
        here := Remaining();
        last := ReadFrame();
      }
      LoopTurn(here, end, frames);
    }
  }

  /** One turn of the reading loop, after `frames`. */
  lemma LoopTurn(here: seq<byte>, end: StreamEnd, frames: seq<Frame>)
    ensures var (o, n) := Parse(here, end);
            if o.Got? then
              && |here[n..]| < |here|
              && frames + ParseAll(here, end).0 == frames + [o.frame] + ParseAll(here[n..], end).0
              && ParseAll(here, end).1 == ParseAll(here[n..], end).1
            else frames + ParseAll(here, end).0 == frames && ParseAll(here, end).1 == o
  {
    var (o, n) := Parse(here, end);
    hide Parse;
    if o.Got? {
      var rest := ParseAll(here[n..], end);
      assert ParseAll(here, end) == ([o.frame] + rest.0, rest.1);
      hide ParseAll;
      Associate(frames, [o.frame], rest.0);
    }
  }

  lemma HeaderOnly(h: seq<byte>, tail: seq<byte>)
    requires |h| == HEADER_LEN
    ensures var b := h + tail;
            && MagicOf(b) == MagicOf(h) && LenOf(b) == LenOf(h)
            && SequenceOf(b) == SequenceOf(h) && SendTsOf(b) == SendTsOf(h)
  {
    var b := h + tail;
    assert b[0..4] == h[0..4];
    assert b[4..8] == h[4..8];
    assert b[8..16] == h[8..16];
    assert b[16..24] == h[16..24];
  }

  lemma FrameSlices(h: seq<byte>, body: seq<byte>, tail: seq<byte>)
    requires |h| == HEADER_LEN
    ensures (h + (body + tail))[HEADER_LEN..HEADER_LEN + |body|] == body
    ensures (h + (body + tail))[HEADER_LEN + |body|..] == tail
  {
  }

  /** End to end: whatever pieces the encoded frames arrive in, and wherever the stream is
      cut, the reading loop returns exactly the frames that arrived whole. */
  method ReadBack(frames: seq<Frame>, k: nat, pieces: seq<seq<byte>>, end: StreamEnd)
      returns (got: seq<Frame>, last: ReadOutcome)
    requires AllCapped(frames) && k <= |EncodeAll(frames)|
    requires forall i :: 0 <= i < |pieces| ==> pieces[i] != []
    requires Flatten(pieces) == EncodeAll(frames)[..k]
    ensures got == frames[..Contained(frames, k)]
    ensures k == |EncodeAll(frames)| ==> got == frames && (end == Eof ==> last == Closed)
    ensures |EncodeAll(got)| <= k && last == StopOutcome(end, k - |EncodeAll(got)|)
  {
    var source := new Source(pieces, end);
    TruncatedStream(frames, k, end);
    got, last := source.ReadFrames();
    ContainedIsMaximal(frames, k, |frames|);
    assert frames[..|frames|] == frames;
  }
}
