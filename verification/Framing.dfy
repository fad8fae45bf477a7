/** The size-prefixed framing of GRPC-over-HTTP streams: every message is
    preceded by its size as a signed 32-bit big-endian integer, and the last one,
    the trailer, by its negated size. */
module Framing {
  import opened Prelude

  type Byte = x: int | 0 <= x < 256
  type Bytes = seq<Byte>

  const MAX_INT32 := 0x7FFF_FFFF
  const MIN_INT32 := -0x8000_0000
  const MAX_MESSAGE_SIZE := 100 * 1024 * 1024

  type Int32 = x: int | MIN_INT32 <= x <= MAX_INT32

  // ----- Size prefaces -----

  /** Big-endian two's complement. */
  function EncodeInt32(n: Int32): (r: Bytes)
    ensures |r| == 4
  {
    var u := if n < 0 then n + 0x1_0000_0000 else n;
    [u / 0x100_0000, (u / 0x1_0000) % 0x100, (u / 0x100) % 0x100, u % 0x100]
  }

  function Step(high: int, low: Byte): int {
    high * 0x100 + low
  }

  function DecodeInt32(b: Bytes): Int32
    requires |b| == 4
  {
    var u := Step(Step(Step(b[0], b[1]), b[2]), b[3]);
    if u > MAX_INT32 then u - 0x1_0000_0000 else u
  }

  lemma Int32RoundTrip(n: Int32)
    ensures DecodeInt32(EncodeInt32(n)) == n
  {
    var u := if n < 0 then n + 0x1_0000_0000 else n;
    var a, b, c := u / 0x100, u / 0x1_0000, u / 0x100_0000;
    assert u == a * 0x100 + u % 0x100;
    assert a / 0x100 == b && a == b * 0x100 + a % 0x100;
    assert b / 0x100 == c && b == c * 0x100 + b % 0x100;
  }

  /** Every four bytes are the encoding of exactly one size. */
  lemma Int32Onto(b: Bytes)
    requires |b| == 4
    ensures EncodeInt32(DecodeInt32(b)) == b
  {
    var h := Step(b[0], b[1]);
    var m := Step(h, b[2]);
    var u := Step(m, b[3]);
    assert u / 0x100 == m && u % 0x100 == b[3];
    assert m / 0x100 == h && m % 0x100 == b[2];
    assert h / 0x100 == b[0] && h % 0x100 == b[1];
    assert u / 0x1_0000 == m / 0x100;
    assert u / 0x100_0000 == h / 0x100;
  }

  /** The number four bytes are in base 256, most significant first. */
  function Unsigned(a: int, b: int, c: int, d: int): int {
    a * 16777216 + b * 65536 + c * 256 + d
  }

  /** The bytes are those of the number, a negative one as its complement to two to the 32. */
  lemma BigEndian(n: Int32)
    ensures var b := EncodeInt32(n);
            Unsigned(b[0], b[1], b[2], b[3]) == if n < 0 then 4294967296 + n else n
  {
    var u := if n < 0 then n + 0x1_0000_0000 else n;
    var a, b, c := u / 0x100, u / 0x1_0000, u / 0x100_0000;
    assert u == a * 0x100 + u % 0x100;
    assert a / 0x100 == b && a == b * 0x100 + a % 0x100;
    assert b / 0x100 == c && b == c * 0x100 + b % 0x100;
  }

  // ----- Frames -----

  datatype StreamMsg = StreamMsg(data: Bytes, isTrailer: bool)

  datatype ReadError =
    | EndOfInput                 // io.EOF
    | Truncated                  // io.ErrUnexpectedEOF
    | SizeOverflow
    | TooLarge(size: int)
    | Malformed                  // a line of an event stream that means nothing

  datatype ReadResult = Read(msg: StreamMsg) | Fail(err: ReadError)

  /** What the writer puts on the wire; nothing when the message is too large. */
  function EncodeFrame(data: Bytes, end: bool): Bytes
    requires |data| <= MAX_INT32
  {
    EncodeInt32(if end then -|data| else |data|) + data
  }

  /** What one read makes of the bytes in front of it, and how many it consumes. */
  function ReadFrame(b: Bytes): (r: (ReadResult, nat))
    ensures r.1 <= |b|
    ensures r.0.Read? ==> r.1 == 4 + |r.0.msg.data|
  {
    if b == [] then (Fail(EndOfInput), 0)
    else if |b| < 4 then (Fail(Truncated), |b|)
    else
      var sz := DecodeInt32(b[..4]);
      if sz == MIN_INT32 then (Fail(SizeOverflow), 4)
      else
        var size := if sz < 0 then -sz else sz;
        if size > MAX_MESSAGE_SIZE then (Fail(TooLarge(size)), 4)
        else if |b| - 4 < size then (Fail(Truncated), |b|)
        else (Read(StreamMsg(b[4..4 + size], sz < 0)), 4 + size)
  }

  /** A frame that was written is read back, whatever follows it: if it is not
      too large and, for a trailer, not empty. An empty trailer reads as a message. */
  lemma FrameRoundTrip(data: Bytes, end: bool, rest: Bytes)
    requires |data| <= MAX_INT32
    ensures ReadFrame(EncodeFrame(data, end) + rest)
         == if |data| > MAX_MESSAGE_SIZE then (Fail(TooLarge(|data|)), 4)
            else (Read(StreamMsg(data, end && data != [])), |EncodeFrame(data, end)|)
  {
    var sz := if end then -|data| else |data|;
    Int32RoundTrip(sz);
    hide EncodeInt32, DecodeInt32;
    var b := EncodeFrame(data, end) + rest;
    assert b[..4] == EncodeInt32(sz);
    assert |data| <= MAX_MESSAGE_SIZE ==> b[4..4 + |data|] == data;
  }

  /** A frame is the data after its size, which is negative for a trailer. */
  lemma FrameIs(data: Bytes, end: bool)
    requires |data| <= MAX_INT32
    ensures var f := EncodeFrame(data, end);
            && |f| == 4 + |data| && f[4..] == data
            && Unsigned(f[0], f[1], f[2], f[3])
               == if end && data != [] then 4294967296 - |data| else |data|
  {
    BigEndian(if end then -|data| else |data|);
    hide EncodeInt32;
  }

  /** What is written is accepted up to a hundred megabytes. */
  lemma SizeLimit(data: Bytes, end: bool, rest: Bytes)
    requires |data| <= MAX_INT32
    ensures ReadFrame(EncodeFrame(data, end) + rest).0.Read? <==> |data| <= 104857600
  {
    FrameRoundTrip(data, end, rest);
    hide ReadFrame, EncodeFrame;
  }

  /** Whatever is accepted was written by the writer, with a size within bounds
      and no overflow in the negation. */
  lemma FrameOnto(b: Bytes)
    ensures var (r, n) := ReadFrame(b);
            r.Read? ==>
              && 0 <= |r.msg.data| <= MAX_MESSAGE_SIZE
              && (r.msg.isTrailer ==> r.msg.data != [])
              && b == EncodeFrame(r.msg.data, r.msg.isTrailer) + b[n..]
  {
    var (r, n) := ReadFrame(b);
    if r.Read? {
      AcceptedSize(b);
      Int32Onto(b[..4]);
      hide EncodeInt32, DecodeInt32, ReadFrame;
      assert b == b[..4] + b[4..n] + b[n..];
    }
  }

  lemma AcceptedSize(b: Bytes)
    ensures var (r, n) := ReadFrame(b);
            r.Read? ==>
              && |b| >= 4 && n <= |b| && r.msg.data == b[4..n] && |r.msg.data| <= MAX_MESSAGE_SIZE
              && DecodeInt32(b[..4]) == (if r.msg.isTrailer then -|r.msg.data| else |r.msg.data|)
              && (r.msg.isTrailer ==> r.msg.data != [])
  {
    hide DecodeInt32;
  }

  lemma FrameTruncated(data: Bytes, end: bool, k: nat)
    requires |data| <= MAX_MESSAGE_SIZE && k < |EncodeFrame(data, end)|
    ensures ReadFrame(EncodeFrame(data, end)[..k]).0 in {Fail(EndOfInput), Fail(Truncated)}
  {
    var sz := if end then -|data| else |data|;
    Int32RoundTrip(sz);
    hide EncodeInt32, DecodeInt32;
    var b := EncodeFrame(data, end)[..k];
    if k >= 4 {
      assert b[..4] == EncodeInt32(sz);
    }
  }

  // ----- Bodies -----

  /** How a body ends for the reader loop: with a trailer, or with an error. */
  datatype End = TrailerEnd(data: Bytes) | Broken(err: ReadError)

  datatype Body = Body(frames: seq<Bytes>, end: End)

  /** The end of input in the middle of a stream is always unexpected. */
  function Unexpected(e: ReadError): ReadError {
    if e.EndOfInput? then Truncated else e
  }

  /** Everything the reader loop gets out of a body. */
  function ParseBody(b: Bytes): Body
    decreases |b|
  {
    var (r, n) := ReadFrame(b);
    match r
    case Fail(e) => Body([], Broken(Unexpected(e)))
    case Read(m) =>
      if m.isTrailer then Body([], TrailerEnd(m.data))
      else
        var rest := ParseBody(b[n..]);
        Body([m.data] + rest.frames, rest.end)
  }

  predicate Writable(msgs: seq<Bytes>) {
    forall m :: m in msgs ==> |m| <= MAX_INT32
  }

  predicate Readable(msgs: seq<Bytes>) {
    forall m :: m in msgs ==> |m| <= MAX_MESSAGE_SIZE
  }

  function EncodeAll(msgs: seq<Bytes>): Bytes
    requires Writable(msgs)
  {
    if msgs == [] then [] else EncodeFrame(msgs[0], false) + EncodeAll(msgs[1..])
  }

  lemma {:induction false} EncodeAllAppend(msgs: seq<Bytes>, m: Bytes)
    requires Writable(msgs) && |m| <= MAX_INT32
    ensures EncodeAll(msgs + [m]) == EncodeAll(msgs) + EncodeFrame(m, false)
  {
    hide EncodeFrame;
    if msgs == [] {
      assert msgs + [m] == [m] && [m][1..] == [];
    } else {
      assert (msgs + [m])[1..] == msgs[1..] + [m];
      EncodeAllAppend(msgs[1..], m);
    }
  }

  lemma EncodeAllFirst(msgs: seq<Bytes>, rest: Bytes)
    requires Writable(msgs) && msgs != []
    ensures EncodeAll(msgs) + rest == EncodeFrame(msgs[0], false) + (EncodeAll(msgs[1..]) + rest)
  {
    hide EncodeFrame;
  }

  /** The frames at the front of a body are read back, and then the rest. */
  lemma {:induction false} FramesRoundTrip(msgs: seq<Bytes>, rest: Bytes)
    requires Readable(msgs)
    ensures ParseBody(EncodeAll(msgs) + rest) == Body(msgs + ParseBody(rest).frames, ParseBody(rest).end)
  {
    hide EncodeFrame, ReadFrame, ParseBody;
    if msgs == [] {
      assert EncodeAll(msgs) + rest == rest;
      assert msgs + ParseBody(rest).frames == ParseBody(rest).frames;
    } else {
      hide EncodeAll;
      EncodeAllFirst(msgs, rest);
      FramesRoundTrip(msgs[1..], rest);
      ParseAfterFrame(msgs[0], EncodeAll(msgs[1..]) + rest);
      assert [msgs[0]] + (msgs[1..] + ParseBody(rest).frames) == msgs + ParseBody(rest).frames;
    }
  }

  lemma ParseAfterFrame(m: Bytes, tail: Bytes)
    requires |m| <= MAX_MESSAGE_SIZE
    ensures ParseBody(EncodeFrame(m, false) + tail) == Body([m] + ParseBody(tail).frames, ParseBody(tail).end)
  {
    hide EncodeFrame, ReadFrame;
    FrameRoundTrip(m, false, tail);
    var f := EncodeFrame(m, false);
    assert (f + tail)[|f|..] == tail;
  }

  /** A complete body is recovered exactly. */
  lemma BodyRoundTrip(msgs: seq<Bytes>, trailer: Bytes, rest: Bytes)
    requires Readable(msgs) && 0 < |trailer| <= MAX_MESSAGE_SIZE
    ensures ParseBody(EncodeAll(msgs) + EncodeFrame(trailer, true) + rest) == Body(msgs, TrailerEnd(trailer))
  {
    var t := EncodeFrame(trailer, true) + rest;
    FramesRoundTrip(msgs, t);
    FrameRoundTrip(trailer, true, rest);
    assert EncodeAll(msgs) + EncodeFrame(trailer, true) + rest == EncodeAll(msgs) + t;
    assert msgs + [] == msgs;
    hide EncodeFrame, ReadFrame, EncodeAll;
  }

  /** b starts with the encoding of what p says it holds. */
  ghost predicate Accounts(p: Body, b: Bytes) {
    && Readable(p.frames)
    && EncodeAll(p.frames) <= b
    && (p.end.TrailerEnd? ==>
          && 0 < |p.end.data| <= MAX_MESSAGE_SIZE
          && EncodeAll(p.frames) + EncodeFrame(p.end.data, true) <= b)
    && (p.end.Broken? ==> !p.end.err.EndOfInput?)
  }

  lemma AccountsCons(m: Bytes, p: Body, tail: Bytes)
    requires |m| <= MAX_MESSAGE_SIZE && Accounts(p, tail)
    ensures Accounts(Body([m] + p.frames, p.end), EncodeFrame(m, false) + tail)
  {
    hide EncodeFrame;
    var f, fs := EncodeFrame(m, false), [m] + p.frames;
    assert fs[1..] == p.frames;
    assert EncodeAll(fs) == f + EncodeAll(p.frames);
    PrefixAfter(f, EncodeAll(p.frames), tail);
    if p.end.TrailerEnd? {
      var t := EncodeFrame(p.end.data, true);
      PrefixAfter(f, EncodeAll(p.frames) + t, tail);
      assert f + (EncodeAll(p.frames) + t) == f + EncodeAll(p.frames) + t;
    }
  }

  /** The start of any body is the encoding of the frames it yields and, if it
      ends in a trailer, of that trailer; the end of input is never an error. */
  lemma {:induction false} BodyOnto(b: Bytes)
    ensures Accounts(ParseBody(b), b)
    decreases |b|
  {
    FrameOnto(b);
    var (r, n) := ReadFrame(b);
    hide EncodeFrame, ReadFrame;
    if r.Read? && !r.msg.isTrailer {
      BodyOnto(b[n..]);
      AccountsCons(r.msg.data, ParseBody(b[n..]), b[n..]);
      hide Accounts;
    } else if r.Read? {
      var t := EncodeFrame(r.msg.data, true);
      assert [] + t == t;
    }
  }

  lemma PrefixAfter(f: Bytes, x: Bytes, y: Bytes)
    requires x <= y
    ensures f + x <= f + y
  {
    assert y == x + y[|x|..];
    assert f + y == f + x + y[|x|..];
  }

  /** For every byte string: the reader sees a clean trailer exactly when the
      string starts with complete frames and then a complete trailer frame. */
  lemma CleanEndExactlyWhen(b: Bytes, msgs: seq<Bytes>, trailer: Bytes)
    requires Readable(msgs) && 0 < |trailer| <= MAX_MESSAGE_SIZE
    ensures ParseBody(b) == Body(msgs, TrailerEnd(trailer))
       <==> EncodeAll(msgs) + EncodeFrame(trailer, true) <= b
  {
    hide EncodeFrame, ReadFrame, EncodeAll, ParseBody;
    BodyOnto(b);
    var v := EncodeAll(msgs) + EncodeFrame(trailer, true);
    if v <= b {
      BodyRoundTrip(msgs, trailer, b[|v|..]);
      assert b == v + b[|v|..];
    }
  }

  /** Every proper prefix of a complete body is reported as truncated, after a
      prefix of its messages. */
  lemma {:induction false} TruncationDetected(msgs: seq<Bytes>, trailer: Bytes, k: nat)
    requires Readable(msgs) && 0 < |trailer| <= MAX_MESSAGE_SIZE
    requires k < |EncodeAll(msgs) + EncodeFrame(trailer, true)|
    ensures var p := ParseBody((EncodeAll(msgs) + EncodeFrame(trailer, true))[..k]);
            p.frames <= msgs && p.end == Broken(Truncated)
  {
    hide EncodeFrame, ReadFrame;
    var v := EncodeAll(msgs) + EncodeFrame(trailer, true);
    if msgs == [] {
      assert v == EncodeFrame(trailer, true);
      FrameTruncated(trailer, true, k);
    } else {
      var f, tail := EncodeFrame(msgs[0], false), EncodeAll(msgs[1..]) + EncodeFrame(trailer, true);
      assert v == f + tail;
      if k < |f| {
        assert v[..k] == f[..k];
        FrameTruncated(msgs[0], false, k);
      } else {
        var j := k - |f|;
        assert v[..k] == f + tail[..j];
        TruncationDetected(msgs[1..], trailer, j);
        ParseAfterFrame(msgs[0], tail[..j]);
        hide ParseBody, EncodeAll;
        PrefixCons(msgs, ParseBody(tail[..j]).frames);
      }
    }
  }

  lemma PrefixCons(msgs: seq<Bytes>, fs: seq<Bytes>)
    requires msgs != [] && fs <= msgs[1..]
    ensures [msgs[0]] + fs <= msgs
  {
    assert msgs == [msgs[0]] + msgs[1..];
  }
}
