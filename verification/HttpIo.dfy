/** The reader and writer of size-prefixed streams, over a byte source and a byte
    sink that may fail. */
module HttpIo {
  import opened Prelude
  import opened Framing

  // ----- Reading -----

  /** A response body (or request body) being read. */
  class Source {
    var rest: Bytes

    constructor (data: Bytes)
      ensures rest == data
    {
      rest := data;
    }

    /** Reads exactly n bytes if they are there; otherwise consumes what is left
        and reports whether that was nothing at all. */
    method ReadFull(n: nat) returns (b: Bytes, err: Option<ReadError>)
      modifies this
      ensures |old(rest)| >= n ==> err == None && b == old(rest)[..n] && rest == old(rest)[n..]
      ensures |old(rest)| < n ==>
                && rest == []
                && err == Some(if old(rest) == [] then EndOfInput else Truncated)
    {
      if |rest| >= n {
        b, err := rest[..n], None;
        rest := rest[n..];
      } else {
        b, err := rest, Some(if rest == [] then EndOfInput else Truncated);
        rest := [];
      }
    }

    method ReadSizePreface() returns (sz: int, err: Option<ReadError>)
      modifies this
      ensures |old(rest)| >= 4 ==>
                && rest == old(rest)[4..] && sz == DecodeInt32(old(rest)[..4])
                && (err == None <==> sz != MIN_INT32)
                && (err != None ==> err == Some(SizeOverflow))
      ensures |old(rest)| < 4 ==>
                rest == [] && err == Some(if old(rest) == [] then EndOfInput else Truncated)
    {
      var b;
      b, err := ReadFull(4);
      sz := 0;
      if err == None {
        sz := DecodeInt32(b);
        if sz == MIN_INT32 {
          err := Some(SizeOverflow);
        }
      }
    }

    /** One message, or the reason there is none; never more than the maximum
        size is asked for. */
    method ReadMessage() returns (r: ReadResult)
      modifies this
      ensures (r, |old(rest)| - |rest|) == ReadFrame(old(rest))
      ensures rest == old(rest)[|old(rest)| - |rest|..]
    {
      ghost var before := rest;
      var size, err := ReadSizePreface();
      if err != None {
        return Fail(err.value);
      }
      var isTrailer := size < 0;
      if isTrailer {
        size := -size;
      }
      if size > MAX_MESSAGE_SIZE {
        return Fail(TooLarge(size));
      }
      var data;
      data, err := ReadFull(size);
      if err != None {
        return Fail(Truncated);
      }
      assert data == before[4..4 + size];
      assert rest == before[4 + size..];
      return Read(StreamMsg(data, isTrailer));
    }

    /** The reader loop: messages up to the trailer or the first error. It
        terminates because every message consumes at least its preface. */
    method ReadBody() returns (body: Body)
      modifies this
      ensures body == ParseBody(old(rest))
    {
      var frames := [];
      while true
        invariant ParseBody(old(rest)) == Body(frames + ParseBody(rest).frames, ParseBody(rest).end)
        decreases |rest|
      {
        ghost var left := ParseBody(rest);
        var r := ReadMessage();
        match r {
          case Fail(e) =>
            assert frames + [] == frames;
            return Body(frames, Broken(if e.EndOfInput? then Truncated else e));
          case Read(m) =>
            if m.isTrailer {
              assert frames + [] == frames;
              return Body(frames, TrailerEnd(m.data));
            }
            assert frames + left.frames == frames + [m.data] + ParseBody(rest).frames;
            frames := frames + [m.data];
        }
      }
    }
  }

  // ----- Writing -----

  datatype WriteResult = Written | WriteFailed | MessageTooLarge

  /** A connection being written. Each write consumes the next fault: None is a
      success, Some(k) an error after at most k bytes; once the faults are used
      up every write succeeds. */
  class Sink {
    var out: Bytes
    var faults: seq<Option<nat>>

    constructor (faults: seq<Option<nat>>)
      ensures out == [] && this.faults == faults
    {
      out, this.faults := [], faults;
    }

    ghost predicate Reliable()
      reads this
    {
      forall i :: 0 <= i < |faults| ==> faults[i] == None
    }

    method Write(b: Bytes) returns (ok: bool)
      modifies this
      ensures ok ==> out == old(out) + b
      ensures !ok ==> exists k :: 0 <= k <= |b| && out == old(out) + b[..k]
      ensures old(Reliable()) ==> ok && Reliable()
    {
      ok := true;
      var n := |b|;
      if faults != [] {
        var f := faults[0];
        faults := faults[1..];
        if f.Some? {
          ok := false;
          n := if f.value < n then f.value else n;
        }
      }
      assert b[..|b|] == b;
      assert 0 <= n <= |b|;
      out := out + b[..n];
    }

    /** Preface, then contents; a failure leaves a prefix of the frame behind. */
    method WriteProtoMessage(b: Bytes, end: bool) returns (r: WriteResult)
      modifies this
      ensures r == MessageTooLarge <==> |b| > MAX_INT32
      ensures r == MessageTooLarge ==> out == old(out) && faults == old(faults)
      ensures r == Written ==> out == old(out) + EncodeFrame(b, end)
      ensures r == WriteFailed ==>
                exists k :: 0 <= k <= |EncodeFrame(b, end)| && out == old(out) + EncodeFrame(b, end)[..k]
      ensures old(Reliable()) ==> r != WriteFailed && Reliable()
    {
      var sz := |b|;
      if sz > MAX_INT32 {
        return MessageTooLarge;
      }
      if end {
        sz := -sz;
      }
      ghost var before, frame := out, EncodeFrame(b, end);
      var preface := EncodeInt32(sz);
      hide EncodeInt32;
      var ok := Write(preface);
      if !ok {
        ghost var k :| 0 <= k <= 4 && out == before + preface[..k];
        assert frame[..k] == preface[..k];
        return WriteFailed;
      }
      ok := Write(b);
      if !ok {
        ghost var k :| 0 <= k <= |b| && out == before + preface + b[..k];
        assert frame[..4 + k] == preface + b[..k];
        assert out == before + frame[..4 + k];
        return WriteFailed;
      }
      assert out == before + frame;
      return Written;
    }
  }
}
