/** The request direction of a GRPC-over-HTTP stream: the client's SendMsg and the
    server's RecvMsg. There is no trailer in this direction; the end of the body
    is the end of the requests. */
module HttpRequest {
  import opened Prelude
  import opened Framing
  import opened HttpIo
  import opened HttpStatus
  import opened HttpServer

  // ----- The client -----

  class RequestWriter {
    const w: Sink
    const codec: Codec<Msg>
    var failed: bool
    ghost var sent: seq<Bytes>

    constructor (w: Sink, codec: Codec<Msg>)
      requires w.out == []
      ensures this.w == w && this.codec == codec && Valid() && !failed && sent == []
    {
      this.w, this.codec, failed, sent := w, codec, false, [];
    }

    ghost predicate Valid()
      reads this, w
    {
      && Writable(sent)
      && (!failed ==> w.out == EncodeAll(sent))
      && (failed ==> PartialFrame(w.out, sent))
    }

    /** `done` says whether the response has already ended. The first write error is
        reported, the stream then counts as closed. */
    method SendMsg(m: Msg, done: bool) returns (r: SendResult)
      requires Valid()
      modifies this`failed, this`sent, w
      ensures Valid()
      ensures done || old(failed) ==> r == SendEof && failed == old(failed) && sent == old(sent) && w.out == old(w.out)
      ensures !done && !old(failed) ==>
                && r != SendEof && (r == Sent <==> !failed)
                && sent == (if r == Sent then old(sent) + [codec.marshal(m)] else old(sent))
    {
      if done || failed {
        return SendEof;
      }
      var data := codec.marshal(m);
      var res := w.WriteProtoMessage(data, false);
      if res == Written {
        EncodeAllAppend(sent, data);
        sent := sent + [data];
        return Sent;
      }
      failed := true;
      if res == MessageTooLarge {
        NoPart(sent);
      }
      return SendFailed;
    }
  }

  // ----- The server -----

  datatype RecvResult =
    | Received(m: Msg)
    | EndOfRequests              // io.EOF
    | ReadFailed(err: ReadError)
    | BadRequest                 // a frame that does not decode
    | TooManyRequests

  /** One RecvMsg: its result, what is left to read, and the calls counted so far. */
  function RecvOnce(b: Bytes, multi: bool, recvd: nat, decode: Bytes -> Option<Msg>): (RecvResult, Bytes, nat) {
    if !multi && recvd > 0 then (EndOfRequests, b, recvd)
    else
      var (r, n) := ReadFrame(b);
      var rest := b[n..];
      if r.Fail? then (if r.err.EndOfInput? then EndOfRequests else ReadFailed(r.err), rest, recvd + 1)
      else
        var m := decode(r.msg.data);
        if m.None? then (BadRequest, rest, recvd + 1)
        else if multi then (Received(m.value), rest, recvd + 1)
        else
          var (r2, n2) := ReadFrame(rest);
          (if r2 == Fail(EndOfInput) then Received(m.value) else TooManyRequests, rest[n2..], recvd + 1)
  }

  class RequestReader {
    const src: Source
    const multi: bool
    const decode: Bytes -> Option<Msg>
    var recvd: nat

    constructor (src: Source, multi: bool, decode: Bytes -> Option<Msg>)
      ensures this.src == src && this.multi == multi && this.decode == decode && recvd == 0
    {
      this.src, this.multi, this.decode, recvd := src, multi, decode, 0;
    }

    method RecvMsg() returns (r: RecvResult)
      modifies this`recvd, src
      ensures (r, src.rest, recvd) == RecvOnce(old(src.rest), multi, old(recvd), decode)
    {
      hide ReadFrame;
      if !multi && recvd > 0 {
        return EndOfRequests;
      }
      recvd := recvd + 1;
      var msg := src.ReadMessage();
      if msg.Fail? {
        return if msg.err.EndOfInput? then EndOfRequests else ReadFailed(msg.err);
      }
      var m := decode(msg.msg.data);
      if m.None? {
        return BadRequest;
      }
      if !multi {
        var second := src.ReadMessage();
        if second != Fail(EndOfInput) {
          return TooManyRequests;
        }
      }
      return Received(m.value);
    }
  }

  /** A method with a single request: the first RecvMsg succeeds exactly when the
      body is one complete frame and nothing else, and decodes; every later one
      reports the end. */
  lemma SingleRequestExactlyWhen(b: Bytes, decode: Bytes -> Option<Msg>, m: Msg)
    ensures RecvOnce(b, false, 0, decode).0 == Received(m)
       <==> exists data: Bytes, flag ::
              && |data| <= MAX_MESSAGE_SIZE && (flag ==> data != [])
              && b == EncodeFrame(data, flag) && decode(data) == Some(m)
    ensures var (_, rest, n) := RecvOnce(b, false, 0, decode);
            RecvOnce(rest, false, n, decode) == (EndOfRequests, rest, n)
  {
    var (r, n) := ReadFrame(b);
    if RecvOnce(b, false, 0, decode).0 == Received(m) {
      FrameOnto(b);
      EndMeansEmpty(b[n..]);
      hide ReadFrame, EncodeFrame;
      assert EncodeFrame(r.msg.data, r.msg.isTrailer) + [] == EncodeFrame(r.msg.data, r.msg.isTrailer);
      assert b == EncodeFrame(r.msg.data, r.msg.isTrailer);
    }
    forall data: Bytes, flag |
      && |data| <= MAX_MESSAGE_SIZE && (flag ==> data != [])
      && b == EncodeFrame(data, flag) && decode(data) == Some(m)
      ensures RecvOnce(b, false, 0, decode).0 == Received(m)
    {
      FrameRoundTrip(data, flag, []);
      EndMeansEmpty([]);
      hide ReadFrame, EncodeFrame;
      assert b + [] == b && b[n..] == [];
    }
    hide ReadFrame, EncodeFrame;
  }

  /** The body starts with a frame that the reader accepts. */
  ghost predicate StartsWith(b: Bytes, data: Bytes, flag: bool, rest: Bytes) {
    |data| <= MAX_MESSAGE_SIZE && (flag ==> data != []) && b == EncodeFrame(data, flag) + rest
  }

  lemma StartsAs(b: Bytes, data: Bytes, flag: bool, rest: Bytes)
    requires StartsWith(b, data, flag, rest)
    ensures ReadFrame(b).0 == Read(StreamMsg(data, flag)) && b[ReadFrame(b).1..] == rest
  {
    FrameRoundTrip(data, flag, rest);
    hide ReadFrame, EncodeFrame;
  }

  /** What one RecvMsg makes of the next frame of the body: a request that does not
      decode is reported as such whatever follows, and not as an end; one that decodes
      is returned, unless the method takes a single request and more bytes follow,
      which is reported as too many and not as undecodable. */
  lemma FrameDecides(b: Bytes, multi: bool, recvd: nat, decode: Bytes -> Option<Msg>, data: Bytes, flag: bool, rest: Bytes)
    requires StartsWith(b, data, flag, rest) && (multi || recvd == 0)
    ensures var (r, left, n) := RecvOnce(b, multi, recvd, decode);
            && n == recvd + 1
            && (r == BadRequest <==> decode(data).None?)
            && (r == TooManyRequests <==> decode(data).Some? && !multi && rest != [])
            && (decode(data).Some? && (multi || rest == []) ==> r == Received(decode(data).value))
            && (multi || decode(data).None? ==> left == rest)
  {
    StartsAs(b, data, flag, rest);
    EndMeansEmpty(rest);
    hide ReadFrame, EncodeFrame, StartsWith;
  }

  /** Without one, the end of the requests is reported exactly if the body is empty. */
  lemma NoFrameDecides(b: Bytes, multi: bool, recvd: nat, decode: Bytes -> Option<Msg>)
    requires (multi || recvd == 0) && forall data, flag, rest :: !StartsWith(b, data, flag, rest)
    ensures var r := RecvOnce(b, multi, recvd, decode).0;
            if b == [] then r == EndOfRequests else r.ReadFailed?
  {
    EndMeansEmpty(b);
    AcceptedStarts(b);
    hide ReadFrame, StartsWith;
  }

  lemma AcceptedStarts(b: Bytes)
    ensures var (r, n) := ReadFrame(b);
            r.Read? ==> StartsWith(b, r.msg.data, r.msg.isTrailer, b[n..])
  {
    FrameOnto(b);
    hide ReadFrame, EncodeFrame;
  }

  lemma EndMeansEmpty(b: Bytes)
    ensures ReadFrame(b).0 == Fail(EndOfInput) <==> b == []
  {
  }

  /** The results of n calls of RecvMsg, one after the other. */
  function Results(b: Bytes, multi: bool, recvd: nat, decode: Bytes -> Option<Msg>, n: nat): (r: seq<RecvResult>)
    ensures |r| == n
    decreases n
  {
    if n == 0 then []
    else
      var (r, rest, recvd') := RecvOnce(b, multi, recvd, decode);
      [r] + Results(rest, multi, recvd', decode, n - 1)
  }

  function MarshalAll(codec: Codec<Msg>, msgs: seq<Msg>): (r: seq<Bytes>)
    ensures |r| == |msgs|
  {
    seq(|msgs|, i requires 0 <= i < |msgs| => codec.marshal(msgs[i]))
  }

  /** One message at the front of the body. */
  lemma RecvAfterFrame(codec: Codec<Msg>, m: Msg, tail: Bytes, recvd: nat)
    requires Lawful(codec) && |codec.marshal(m)| <= MAX_MESSAGE_SIZE
    ensures RecvOnce(EncodeFrame(codec.marshal(m), false) + tail, true, recvd, codec.unmarshal)
         == (Received(m), tail, recvd + 1)
  {
    var data := codec.marshal(m);
    assert codec.unmarshal(data) == Some(m);
    hide EncodeFrame, ReadFrame, Lawful;
    FrameRoundTrip(data, false, tail);
    var f := EncodeFrame(data, false);
    assert (f + tail)[|f|..] == tail;
  }

  function AllReceived(msgs: seq<Msg>): seq<RecvResult> {
    seq(|msgs|, i requires 0 <= i < |msgs| => Received(msgs[i]))
  }

  function Ends(n: nat): seq<RecvResult> {
    seq(n, i => EndOfRequests)
  }

  /** Nothing left: the end, over and over. */
  lemma {:induction false} EndForEver(recvd: nat, decode: Bytes -> Option<Msg>, n: nat)
    ensures Results([], true, recvd, decode, n) == Ends(n)
    decreases n
  {
    if n > 0 {
      EndForEver(recvd + 1, decode, n - 1);
    }
  }

  lemma FirstResult(b: Bytes, recvd: nat, decode: Bytes -> Option<Msg>, n: nat, m: Msg, tail: Bytes)
    requires n > 0 && RecvOnce(b, true, recvd, decode) == (Received(m), tail, recvd + 1)
    ensures Results(b, true, recvd, decode, n) == [Received(m)] + Results(tail, true, recvd + 1, decode, n - 1)
  {
    hide RecvOnce;
  }

  /** The messages at the front of a body are received, and then what follows. */
  lemma {:induction false} RequestsThen(codec: Codec<Msg>, msgs: seq<Msg>, rest: Bytes, recvd: nat, n: nat)
    requires Lawful(codec) && Readable(MarshalAll(codec, msgs))
    ensures Results(EncodeAll(MarshalAll(codec, msgs)) + rest, true, recvd, codec.unmarshal, |msgs| + n)
         == AllReceived(msgs) + Results(rest, true, recvd + |msgs|, codec.unmarshal, n)
    decreases |msgs|
  {
    hide EncodeFrame, RecvOnce, Lawful, Results;
    var data := MarshalAll(codec, msgs);
    if msgs == [] {
      assert EncodeAll(data) + rest == rest;
    } else {
      assert data[0] in data && data[1..] == MarshalAll(codec, msgs[1..]);
      assert AllReceived(msgs) == [Received(msgs[0])] + AllReceived(msgs[1..]);
      EncodeAllFirst(data, rest);
      hide EncodeAll, AllReceived, MarshalAll;
      var tail := EncodeAll(data[1..]) + rest;
      RecvAfterFrame(codec, msgs[0], tail, recvd);
      FirstResult(EncodeAll(data) + rest, recvd, codec.unmarshal, |msgs| + n, msgs[0], tail);
      RequestsThen(codec, msgs[1..], rest, recvd + 1, n);
    }
  }

  /** What the client sent is what the server's RecvMsg returns, call by call, and then
      the end, for ever. */
  lemma RequestsRoundTrip(codec: Codec<Msg>, msgs: seq<Msg>, n: nat)
    requires Lawful(codec) && Readable(MarshalAll(codec, msgs))
    ensures Results(EncodeAll(MarshalAll(codec, msgs)), true, 0, codec.unmarshal, |msgs| + n)
         == AllReceived(msgs) + Ends(n)
  {
    hide EncodeAll, EncodeFrame, Results, MarshalAll, AllReceived, Ends, Lawful;
    RequestsThen(codec, msgs, [], 0, n);
    EndForEver(|msgs|, codec.unmarshal, n);
    var b := EncodeAll(MarshalAll(codec, msgs));
    assert b + [] == b;
  }

  /** A body cut off after whole frames and part of the next: the server receives
      exactly their messages; then it reports the cut, once, and the end from there
      on, unless the cut is between frames, where nothing tells it from a complete
      body. */
  lemma CutRequests(codec: Codec<Msg>, msgs: seq<Msg>, next: Bytes, k: nat, n: nat)
    requires Lawful(codec) && Readable(MarshalAll(codec, msgs))
    requires |next| <= MAX_MESSAGE_SIZE && k < |EncodeFrame(next, false)|
    ensures var b := EncodeAll(MarshalAll(codec, msgs)) + EncodeFrame(next, false)[..k];
            Results(b, true, 0, codec.unmarshal, |msgs| + n)
            == AllReceived(msgs) + (if k > 0 && n > 0 then [ReadFailed(Truncated)] + Ends(n - 1) else Ends(n))
  {
    hide EncodeAll, EncodeFrame, Results, MarshalAll, AllReceived, Ends, Lawful;
    RequestsThen(codec, msgs, EncodeFrame(next, false)[..k], 0, n);
    PartReceived(next, k, |msgs|, codec.unmarshal, n);
  }

  lemma PartReceived(next: Bytes, k: nat, recvd: nat, decode: Bytes -> Option<Msg>, n: nat)
    requires |next| <= MAX_MESSAGE_SIZE && k < |EncodeFrame(next, false)|
    ensures Results(EncodeFrame(next, false)[..k], true, recvd, decode, n)
         == if k > 0 && n > 0 then [ReadFailed(Truncated)] + Ends(n - 1) else Ends(n)
  {
    var part := EncodeFrame(next, false)[..k];
    if k == 0 || n == 0 {
      assert k == 0 ==> part == [];
      hide EncodeFrame;
      EndForEver(recvd, decode, n);
    } else {
      PartRead(next, k);
      hide EncodeFrame, ReadFrame, Ends;
      assert part[k..] == [];
      EndForEver(recvd + 1, decode, n - 1);
    }
  }

  lemma PartRead(next: Bytes, k: nat)
    requires |next| <= MAX_MESSAGE_SIZE && 0 < k < |EncodeFrame(next, false)|
    ensures ReadFrame(EncodeFrame(next, false)[..k]) == (Fail(Truncated), k)
  {
    Int32RoundTrip(|next|);
    hide EncodeInt32, DecodeInt32;
    var b := EncodeFrame(next, false)[..k];
    if k >= 4 {
      assert b[..4] == EncodeInt32(|next|);
    }
  }
}
