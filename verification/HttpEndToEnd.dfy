/** Server and client together: what a handler sent over a GRPC-over-HTTP stream
    is what the client's RecvMsg returns, in every interleaving, and nothing that
    goes wrong on the way can look like a clean end. */
module HttpEndToEnd {
  import opened Prelude
  import opened Metadata
  import opened Framing
  import opened HttpStatus
  import opened HttpServer
  import opened HttpClient
  import opened HttpUnary
  import opened HttpReply
  import opened StatusMetadata
  import Sse

  // ----- The body a handler's run produces -----

  /** The messages a handler sent, in order. */
  function SentMessages(actions: seq<Action>): seq<Msg> {
    if actions == [] then []
    else
      var n := |actions| - 1;
      SentMessages(actions[..n]) + (if actions[n].DoSend? then [actions[n].m] else [])
  }

  lemma {:induction false} MarshalledAre(codec: Codec<Msg>, actions: seq<Action>)
    ensures |Marshalled(codec, actions)| == |SentMessages(actions)|
    ensures forall i :: 0 <= i < |SentMessages(actions)| ==>
                          Marshalled(codec, actions)[i] == codec.marshal(SentMessages(actions)[i])
  {
    if actions != [] {
      MarshalledAre(codec, actions[..|actions| - 1]);
    }
  }

  /** The trailer of a finished call never serializes to nothing, so it is never
      mistaken for a message. */
  lemma TrailerNotEmpty(trCodec: Codec<HttpTrailer>, tr: seq<MD>, err: Option<Stat>)
    requires LawfulForTrailers(trCodec)
    ensures trCodec.marshal(BuildTrailer(tr, err)) != []
  {
    var t := BuildTrailer(tr, err);
    assert t.code != CODE_OK || t.message == OK_TEXT;
  }

  function Wire(data: seq<Bytes>, trailer: Bytes): Bytes
    requires Writable(data) && |trailer| <= MAX_INT32
  {
    EncodeAll(data) + EncodeFrame(trailer, true)
  }

  /** A frame too large for the reader ends its reading there. */
  lemma OversizedStops(data: Bytes, end: bool, rest: Bytes)
    requires MAX_MESSAGE_SIZE < |data| <= MAX_INT32
    ensures ParseBody(EncodeFrame(data, end) + rest) == Body([], Broken(TooLarge(|data|)))
  {
    FrameRoundTrip(data, end, rest);
    hide EncodeFrame, ReadFrame;
  }

  lemma RestReadable(msgs: seq<Bytes>, k: nat)
    requires 0 < k < |msgs| && Readable(msgs[..k]) && Writable(msgs)
    ensures |msgs[0]| <= MAX_MESSAGE_SIZE && Writable(msgs[1..])
    ensures Readable(msgs[1..][..k - 1]) && [msgs[0]] + msgs[1..][..k - 1] == msgs[..k]
  {
    assert msgs[0] == msgs[..k][0];
    assert msgs[1..][..k - 1] == msgs[..k][1..];
  }

  /** The first message over the size limit is where a body is cut. */
  lemma {:induction false} CutAtOversized(msgs: seq<Bytes>, k: nat, rest: Bytes)
    requires Writable(msgs) && k < |msgs| && Readable(msgs[..k]) && |msgs[k]| > MAX_MESSAGE_SIZE
    ensures ParseBody(EncodeAll(msgs) + rest) == Body(msgs[..k], Broken(TooLarge(|msgs[k]|)))
    decreases k
  {
    hide EncodeFrame, ReadFrame, ParseBody, Readable;
    var tail := EncodeAll(msgs[1..]) + rest;
    assert EncodeAll(msgs) + rest == EncodeFrame(msgs[0], false) + tail;
    hide EncodeAll;
    if k == 0 {
      OversizedStops(msgs[0], false, tail);
      assert msgs[..0] == [];
    } else {
      RestReadable(msgs, k);
      hide Writable;
      CutAtOversized(msgs[1..], k - 1, rest);
      ParseAfterFrame(msgs[0], tail);
    }
  }

  ghost function FirstOversized(msgs: seq<Bytes>): (k: nat)
    requires !Readable(msgs)
    ensures k < |msgs| && Readable(msgs[..k]) && |msgs[k]| > MAX_MESSAGE_SIZE
  {
    if |msgs[0]| > MAX_MESSAGE_SIZE then 0
    else
      var k := 1 + FirstOversized(msgs[1..]);
      assert msgs[..k] == [msgs[0]] + msgs[1..][..k - 1];
      k
  }

  /** A complete body is read back exactly when nothing in it is over the limit. */
  lemma RecoveredExactlyWhen(data: seq<Bytes>, trailer: Bytes)
    requires Writable(data) && 0 < |trailer| <= MAX_INT32
    ensures ParseBody(Wire(data, trailer)) == Body(data, TrailerEnd(trailer))
       <==> Readable(data) && |trailer| <= MAX_MESSAGE_SIZE
    ensures !(Readable(data) && |trailer| <= MAX_MESSAGE_SIZE) ==>
              ParseBody(Wire(data, trailer)).end.Broken?
  {
    var b := Wire(data, trailer);
    var t := EncodeFrame(trailer, true);
    if !Readable(data) {
      CutAtOversized(data, FirstOversized(data), t);
    } else if |trailer| > MAX_MESSAGE_SIZE {
      assert t + [] == t;
      OversizedStops(trailer, true, []);
      FramesRoundTrip(data, t);
    } else {
      assert b + [] == b;
      BodyRoundTrip(data, trailer, []);
    }
    hide EncodeFrame, ParseBody, EncodeAll;
  }

  // ----- The two sides together -----

  datatype Codecs = Codecs(msg: Codec<Msg>, trailer: Codec<HttpTrailer>, detail: Codec<Detail>)

  ghost predicate LawfulCodecs(cs: Codecs) {
    Lawful(cs.msg) && LawfulForTrailers(cs.trailer)
  }

  /** A client of a streaming response that uses the server's codecs, with the reply
      as the round trip brings it and the body as its reader finds it. */
  function ClientOf(cs: Codecs, reply: Reply, body: Body): Env {
    Env(reply, body, true, cs.msg.unmarshal, cs.trailer.unmarshal)
  }

  /** The reply to a handler's run: its headers hold the metadata it set in time. */
  ghost function HandlerReply(cs: Codecs, r: Reading, actions: seq<Action>): Reply
    requires ValidReading(r, HeadersSet(actions))
  {
    ReplyOf(r, HeadersSet(actions), cs.detail)
  }

  /** How a handler's outcome reads on the client. */
  function EndFor(err: Option<Stat>): Outcome {
    match err
    case None => CleanEnd
    case Some(st) => Failed(StatusError(Stat(if st.code == 0 then 13 else st.code, st.message, st.details)))
  }

  /** The serialized trailer of a handler's run. */
  function TrailerBytes(cs: Codecs, actions: seq<Action>, err: Option<Stat>): Bytes {
    cs.trailer.marshal(BuildTrailer(TrailersSet(actions), err))
  }

  /** Everything a handler's run put on the wire, message by message. */
  function BodyFor(cs: Codecs, actions: seq<Action>, err: Option<Stat>): Body {
    Body(Marshalled(cs.msg, actions), TrailerEnd(TrailerBytes(cs, actions, err)))
  }

  /** The i-th RecvMsg returned the i-th message sent and, once there were no more,
      the handler's outcome: the end of the stream, or a status with the same code
      (internal instead of OK), message and details. The trailer metadata are the
      per-key concatenation of everything set. */
  ghost predicate AsHandled(s: Sys, actions: seq<Action>, err: Option<Stat>) {
    && (forall i :: 0 <= i < |s.outs| ==>
          s.outs[i] == if i < |SentMessages(actions)| then Got(SentMessages(actions)[i]) else EndFor(err))
    && (s.sh.done ==> s.sh.tr.metadata == JoinAll(TrailersSet(actions)))
  }

  /** In every interleaving that nothing disturbs. */
  ghost predicate AlwaysAsHandled(env: Env, actions: seq<Action>, err: Option<Stat>) {
    forall steps, s :: IsRun(Init(), env, steps, s) && !Disturbed(s) ==> AsHandled(s, actions, err)
  }

  /** Every RecvMsg of every such interleaving returned that failure. */
  ghost predicate AlwaysFails(env: Env, st: Stat) {
    forall steps, s :: IsRun(Init(), env, steps, s) && !Disturbed(s) ==>
                         forall o :: o in s.outs ==> o == Failed(StatusError(st))
  }

  /** The handler's header metadata name no failure; or they name the very one the
      handler returned, and it sent no message and set no trailer. */
  ghost predicate GetsThrough(cs: Codecs, r: Reading, actions: seq<Action>, err: Option<Stat>)
    requires ValidReading(r, HeadersSet(actions))
  {
    || NoFailureSet(r, HeadersSet(actions))
    || (&& SentMessages(actions) == [] && JoinAll(TrailersSet(actions)) == map[]
        && err.Some? && HandlerReply(cs, r, actions) == ErrorStatus(EffectiveStat(err.value)))
  }

  /** Once the frames get across, so do the messages and the outcome, whatever the
      framing was, if the client gets to read them. */
  lemma BodyDelivered(cs: Codecs, actions: seq<Action>, err: Option<Stat>, steps: seq<Step>, s: Sys)
    requires LawfulCodecs(cs)
    requires IsRun(Init(), ClientOf(cs, Streaming, BodyFor(cs, actions, err)), steps, s) && !Disturbed(s)
    ensures AsHandled(s, actions, err)
    ensures s.sh.done ==> s.sh.tr == BuildTrailer(TrailersSet(actions), err)
  {
    var env := ClientOf(cs, Streaming, BodyFor(cs, actions, err));
    var t := BuildTrailer(TrailersSet(actions), err);
    assert env.decodeTrailer(cs.trailer.marshal(t)) == Some(t);
    assert EndOutcome(env) == EndFor(err);
    StreamRefinesBody(env, steps, s);
    if s.sh.done {
      TrailerTaken(env, steps, s);
    }
    MarshalledAre(cs.msg, actions);
    hide Marshalled, TrailersSet, IsRun, SentMessages, EndOutcome;
    forall i | 0 <= i < |SentMessages(actions)|
      ensures FrameOutcome(env, i) == Got(SentMessages(actions)[i])
    {
      assert env.decode(env.body.frames[i]) == cs.msg.unmarshal(cs.msg.marshal(SentMessages(actions)[i]));
    }
  }

  lemma StatusIsHandled(env: Env, actions: seq<Action>, err: Option<Stat>)
    requires env.reply.ErrorStatus? && env.reply.stat.code != CODE_OK
    ensures AlwaysFails(env, env.reply.stat)
    ensures AlwaysAsHandled(env, actions, err)
       <==> && SentMessages(actions) == [] && JoinAll(TrailersSet(actions)) == map[]
            && err.Some? && env.reply.stat == EffectiveStat(err.value)
  {
    hide IsRun, SentMessages, TrailersSet, Disturbed;
    forall steps, s | IsRun(Init(), env, steps, s) && !Disturbed(s)
      ensures s.sh.tr.metadata == map[] && forall o :: o in s.outs ==> o == Failed(StatusError(env.reply.stat))
    {
      StatusReplaces(env, steps, s);
    }
    var steps, s := StatusReported(env);
    assert s.sh.tr.metadata == map[] && s.outs[0] == Failed(StatusError(env.reply.stat));
    if AlwaysAsHandled(env, actions, err) {
      assert AsHandled(s, actions, err);
    }
    if SentMessages(actions) == [] && EndFor(err) == Failed(StatusError(env.reply.stat)) {
      forall steps, s | IsRun(Init(), env, steps, s) && !Disturbed(s) && JoinAll(TrailersSet(actions)) == map[]
        ensures AsHandled(s, actions, err)
      {
        assert forall i :: 0 <= i < |s.outs| ==> s.outs[i] in s.outs;
      }
    }
  }

  /** When the client gets what the handler's run sent, whatever the framing was. It
      does exactly if the handler's header metadata hold nothing under the status
      name, or the first value there names no failure; short of naming the failure
      that the handler returned without sending anything else. In all other cases
      every RecvMsg returns the failure named there, and nothing that was sent. */
  lemma DeliveredExactlyWhen(cs: Codecs, r: Reading, actions: seq<Action>, err: Option<Stat>)
    requires LawfulCodecs(cs) && ValidReading(r, HeadersSet(actions))
    ensures var reply := HandlerReply(cs, r, actions);
            var env := ClientOf(cs, reply, BodyFor(cs, actions, err));
            && (AlwaysAsHandled(env, actions, err) <==> GetsThrough(cs, r, actions, err))
            && (!NoFailureSet(r, HeadersSet(actions)) ==> reply.ErrorStatus? && AlwaysFails(env, reply.stat))
  {
    StreamsExactlyWhen(r, HeadersSet(actions), cs.detail);
    var reply := HandlerReply(cs, r, actions);
    var env := ClientOf(cs, reply, BodyFor(cs, actions, err));
    hide ReplyOf, NoFailureSet, ValidReading, HeadersSet, IsRun, AsHandled, BodyFor, Disturbed;
    if reply == Streaming {
      forall steps, s | IsRun(Init(), env, steps, s) && !Disturbed(s) ensures AsHandled(s, actions, err) {
        BodyDelivered(cs, actions, err, steps, s);
      }
    } else {
      StatusIsHandled(env, actions, err);
    }
  }

  /** End to end: a handler's run without write failures, its messages and trailer
      within the size limit, read by a client. */
  lemma EndToEnd(cs: Codecs, r: Reading, actions: seq<Action>, err: Option<Stat>, out: Bytes)
    requires LawfulCodecs(cs) && ValidReading(r, HeadersSet(actions))
    requires Readable(Marshalled(cs.msg, actions)) && |TrailerBytes(cs, actions, err)| <= MAX_MESSAGE_SIZE
    requires out == Wire(Marshalled(cs.msg, actions), TrailerBytes(cs, actions, err))
    ensures var env := ClientOf(cs, HandlerReply(cs, r, actions), ParseBody(out));
            AlwaysAsHandled(env, actions, err) <==> GetsThrough(cs, r, actions, err)
  {
    TrailerNotEmpty(cs.trailer, TrailersSet(actions), err);
    RecoveredExactlyWhen(Marshalled(cs.msg, actions), TrailerBytes(cs, actions, err));
    hide ParseBody, Wire, Marshalled, TrailersSet, HeadersSet, ValidReading, HandlerReply, AlwaysAsHandled, GetsThrough;
    DeliveredExactlyWhen(cs, r, actions, err);
  }

  /** The same over server-sent events, when everything serializes to one line. */
  lemma EndToEndEvents(cs: Codecs, r: Reading, actions: seq<Action>, err: Option<Stat>, out: Bytes)
    requires LawfulCodecs(cs) && ValidReading(r, HeadersSet(actions))
    requires Sse.OneLine(Marshalled(cs.msg, actions)) && Sse.CleanField(TrailerBytes(cs, actions, err))
    requires out == Sse.EventWire(Marshalled(cs.msg, actions), TrailerBytes(cs, actions, err))
    ensures var env := ClientOf(cs, HandlerReply(cs, r, actions), Sse.ParseEvents(out));
            AlwaysAsHandled(env, actions, err) <==> GetsThrough(cs, r, actions, err)
  {
    Sse.EventWireRoundTrip(Marshalled(cs.msg, actions), TrailerBytes(cs, actions, err));
    hide Sse.EventWire, Sse.ParseEvents, Marshalled, TrailersSet, HeadersSet, ValidReading, HandlerReply,
         AlwaysAsHandled, GetsThrough;
    DeliveredExactlyWhen(cs, r, actions, err);
  }

  /** The same for a method with a single response: the first RecvMsg succeeds if
      and only if the handler sent exactly one message and no error, and its header
      metadata name no failure. A failure they name is what it returns; otherwise no
      message reads as the handler's outcome, one message and an error as the error,
      and more messages as a failure. */
  lemma EndToEndUnary(cs: Codecs, r: Reading, actions: seq<Action>, err: Option<Stat>, out: Bytes,
                      steps: seq<Step>, s: Sys)
    requires LawfulCodecs(cs) && ValidReading(r, HeadersSet(actions))
    requires Readable(Marshalled(cs.msg, actions)) && |TrailerBytes(cs, actions, err)| <= MAX_MESSAGE_SIZE
    requires out == Wire(Marshalled(cs.msg, actions), TrailerBytes(cs, actions, err))
    requires IsRun(Init(), ClientOf(cs, HandlerReply(cs, r, actions), ParseBody(out)).(respStream := false), steps, s)
    requires !Disturbed(s) && |s.outs| > 0
    ensures var msgs, reply := SentMessages(actions), HandlerReply(cs, r, actions);
            && (s.outs[0].Got? <==> NoFailureSet(r, HeadersSet(actions)) && |msgs| == 1 && err.None?)
            && (s.outs[0].Got? ==> s.outs[0] == Got(msgs[0]))
            && (!NoFailureSet(r, HeadersSet(actions)) ==>
                  reply.ErrorStatus? && s.outs[0] == Failed(StatusError(reply.stat)))
            && (NoFailureSet(r, HeadersSet(actions)) && (|msgs| == 0 || (|msgs| == 1 && err.Some?)) ==>
                  s.outs[0] == EndFor(err))
            && (|msgs| > 1 ==> s.outs[0].Failed?)
  {
    StreamsExactlyWhen(r, HeadersSet(actions), cs.detail);
    var reply := HandlerReply(cs, r, actions);
    hide ReplyOf, NoFailureSet, ValidReading, HeadersSet, IsRun, ParseBody, Wire, Marshalled, TrailersSet, SentMessages;
    if reply == Streaming {
      SingleDelivered(cs, actions, err, out, steps, s);
    } else {
      StatusReplaces(ClientOf(cs, reply, ParseBody(out)).(respStream := false), steps, s);
      assert s.outs[0] in s.outs;
    }
  }

  lemma SingleDelivered(cs: Codecs, actions: seq<Action>, err: Option<Stat>, out: Bytes, steps: seq<Step>, s: Sys)
    requires LawfulCodecs(cs)
    requires Readable(Marshalled(cs.msg, actions)) && |TrailerBytes(cs, actions, err)| <= MAX_MESSAGE_SIZE
    requires out == Wire(Marshalled(cs.msg, actions), TrailerBytes(cs, actions, err))
    requires IsRun(Init(), ClientOf(cs, Streaming, ParseBody(out)).(respStream := false), steps, s)
    requires !Disturbed(s) && |s.outs| > 0
    ensures var msgs := SentMessages(actions);
            && (|msgs| == 1 && err.None? ==> s.outs[0] == Got(msgs[0]))
            && (|msgs| == 0 || (|msgs| == 1 && err.Some?) ==> s.outs[0] == EndFor(err))
            && (|msgs| > 1 ==> s.outs[0].Failed?)
  {
    var env := ClientOf(cs, Streaming, ParseBody(out)).(respStream := false);
    var t := BuildTrailer(TrailersSet(actions), err);
    TrailerNotEmpty(cs.trailer, TrailersSet(actions), err);
    RecoveredExactlyWhen(Marshalled(cs.msg, actions), TrailerBytes(cs, actions, err));
    MarshalledAre(cs.msg, actions);
    UndisturbedOutcome(env, steps, s);
    hide ParseBody, Wire, Marshalled, TrailersSet, IsRun, SentMessages;
    assert env.decodeTrailer(cs.trailer.marshal(t)) == Some(t);
    if SentMessages(actions) != [] {
      assert env.decode(env.body.frames[0]) == cs.msg.unmarshal(cs.msg.marshal(SentMessages(actions)[0]));
      assert Decodes(env, 0);
    }
    assert FirstDecodable(env, 0) == 0;
    assert Expected(env, 0, 0, s.outs[0]);
  }

  /** The calls of a handler that sets the metadata x-grpc-status to a code other than
      zero, sends a message and returns no error. */
  function MisleadingCalls(code: Int32, message: Bytes, m: Msg): seq<Action> {
    [DoSetHeader(FailureMetadata(code, message), false), DoSend(m)]
  }

  /** Its client never sees the message, only that failure; over any framing, whatever
      the order of keys and the other headers, details aside. */
  lemma MessageHidden(cs: Codecs, r: Reading, code: Int32, message: Bytes, m: Msg)
    requires LawfulCodecs(cs) && code != CODE_OK
    requires ValidReading(r, HeadersSet(MisleadingCalls(code, message, m)))
    ensures var actions := MisleadingCalls(code, message, m);
            var reply := HandlerReply(cs, r, actions);
            && SentMessages(actions) == [m]
            && reply.ErrorStatus? && reply.stat.code == code && reply.stat.message == message
            && AlwaysFails(ClientOf(cs, reply, BodyFor(cs, actions, None)), reply.stat)
            && !AlwaysAsHandled(ClientOf(cs, reply, BodyFor(cs, actions, None)), actions, None)
  {
    var actions := MisleadingCalls(code, message, m);
    MisleadingSets(code, message, m);
    FailureIsSet(r, code, message);
    hide HeadersSet, SentMessages, MisleadingCalls, ValidReading;
    DeliveredExactlyWhen(cs, r, actions, None);
    FailureRead(r, HeadersSet(actions), cs.detail, HandlerReply(cs, r, actions).stat);
  }

  lemma MisleadingSets(code: Int32, message: Bytes, m: Msg)
    ensures var actions := MisleadingCalls(code, message, m);
            SentMessages(actions) == [m] && HeadersSet(actions) == [FailureMetadata(code, message)]
  {
    var actions, md := MisleadingCalls(code, message, m), FailureMetadata(code, message);
    hide FailureMetadata;
    assert actions[..1] == [DoSetHeader(md, false)] && actions[..1][..0] == [];
    assert SentMessages(actions[..1]) == [] && HeadersSet(actions[..1]) == [md];
  }

  // ----- What goes wrong never looks like a clean end -----

  /** Nothing after complete message frames but what cannot start a trailer. */
  lemma BrokenAfter(sent: seq<Bytes>, rest: Bytes)
    requires Writable(sent) && ParseBody(rest).end.Broken?
    ensures ParseBody(EncodeAll(sent) + rest).end.Broken?
  {
    if Readable(sent) {
      FramesRoundTrip(sent, rest);
    } else {
      CutAtOversized(sent, FirstOversized(sent), rest);
    }
    hide ParseBody, EncodeAll;
  }

  lemma PartOfMessageIsBroken(m: Bytes, k: nat)
    requires |m| <= MAX_INT32 && k <= |EncodeFrame(m, false)|
    ensures ParseBody(EncodeFrame(m, false)[..k]).end.Broken?
  {
    var f := EncodeFrame(m, false);
    if k == |f| {
      assert f[..k] == f + [];
      if |m| <= MAX_MESSAGE_SIZE {
        ParseAfterFrame(m, []);
      } else {
        OversizedStops(m, false, []);
      }
    } else if |m| <= MAX_MESSAGE_SIZE {
      FrameTruncated(m, false, k);
    } else {
      PartOfOversized(m, false, k);
    }
  }

  lemma PartOfOversized(data: Bytes, end: bool, k: nat)
    requires MAX_MESSAGE_SIZE < |data| <= MAX_INT32 && k <= |EncodeFrame(data, end)|
    ensures ParseBody(EncodeFrame(data, end)[..k]).end.Broken?
  {
    var sz := if end then -|data| else |data|;
    Int32RoundTrip(sz);
    hide EncodeInt32, DecodeInt32;
    var b := EncodeFrame(data, end)[..k];
    if k >= 4 {
      assert b[..4] == EncodeInt32(sz);
    }
  }

  /** No success is seen by any client of the body, of streaming or single responses,
      whatever came with the reply. */
  ghost predicate FailureSeen(cs: Codecs, reply: Reply, body: Body, respStream: bool, steps: seq<Step>, s: Sys) {
    var env := ClientOf(cs, reply, body).(respStream := respStream);
    ValidEnv(env) && IsRun(Init(), env, steps, s) ==> forall o :: o in s.outs ==> !Succeeds(env, o)
  }

  lemma BrokenIsSeen(cs: Codecs, reply: Reply, body: Body, respStream: bool, steps: seq<Step>, s: Sys)
    requires body.end.Broken? || cs.trailer.unmarshal(body.end.data).None?
    ensures FailureSeen(cs, reply, body, respStream, steps, s)
  {
    var env := ClientOf(cs, reply, body).(respStream := respStream);
    hide IsRun, Succeeds;
    if ValidEnv(env) && IsRun(Init(), env, steps, s) {
      SuccessMeansEnd(env, steps, s);
    }
  }

  /** After a failed write, whatever part of the frame went out, the body has no end:
      in every interleaving, disturbed or not, no client of a streaming response
      sees a clean end, and no client of a single response a response or an end. */
  lemma WriteFailureIsSeen(out: Bytes, sent: seq<Bytes>, cs: Codecs, reply: Reply,
                           respStream: bool, steps: seq<Step>, s: Sys)
    requires PartialFrame(out, sent)
    ensures FailureSeen(cs, reply, ParseBody(out), respStream, steps, s)
  {
    var m: Bytes, k :| |m| <= MAX_INT32 && 0 <= k <= |EncodeFrame(m, false)|
                       && out == EncodeAll(sent) + EncodeFrame(m, false)[..k];
    PartOfMessageIsBroken(m, k);
    hide ParseBody, EncodeFrame, EncodeAll, PartialFrame, FailureSeen;
    BrokenAfter(sent, EncodeFrame(m, false)[..k]);
    BrokenIsSeen(cs, reply, ParseBody(out), respStream, steps, s);
  }

  /** Likewise when the trailer went out only in part, or was too large to. */
  lemma TrailerFailureIsSeen(out: Bytes, sent: seq<Bytes>, t: Bytes, cs: Codecs, reply: Reply,
                           respStream: bool, steps: seq<Step>, s: Sys)
    requires t != [] && TrailerWrittenAfter(out, sent, t)
    requires |t| <= MAX_INT32 ==> out != EncodeAll(sent) + EncodeFrame(t, true)
    ensures FailureSeen(cs, reply, ParseBody(out), respStream, steps, s)
  {
    if |t| > MAX_INT32 {
      assert out == EncodeAll(sent) + [];
      BrokenAfter(sent, []);
    } else {
      var k :| 0 <= k <= |EncodeFrame(t, true)| && out == EncodeAll(sent) + EncodeFrame(t, true)[..k];
      PartOfTrailerIsBroken(t, k);
      hide ParseBody, EncodeFrame, EncodeAll, TrailerWrittenAfter;
      BrokenAfter(sent, EncodeFrame(t, true)[..k]);
    }
    hide ParseBody, EncodeFrame, EncodeAll, TrailerWrittenAfter, FailureSeen;
    BrokenIsSeen(cs, reply, ParseBody(out), respStream, steps, s);
  }

  lemma PartOfTrailerIsBroken(t: Bytes, k: nat)
    requires 0 < |t| <= MAX_INT32 && k < |EncodeFrame(t, true)|
    ensures ParseBody(EncodeFrame(t, true)[..k]).end.Broken?
  {
    if |t| <= MAX_MESSAGE_SIZE {
      FrameTruncated(t, true, k);
    } else {
      PartOfOversized(t, true, k);
    }
  }

  /** A client of server-sent events sees a success only if the body is complete, but
      for the last line feed at most, provided that no empty trailer decodes. */
  lemma EventTruncationIsSeen(msgs: seq<Bytes>, trailer: Bytes, k: nat, cs: Codecs, reply: Reply,
                           respStream: bool, steps: seq<Step>, s: Sys)
    requires Sse.OneLine(msgs) && Sse.CleanField(trailer) && k + 1 < |Sse.EventWire(msgs, trailer)|
    requires cs.trailer.unmarshal([]).None?
    ensures FailureSeen(cs, reply, Sse.ParseEvents(Sse.EventWire(msgs, trailer)[..k]), respStream, steps, s)
  {
    hide *;
    Sse.NoticedCut(msgs, trailer, k);
    BrokenIsSeen(cs, reply, Sse.ParseEvents(Sse.EventWire(msgs, trailer)[..k]), respStream, steps, s);
  }

  /** A client of size-prefixed frames sees a success only if the body is complete. */
  lemma TruncationIsSeen(msgs: seq<Bytes>, trailer: Bytes, k: nat, cs: Codecs, reply: Reply,
                         respStream: bool, steps: seq<Step>, s: Sys)
    requires Readable(msgs) && 0 < |trailer| <= MAX_MESSAGE_SIZE && k < |Wire(msgs, trailer)|
    ensures FailureSeen(cs, reply, ParseBody(Wire(msgs, trailer)[..k]), respStream, steps, s)
  {
    TruncationDetected(msgs, trailer, k);
    hide ParseBody, EncodeAll, EncodeFrame, FailureSeen;
    BrokenIsSeen(cs, reply, ParseBody(Wire(msgs, trailer)[..k]), respStream, steps, s);
  }
}
