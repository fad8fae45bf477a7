/** The server side of a GRPC-over-HTTP stream: the stream object given to the
    handler, the trailer built from what the handler returned, and the body that
    results. */
module HttpServer {
  import opened Prelude
  import opened Metadata
  import opened Framing
  import opened HttpIo
  import opened HeaderMetadata
  import opened HttpStatus

  datatype HttpTrailer = HttpTrailer(metadata: MD, code: Int32, message: Bytes, details: seq<Detail>)

  /** A trailer with a field off its default does not serialize to nothing. */
  ghost predicate LawfulForTrailers(c: Codec<HttpTrailer>) {
    && Lawful(c)
    && forall t :: c.marshal(t) == [] ==> t == HttpTrailer(map[], CODE_OK, [], [])
  }

  function BuildTrailer(tr: seq<MD>, err: Option<Stat>): HttpTrailer {
    match err
    case None => HttpTrailer(JoinAll(tr), CODE_OK, OK_TEXT, [])
    case Some(st) =>
      var st := EffectiveStat(st);
      HttpTrailer(JoinAll(tr), st.code, st.message, st.details)
  }

  /** asTrailerProto and metadataFromProto: copies, key by key. */
  method CopyMetadata(md: MD) returns (r: MD)
    ensures r == md
  {
    r := map[];
    var todo := md.Keys;
    while todo != {}
      invariant todo <= md.Keys
      invariant r.Keys == md.Keys - todo
      invariant forall k :: k in r ==> r[k] == md[k]
      decreases |todo|
    {
      var k :| k in todo;
      r := r[k := md[k]];
      todo := todo - {k};
    }
  }

  // ----- The stream object -----

  datatype SendResult = Sent | SendEof | SendFailed

  class ServerStream {
    const w: Sink
    /** The headers of the reply. */
    const h: Header
    const codec: Codec<Msg>
    var headersSent: bool
    var writeFailed: bool
    var tr: seq<MD>
    /** The frames that went out complete. */
    ghost var sent: seq<Bytes>

    constructor (w: Sink, h: Header, codec: Codec<Msg>)
      requires w.out == []
      ensures this.w == w && this.h == h && this.codec == codec
      ensures Valid() && !headersSent && !writeFailed && tr == [] && sent == []
    {
      this.w, this.h, this.codec := w, h, codec;
      headersSent, writeFailed, tr, sent := false, false, [], [];
    }

    /** What is on the wire: the complete frames and, after a failed write, part
        of one more frame and nothing else. */
    ghost predicate Valid()
      reads this, w
    {
      && Writable(sent)
      && (!writeFailed ==> w.out == EncodeAll(sent))
      && (writeFailed ==> PartialFrame(w.out, sent) && headersSent)
    }

    method SetTrailer(md: MD)
      requires Valid()
      modifies this`tr
      ensures Valid() && tr == old(tr) + [md]
    {
      tr := tr + [md];
    }

    /** Headers can be added until they are sent, and then nothing is. */
    method SetHeader(md: Fields, send: bool) returns (ok: bool, ghost order: seq<string>)
      requires Valid()
      modifies this`headersSent, h
      ensures Valid() && ok == !old(headersSent)
      ensures headersSent == (old(headersSent) || send)
      ensures ok ==> Enumerates(order, md.Keys) && h.fields == WriteKeys(old(h.fields), md, "", order)
      ensures !ok ==> h.fields == old(h.fields)
    {
      ok, order := !headersSent, [];
      if ok {
        order := h.ToHeaders(md, "");
        if send {
          headersSent := true;
        }
      }
    }

    /** A message goes out as one more complete frame, or the stream is failed
        for good and later sends report the end of the stream. */
    method SendMsg(m: Msg) returns (r: SendResult)
      requires Valid()
      modifies this`headersSent, this`writeFailed, this`sent, w
      ensures Valid()
      ensures old(writeFailed) ==> r == SendEof && writeFailed && sent == old(sent) && w.out == old(w.out)
      ensures !old(writeFailed) ==>
                && (r == Sent <==> !writeFailed) && r != SendEof && headersSent
                && sent == (if r == Sent then old(sent) + [codec.marshal(m)] else old(sent))
      ensures old(w.Reliable()) ==> w.Reliable()
      ensures old(w.Reliable()) && !old(writeFailed) ==> (r == Sent <==> |codec.marshal(m)| <= MAX_INT32)
    {
      if writeFailed {
        return SendEof;
      }
      headersSent := true;
      var data := codec.marshal(m);
      var res := w.WriteProtoMessage(data, false);
      if res == Written {
        EncodeAllAppend(sent, data);
        sent := sent + [data];
        return Sent;
      }
      writeFailed := true;
      if res == MessageTooLarge {
        assert w.out == EncodeAll(sent) + [];
        NoPart(sent);
      }
      return SendFailed;
    }
  }

  /** Complete frames followed by part, possibly all, of one message frame. */
  ghost predicate PartialFrame(out: Bytes, sent: seq<Bytes>) {
    && Writable(sent)
    && exists m: Bytes, k ::
         |m| <= MAX_INT32 && 0 <= k <= |EncodeFrame(m, false)|
         && out == EncodeAll(sent) + EncodeFrame(m, false)[..k]
  }

  lemma NoPart(sent: seq<Bytes>)
    requires Writable(sent)
    ensures PartialFrame(EncodeAll(sent), sent)
  {
    var m: Bytes := [];
    assert EncodeAll(sent) == EncodeAll(sent) + EncodeFrame(m, false)[..0];
  }

  // ----- A whole call -----

  /** What a handler can do with its stream. */
  datatype Action = DoSetHeader(header: Fields, send: bool) | DoSetTrailer(md: MD) | DoSend(m: Msg)

  /** The message an action sends, if it sends one. */
  function DataOf(codec: Codec<Msg>, a: Action): seq<Bytes> {
    if a.DoSend? then [codec.marshal(a.m)] else []
  }

  function TrailersOf(a: Action): seq<MD> {
    if a.DoSetTrailer? then [a.md] else []
  }

  function Marshalled(codec: Codec<Msg>, actions: seq<Action>): seq<Bytes> {
    if actions == [] then []
    else
      var n := |actions| - 1;
      Marshalled(codec, actions[..n]) + DataOf(codec, actions[n])
  }

  function TrailersSet(actions: seq<Action>): seq<MD> {
    if actions == [] then []
    else
      var n := |actions| - 1;
      TrailersSet(actions[..n]) + TrailersOf(actions[n])
  }

  /** Whether a handler's calls send the headers, explicitly or with a message. */
  predicate HeadersGone(actions: seq<Action>) {
    exists a :: a in actions && (a.DoSend? || (a.DoSetHeader? && a.send))
  }

  /** The metadata that get into the headers: those set before the headers are sent. */
  function HeadersSet(actions: seq<Action>): seq<Fields> {
    if actions == [] then []
    else
      var n := |actions| - 1;
      HeadersSet(actions[..n])
      + (if actions[n].DoSetHeader? && !HeadersGone(actions[..n]) then [actions[n].header] else [])
  }

  method Do(str: ServerStream, a: Action) returns (ghost order: seq<string>)
    requires str.Valid()
    modifies str, str.w, str.h
    ensures str.Valid()
    ensures str.headersSent == (old(str.headersSent) || a.DoSend? || (a.DoSetHeader? && a.send))
    ensures a.DoSetHeader? && !old(str.headersSent) ==>
              && Enumerates(order, a.header.Keys)
              && str.h.fields == WriteKeys(old(str.h.fields), a.header, "", order)
    ensures !a.DoSetHeader? || old(str.headersSent) ==> str.h.fields == old(str.h.fields)
    ensures str.tr == old(str.tr) + TrailersOf(a)
    ensures !str.writeFailed ==> !old(str.writeFailed) && str.sent == old(str.sent) + DataOf(str.codec, a)
    ensures str.writeFailed ==> str.sent == old(str.sent)
    ensures old(str.w.Reliable()) ==>
              && str.w.Reliable()
              && (Writable(DataOf(str.codec, a)) && !old(str.writeFailed) ==> !str.writeFailed)
  {
    order := [];
    match a {
      case DoSetHeader(md, send) =>
        var ok;
        ok, order := str.SetHeader(md, send);
      case DoSetTrailer(md) => str.SetTrailer(md);
      case DoSend(m) =>
        assert str.codec.marshal(m) in DataOf(str.codec, a);
        var _ := str.SendMsg(m);
    }
  }

  /** The handler's calls, in order. */
  method RunHandler(str: ServerStream, actions: seq<Action>) returns (ghost orders: seq<seq<string>>)
    requires str.Valid() && !str.writeFailed && !str.headersSent && str.sent == [] && str.tr == []
    modifies str, str.w, str.h
    ensures str.Valid()
    ensures EnumerateAll(orders, HeadersSet(actions))
    ensures str.h.fields == WriteAll(old(str.h.fields), HeadersSet(actions), orders)
    ensures str.sent <= Marshalled(str.codec, actions)
    ensures !str.writeFailed ==> str.sent == Marshalled(str.codec, actions)
    ensures str.tr == TrailersSet(actions)
    ensures old(str.w.Reliable()) ==>
              str.w.Reliable() && (Writable(Marshalled(str.codec, actions)) ==> !str.writeFailed)
  {
    hide EncodeAll, PartialFrame, DataOf, TrailersOf, WriteKeys, Enumerates, HeadersWritten, HeadersGone, HeadersSet;
    orders := [];
    NothingWritten(str.h.fields);
    assert actions[..0] == [];
    for i := 0 to |actions|
      invariant str.Valid()
      invariant str.headersSent == HeadersGone(actions[..i])
      invariant HeadersWritten(old(str.h.fields), str.h.fields, actions[..i], orders)
      invariant str.sent <= Marshalled(str.codec, actions[..i])
      invariant !str.writeFailed ==> str.sent == Marshalled(str.codec, actions[..i])
      invariant str.tr == TrailersSet(actions[..i])
      invariant old(str.w.Reliable()) ==>
                  str.w.Reliable() && (Writable(Marshalled(str.codec, actions)) ==> !str.writeFailed)
    {
      assert actions[..i + 1][..i] == actions[..i];
      WritableGrows(str.codec, actions, i);
      ghost var before := str.h.fields;
      var order := Do(str, actions[i]);
      HeadersGrow(actions, i);
      orders := HeadersStep(old(str.h.fields), before, str.h.fields, actions, i, orders, order);
    }
    assert actions[..|actions|] == actions;
    HeadersWrittenAre(old(str.h.fields), str.h.fields, actions, orders);
  }

  /** What setting headers made of the header map. */
  ghost predicate HeadersWritten(h0: Fields, h: Fields, actions: seq<Action>, orders: seq<seq<string>>) {
    EnumerateAll(orders, HeadersSet(actions)) && h == WriteAll(h0, HeadersSet(actions), orders)
  }

  lemma NothingWritten(h: Fields)
    ensures HeadersWritten(h, h, [], []) && !HeadersGone([])
  {
  }

  lemma HeadersWrittenAre(h0: Fields, h: Fields, actions: seq<Action>, orders: seq<seq<string>>)
    requires HeadersWritten(h0, h, actions, orders)
    ensures EnumerateAll(orders, HeadersSet(actions)) && h == WriteAll(h0, HeadersSet(actions), orders)
  {
  }

  lemma HeadersStep(h0: Fields, h: Fields, h': Fields, actions: seq<Action>, i: nat,
                    orders: seq<seq<string>>, order: seq<string>)
    returns (orders': seq<seq<string>>)
    requires i < |actions| && HeadersWritten(h0, h, actions[..i], orders)
    requires var a := actions[i];
             if a.DoSetHeader? && !HeadersGone(actions[..i])
             then Enumerates(order, a.header.Keys) && h' == WriteKeys(h, a.header, "", order)
             else h' == h
    ensures HeadersWritten(h0, h', actions[..i + 1], orders')
  {
    HeadersGrow(actions, i);
    hide HeadersGone, HeadersSet, Enumerates, WriteKeys;
    var a, mds := actions[i], HeadersSet(actions[..i]);
    if a.DoSetHeader? && !HeadersGone(actions[..i]) {
      orders' := orders + [order];
      assert (mds + [a.header])[..|mds|] == mds && orders'[..|orders|] == orders;
    } else {
      orders' := orders;
      assert mds + [] == mds;
    }
  }

  lemma HeadersGrow(actions: seq<Action>, i: nat)
    requires i < |actions|
    ensures var a, before, after := actions[i], actions[..i], actions[..i + 1];
            && (HeadersGone(after) <==> HeadersGone(before) || a.DoSend? || (a.DoSetHeader? && a.send))
            && HeadersSet(after) == HeadersSet(before)
                                    + (if a.DoSetHeader? && !HeadersGone(before) then [a.header] else [])
  {
    assert actions[..i + 1] == actions[..i] + [actions[i]];
  }

  lemma WritableGrows(codec: Codec<Msg>, actions: seq<Action>, i: nat)
    requires i < |actions|
    ensures Marshalled(codec, actions[..i + 1]) == Marshalled(codec, actions[..i]) + DataOf(codec, actions[i])
    ensures Writable(Marshalled(codec, actions)) ==> Writable(DataOf(codec, actions[i]))
  {
    assert actions[..i + 1][..i] == actions[..i];
    MarshalledGrows(codec, actions, i + 1);
    var all := Marshalled(codec, actions);
    assert forall m :: m in DataOf(codec, actions[i]) ==> m in Marshalled(codec, actions[..i + 1]);
    assert forall m :: m in Marshalled(codec, actions[..i + 1]) ==> m in all;
  }

  /** The handler's calls, then the trailer unless a write failed. */
  method HandleStream(w: Sink, h: Header, codec: Codec<Msg>, trCodec: Codec<HttpTrailer>,
                      actions: seq<Action>, err: Option<Stat>)
    returns (writeFailed: bool, ghost sent: seq<Bytes>, ghost orders: seq<seq<string>>)
    requires w.out == []
    modifies w, h
    ensures EnumerateAll(orders, HeadersSet(actions))
    ensures h.fields == WriteAll(old(h.fields), HeadersSet(actions), orders)
    ensures Writable(sent) && sent <= Marshalled(codec, actions)
    ensures writeFailed ==> PartialFrame(w.out, sent)
    ensures !writeFailed ==>
              && sent == Marshalled(codec, actions)
              && TrailerWrittenAfter(w.out, sent, trCodec.marshal(BuildTrailer(TrailersSet(actions), err)))
    ensures old(w.Reliable()) && Writable(Marshalled(codec, actions)) ==>
              && !writeFailed
              && (var t := trCodec.marshal(BuildTrailer(TrailersSet(actions), err));
                  |t| <= MAX_INT32 ==> w.out == EncodeAll(sent) + EncodeFrame(t, true))
  {
    hide EncodeFrame, EncodeAll, PartialFrame;
    var str := new ServerStream(w, h, codec);
    orders := RunHandler(str, actions);
    sent, writeFailed := str.sent, str.writeFailed;
    if !writeFailed {
      var md := CopyMetadata(JoinAll(str.tr));
      var t := trCodec.marshal(BuildTrailer(str.tr, err).(metadata := md));
      var r := w.WriteProtoMessage(t, true);
      TrailerCases(w.out, sent, t, r);
    }
  }

  lemma TrailerCases(out: Bytes, sent: seq<Bytes>, t: Bytes, r: WriteResult)
    requires Writable(sent) && (r == MessageTooLarge <==> |t| > MAX_INT32)
    requires r == MessageTooLarge ==> out == EncodeAll(sent)
    requires r == Written ==> out == EncodeAll(sent) + EncodeFrame(t, true)
    requires r == WriteFailed ==>
               exists k :: 0 <= k <= |EncodeFrame(t, true)| && out == EncodeAll(sent) + EncodeFrame(t, true)[..k]
    ensures TrailerWrittenAfter(out, sent, t)
  {
    if r == Written {
      var f := EncodeFrame(t, true);
      assert f[..|f|] == f;
      hide EncodeFrame;
      assert 0 <= |f| <= |f| && out == EncodeAll(sent) + f[..|f|];
    }
  }

  /** All the messages, then as much of the trailer frame as could be written. */
  ghost predicate TrailerWrittenAfter(out: Bytes, sent: seq<Bytes>, t: Bytes) {
    && Writable(sent)
    && (|t| > MAX_INT32 ==> out == EncodeAll(sent))
    && (|t| <= MAX_INT32 ==>
          exists k :: 0 <= k <= |EncodeFrame(t, true)| && out == EncodeAll(sent) + EncodeFrame(t, true)[..k])
  }

  lemma {:induction false} MarshalledGrows(codec: Codec<Msg>, actions: seq<Action>, i: nat)
    requires i <= |actions|
    ensures Marshalled(codec, actions[..i]) <= Marshalled(codec, actions)
    decreases |actions| - i
  {
    if i < |actions| {
      assert actions[..i + 1][..i] == actions[..i];
      MarshalledGrows(codec, actions, i + 1);
    } else {
      assert actions[..i] == actions;
    }
  }
}
