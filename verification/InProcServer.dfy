/** The server stream of an in-process call as the object the handler uses: what its
    calls put into the response channel. How those writes interleave with the
    client is the matter of InProcStream. */
module InProcServer {
  import opened Prelude
  import opened Metadata
  import opened InProcFrames
  import opened InProcClient

  /** The write end of the response channel, with the context that guards it. The
      context can become done at any time; it never recovers. */
  class Responses {
    var written: seq<Frame>
    var closed: bool
    var ctxDone: bool

    constructor ()
      ensures written == [] && !closed && !ctxDone
    {
      written, closed, ctxDone := [], false, false;
    }

    /** writeMessage: with the context done it may still write, but reports an error
        either way. */
    method WriteMessage(f: Frame) returns (ok: bool)
      requires !closed
      modifies this`written, this`ctxDone
      ensures ok <==> !ctxDone
      ensures old(ctxDone) ==> ctxDone
      ensures written == old(written) + [f] || (ctxDone && written == old(written))
    {
      if * {
        ctxDone := true;
        return false;
      }
      written := written + [f];
      if * {
        ctxDone := true;
      }
      return !ctxDone;
    }

    method Close()
      requires !closed
      modifies this`closed
      ensures closed
    {
      closed := true;
    }
  }

  datatype SendResult = Sent | EndOfStream | NilMessage | ContextDone

  class ServerStream {
    const responses: Responses
    var state: StreamState
    var headers: MD
    var trailers: MD
    /** Metadata accepted by the setters, and messages whose SendMsg returned nil. */
    ghost var hdrLog: seq<MD>
    ghost var trlLog: seq<MD>
    ghost var sentOk: seq<Msg>
    ghost var result: Option<Err>

    constructor (responses: Responses)
      requires responses.written == [] && !responses.closed
      ensures this.responses == responses && Valid()
      ensures state == InHeaders && hdrLog == [] && trlLog == [] && sentOk == []
    {
      this.responses := responses;
      state, headers, trailers := InHeaders, map[], map[];
      hdrLog, trlLog, sentOk, result := [], [], [], None;
    }

    /** As long as the context is live, the channel holds exactly what was sent. */
    ghost predicate Valid()
      reads this, responses
    {
      && (responses.closed <==> state == Closed)
      && (state != Closed ==> trailers == JoinAll(trlLog))
      && (state == InHeaders ==> headers == JoinAll(hdrLog) && sentOk == [])
      && (!responses.ctxDone ==> responses.written == Expected())
    }

    ghost function Expected(): seq<Frame>
      reads this
    {
      match state
      case InHeaders => []
      case InMessages => HeaderFrames(JoinAll(hdrLog)) + DataFrames(sentOk)
      case Closed => Transcript(JoinAll(hdrLog), sentOk, JoinAll(trlLog), result)
    }

    /** SetHeader and SendHeader; metadata accumulates whether or not they are sent. */
    method SetHeader(md: MD, send: bool) returns (ok: bool)
      requires Valid()
      modifies this, responses`written, responses`ctxDone
      ensures Valid() && trlLog == old(trlLog) && sentOk == old(sentOk)
      ensures old(state) != InHeaders ==>
                !ok && state == old(state) && hdrLog == old(hdrLog) && responses.written == old(responses.written)
      ensures old(state) == InHeaders ==>
                && hdrLog == old(hdrLog) + [md]
                && (ok <==> !send || !responses.ctxDone || |JoinAll(hdrLog)| == 0)
                && state == (if send && ok then InMessages else InHeaders)
    {
      hide JoinAll, Join, DataFrames, HeaderFrames, Transcript;
      if state != InHeaders {
        return false;
      }
      JoinAllAppend(hdrLog, md);
      headers := Append(headers, md);
      hdrLog := hdrLog + [md];
      ok := true;
      if send {
        ok := SendHeadersLocked();
      }
    }

    /** The headers frame goes out once, if there is anything in it. */
    method SendHeadersLocked() returns (ok: bool)
      requires Valid() && state == InHeaders
      modifies this`state, this`headers, responses`written, responses`ctxDone
      ensures Valid()
      ensures ok <==> !responses.ctxDone || |JoinAll(hdrLog)| == 0
      ensures state == if ok then InMessages else InHeaders
      ensures old(responses.ctxDone) ==> responses.ctxDone
      ensures |JoinAll(hdrLog)| == 0 ==> responses.ctxDone == old(responses.ctxDone)
    {
      hide JoinAll, DataFrames, Transcript;
      NoData([Headers(headers)]);
      NoData([]);
      if |headers| > 0 {
        ok := responses.WriteMessage(Headers(headers));
        if !ok {
          return;
        }
      }
      headers, state := map[], InMessages;
      ok := true;
    }

    method TrySetTrailer(md: MD) returns (ok: bool)
      requires Valid()
      modifies this`trailers, this`trlLog
      ensures Valid()
      ensures ok <==> state != Closed
      ensures trlLog == if ok then old(trlLog) + [md] else old(trlLog)
    {
      if state == Closed {
        return false;
      }
      JoinAllAppend(trlLog, md);
      trailers := Append(trailers, md);
      trlLog := trlLog + [md];
      return true;
    }

    /** A message goes out after the headers; no message is refused, but only after
        the headers are out. */
    method SendMsg(m: Option<Msg>) returns (r: SendResult)
      requires Valid()
      modifies this`state, this`headers, this`sentOk, responses`written, responses`ctxDone
      ensures Valid()
      ensures old(responses.ctxDone) || old(state) == Closed ==>
                r == EndOfStream && state == old(state) && responses.written == old(responses.written)
      ensures r == Sent ==> m.Some? && sentOk == old(sentOk) + [m.value]
      ensures r != Sent ==> sentOk == old(sentOk)
      ensures old(state) != Closed && !responses.ctxDone ==> state == InMessages && (r == Sent <==> m.Some?)
    {
      hide JoinAll, HeaderFrames, DataFrames, Transcript;
      if responses.ctxDone || state == Closed {
        return EndOfStream;
      }
      if state == InHeaders {
        var ok := SendHeadersLocked();
        if !ok {
          return ContextDone;
        }
      }
      if m.None? {
        return NilMessage;
      }
      var ok := responses.WriteMessage(Data(m.value));
      if ok {
        OneMore(HeaderFrames(JoinAll(hdrLog)), sentOk, m.value);
        sentOk := sentOk + [m.value];
        return Sent;
      }
      return ContextDone;
    }

    /** One kind of frame at the end of the call; errors are ignored. */
    method WriteLast(fs: seq<Frame>)
      requires |fs| <= 1 && !responses.closed
      modifies responses`written, responses`ctxDone
      ensures !responses.ctxDone ==> !old(responses.ctxDone) && responses.written == old(responses.written) + fs
      ensures old(responses.written) <= responses.written
    {
      if |fs| > 0 {
        var _ := responses.WriteMessage(fs[0]);
        assert fs == [fs[0]];
      } else {
        assert responses.written + fs == responses.written;
      }
    }

    /** The end of the call: whatever is left goes out, in order, and the channel is
        closed, cancelled or not. In a live context the channel then holds the whole
        transcript of the call. */
    method Finish(err: Option<Err>)
      requires Valid() && state != Closed
      modifies this`state, this`trailers, this`result, responses
      ensures Valid() && state == Closed && responses.closed
      ensures result == err && sentOk == old(sentOk)
      ensures old(responses.written) <= responses.written
      ensures !responses.ctxDone ==>
                responses.written == Transcript(JoinAll(hdrLog), sentOk, JoinAll(trlLog), err)
    {
      hide JoinAll, HeaderFrames, DataFrames, TrailerFrames, ErrorFrames;
      if state == InHeaders {
        NoData(HeaderFrames(headers));
        WriteLast(HeaderFrames(headers));
      }
      WriteLast(TrailerFrames(trailers));
      trailers := map[];
      WriteLast(ErrorFrames(err));
      result := err;
      state := Closed;
      responses.Close();
    }
  }

  lemma NoData(fs: seq<Frame>)
    ensures [] + fs == fs == fs + DataFrames([])
  {
  }

  lemma OneMore(fs: seq<Frame>, ms: seq<Msg>, m: Msg)
    ensures fs + DataFrames(ms + [m]) == fs + DataFrames(ms) + [Data(m)]
  {
  }
}
