/** The receive side of the in-process client stream: how Header and RecvMsg
    consume frames, including the peek slot that Header fills. */
module InProcClient {
  import opened Prelude
  import opened Metadata
  import opened InProcFrames

  datatype StreamState = InHeaders | InMessages | Closed

  /** The fields guarded by respMu. */
  datatype Client = Client(state: StreamState, last: Option<Frame>, headers: MD, trailers: MD)

  const INITIAL := Client(InHeaders, None, map[], map[])

  const TOO_MANY := Status(CODE_INTERNAL, "method should return 1 response message but server sent >1")

  /** What a pending read of the response channel is for: Header, RecvMsg, or
      the check after the single response of a unary-response call. */
  datatype ReadFor = ForHeader | ForRecv | ForMore(got: Msg)

  /** What readMessage can come back with. */
  datatype Item = Arrived(frame: Frame) | ChannelClosed | CtxDone

  /** What RecvMsg can return: a message, io.EOF from the closed channel, an
      error from an error frame, or a context error. */
  datatype Outcome = Got(msg: Msg) | End | Failed(err: Err) | Cancelled

  /** A call either reads again or returns; Header returns None on error. */
  datatype Turn =
    | ReadAgain(c: Client, k: ReadFor)
    | RecvReturns(c: Client, o: Outcome)
    | HeaderReturns(c: Client, h: Option<MD>)

  function BeginHeader(c: Client): Turn {
    if c.state == InHeaders then ReadAgain(c, ForHeader) else HeaderReturns(c, Some(c.headers))
  }

  /** RecvMsg looks at a peeked frame before it reads. */
  function BeginRecv(c: Client, unary: bool): Turn {
    if c.last.Some? && c.last.value.Data? then
      AfterData(c.(last := None), c.last.value.msg, unary)
    else if c.last.Some? && c.last.value.Error? then
      RecvReturns(c.(state := Closed), Failed(TranslateContextError(c.last.value.err)))
    else
      ReadAgain(c, ForRecv)
  }

  function AfterData(c: Client, m: Msg, unary: bool): Turn {
    if unary then ReadAgain(c, ForMore(m)) else RecvReturns(c, Got(m))
  }

  function OnItem(c: Client, k: ReadFor, item: Item, unary: bool): Turn {
    match k
    case ForHeader => OnItemForHeader(c, item)
    case ForRecv => OnItemForRecv(c, item, unary)
    case ForMore(m) => OnItemForMore(c, m, item)
  }

  function OnItemForHeader(c: Client, item: Item): Turn {
    match item
    case CtxDone => HeaderReturns(c, None)
    case ChannelClosed => HeaderReturns(c.(state := Closed), Some(c.headers))
    case Arrived(Headers(md)) => HeaderReturns(c.(state := InMessages, headers := md), Some(md))
    case Arrived(Trailers(md)) => HeaderReturns(c.(state := InMessages, trailers := md), Some(c.headers))
    case Arrived(Error(e)) => HeaderReturns(c.(state := Closed, last := Some(Error(e))), Some(c.headers))
    case Arrived(Data(m)) => HeaderReturns(c.(state := InMessages, last := Some(Data(m))), Some(c.headers))
  }

  function OnItemForRecv(c: Client, item: Item, unary: bool): Turn {
    match item
    case CtxDone => RecvReturns(c, Cancelled)
    case ChannelClosed => RecvReturns(c.(state := Closed), End)
    case Arrived(Headers(md)) => ReadAgain(c.(state := InMessages, headers := md), ForRecv)
    case Arrived(Trailers(md)) => ReadAgain(c.(trailers := md), ForRecv)
    case Arrived(Error(e)) =>
      RecvReturns(c.(state := Closed, last := Some(Error(e))), Failed(TranslateContextError(e)))
    case Arrived(Data(m)) => AfterData(c, m, unary)
  }

  /** The check for a second response: any error of the inner receive, even one
      the server sent, lets the first message through. */
  function OnItemForMore(c: Client, m: Msg, item: Item): Turn {
    match item
    case CtxDone => RecvReturns(c, Got(m))
    case ChannelClosed => RecvReturns(c.(state := Closed), Got(m))
    case Arrived(Headers(md)) => ReadAgain(c.(state := InMessages, headers := md), ForMore(m))
    case Arrived(Trailers(md)) => ReadAgain(c.(trailers := md), ForMore(m))
    case Arrived(Error(e)) => RecvReturns(c.(state := Closed, last := Some(Error(e))), Got(m))
    case Arrived(Data(_)) =>
      RecvReturns(c.(state := Closed, last := Some(Error(TOO_MANY))), Failed(TOO_MANY))
  }

  /** The check for a second response makes of every item, the context's end included,
      what a streaming receive does: where that returns a message there is one too
      many, and where it returns anything else the first message is let through. */
  lemma MoreIsOneItem(c: Client, m: Msg, item: Item)
    ensures var more := OnItemForMore(c, m, item);
            match OnItemForRecv(c, item, false)
            case ReadAgain(c', _) => more == ReadAgain(c', ForMore(m))
            case RecvReturns(c', o) =>
              if o.Got? then more.RecvReturns? && more.o == Failed(TOO_MANY)
                             && more.c.last == Some(Error(TOO_MANY))
              else more == RecvReturns(c', Got(m))
            case _ => false
  {
  }

  // ----- A whole call against the frames that will arrive, uncancelled -----

  /** Runs a call to its return: `pending` are the frames the channel still
      delivers before it is closed. */
  function Complete(t: Turn, pending: seq<Frame>, unary: bool): (r: (Turn, seq<Frame>))
    ensures !r.0.ReadAgain?
    ensures t.ReadAgain? && t.k.ForHeader? ==> r.0.HeaderReturns?
    ensures t.ReadAgain? && !t.k.ForHeader? ==> r.0.RecvReturns?
    ensures !t.ReadAgain? ==> r == (t, pending)
    decreases |pending|
  {
    if !t.ReadAgain? then (t, pending)
    else if pending == [] then (OnItem(t.c, t.k, ChannelClosed, unary), pending)
    else Complete(OnItem(t.c, t.k, Arrived(pending[0]), unary), pending[1..], unary)
  }

  function RecvCall(c: Client, pending: seq<Frame>, unary: bool): (Client, seq<Frame>, Outcome) {
    var (t, rest) := Complete(BeginRecv(c, unary), pending, unary);
    (t.c, rest, t.o)
  }

  function HeaderCall(c: Client, pending: seq<Frame>, unary: bool): (Client, seq<Frame>, Option<MD>) {
    var (t, rest) := Complete(BeginHeader(c), pending, unary);
    (t.c, rest, t.h)
  }

  // ----- Reference meaning of RecvMsg -----

  /** The frames RecvMsg is sensitive to: messages and errors. */
  function Strip(fs: seq<Frame>): seq<Frame> {
    if fs == [] then [] else Keep(fs[0]) + Strip(fs[1..])
  }

  function Keep(f: Frame): seq<Frame> {
    if f.Data? || f.Error? then [f] else []
  }

  /** What RecvMsg still has in front of it: the peeked frame, then the channel. */
  function Ahead(c: Client, pending: seq<Frame>): seq<Frame> {
    (if c.last.Some? then Keep(c.last.value) else []) + Strip(pending)
  }

  /** The outcome of a receive, read off the frames ahead. */
  function OutcomeOf(ahead: seq<Frame>, unary: bool): Outcome {
    if ahead == [] then End
    else match ahead[0]
      case Error(e) => Failed(TranslateContextError(e))
      case Data(m) => if unary && |ahead| > 1 && ahead[1].Data? then Failed(TOO_MANY) else Got(m)
      case _ => End
  }

  /** The frames ahead after a receive. Errors stay; a surplus response is
      replaced by the error it caused. */
  function AheadAfter(ahead: seq<Frame>, unary: bool): seq<Frame> {
    if ahead == [] then []
    else if !ahead[0].Data? then ahead
    else if unary && |ahead| > 1 && ahead[1].Data? then [Error(TOO_MANY)] + ahead[2..]
    else ahead[1..]
  }

  /** Reachable in sequence: a peeked frame is a message or an error, and it is
      never there while Header would still read. */
  ghost predicate Peeked(c: Client) {
    c.last.Some? ==> (c.last.value.Data? || c.last.value.Error?) && c.state != InHeaders
  }

  lemma StripOne(f: Frame)
    ensures Strip([f]) == Keep(f)
  {
    assert [f][1..] == [];
    assert Keep(f) + [] == Keep(f);
  }

  lemma {:induction false} CompleteMore(c: Client, m: Msg, pending: seq<Frame>, unary: bool)
    requires c.last.None?
    ensures var (t, rest) := Complete(ReadAgain(c, ForMore(m)), pending, unary);
            && t.o == OutcomeOf([Data(m)] + Strip(pending), true)
            && Ahead(t.c, rest) == AheadAfter([Data(m)] + Strip(pending), true)
            && Peeked(t.c)
    decreases |pending|
  {
    var ahead := [Data(m)] + Strip(pending);
    if pending != [] {
      var f := pending[0];
      var t := OnItem(c, ForMore(m), Arrived(f), unary);
      if t.ReadAgain? {
        assert Keep(f) + Strip(pending[1..]) == Strip(pending[1..]);
        CompleteMore(t.c, m, pending[1..], unary);
      } else {
        assert ahead[1..] == [f] + Strip(pending[1..]);
        assert ahead[1] == f;
        assert ahead[2..] == Strip(pending[1..]);
      }
    } else {
      assert ahead[1..] == [];
    }
  }

  lemma {:induction false} CompleteRecv(c: Client, pending: seq<Frame>, unary: bool)
    requires c.last.None?
    ensures var (t, rest) := Complete(ReadAgain(c, ForRecv), pending, unary);
            && t.o == OutcomeOf(Strip(pending), unary)
            && Ahead(t.c, rest) == AheadAfter(Strip(pending), unary)
            && Peeked(t.c)
    decreases |pending|
  {
    if pending != [] {
      var f := pending[0];
      var t := OnItem(c, ForRecv, Arrived(f), unary);
      if t.ReadAgain? && t.k.ForRecv? {
        assert Keep(f) + Strip(pending[1..]) == Strip(pending[1..]);
        CompleteRecv(t.c, pending[1..], unary);
      } else if t.ReadAgain? {
        CompleteMore(t.c, t.k.got, pending[1..], unary);
      } else {
        assert Strip(pending)[1..] == Strip(pending[1..]);
      }
    }
  }

  /** RecvMsg does what the reference says, peeked frame or not. */
  lemma RecvMeaning(c: Client, pending: seq<Frame>, unary: bool)
    requires Peeked(c)
    ensures var (c', rest, o) := RecvCall(c, pending, unary);
            && o == OutcomeOf(Ahead(c, pending), unary)
            && Ahead(c', rest) == AheadAfter(Ahead(c, pending), unary)
            && Peeked(c')
  {
    if c.last.None? {
      assert Ahead(c, pending) == Strip(pending);
      CompleteRecv(c, pending, unary);
    } else if c.last.value.Data? && unary {
      CompleteMore(c.(last := None), c.last.value.msg, pending, unary);
    }
  }

  /** Header leaves what RecvMsg will see untouched and never overwrites a peeked frame. */
  lemma HeaderMeaning(c: Client, pending: seq<Frame>, unary: bool)
    requires Peeked(c)
    ensures var (c', rest, h) := HeaderCall(c, pending, unary);
            && Ahead(c', rest) == Ahead(c, pending)
            && Peeked(c')
            && c'.state != InHeaders
            && h == Some(c'.headers)
            && (c.last.Some? ==> c'.last == c.last)
  {
    if c.state == InHeaders && pending != [] {
      assert Strip(pending) == Keep(pending[0]) + Strip(pending[1..]);
    }
  }

  // ----- Peek transparency over whole call sequences -----

  datatype Op = CallHeader | CallRecv

  /** The RecvMsg outcomes of a sequence of calls. */
  function Outcomes(ops: seq<Op>, c: Client, pending: seq<Frame>, unary: bool): seq<Outcome> {
    if ops == [] then []
    else if ops[0].CallHeader? then
      var (c', rest, _) := HeaderCall(c, pending, unary);
      Outcomes(ops[1..], c', rest, unary)
    else
      var (c', rest, o) := RecvCall(c, pending, unary);
      [o] + Outcomes(ops[1..], c', rest, unary)
  }

  /** The reference outcomes of n receives. */
  function ReferenceOutcomes(n: nat, ahead: seq<Frame>, unary: bool): seq<Outcome> {
    if n == 0 then []
    else [OutcomeOf(ahead, unary)] + ReferenceOutcomes(n - 1, AheadAfter(ahead, unary), unary)
  }

  function Receives(ops: seq<Op>): nat {
    if ops == [] then 0 else (if ops[0].CallRecv? then 1 else 0) + Receives(ops[1..])
  }

  lemma {:induction false} OutcomesMeaning(ops: seq<Op>, c: Client, pending: seq<Frame>, unary: bool)
    requires Peeked(c)
    ensures Outcomes(ops, c, pending, unary) == ReferenceOutcomes(Receives(ops), Ahead(c, pending), unary)
  {
    if ops != [] {
      if ops[0].CallHeader? {
        HeaderMeaning(c, pending, unary);
        var (c', rest, _) := HeaderCall(c, pending, unary);
        OutcomesMeaning(ops[1..], c', rest, unary);
      } else {
        RecvMeaning(c, pending, unary);
        var (c', rest, o) := RecvCall(c, pending, unary);
        OutcomesMeaning(ops[1..], c', rest, unary);
      }
    }
  }

  /** Header calls inserted or removed anywhere change no RecvMsg outcome,
      whatever frames the server sends. */
  lemma PeekTransparent(ops: seq<Op>, ops': seq<Op>, pending: seq<Frame>, unary: bool)
    requires Receives(ops) == Receives(ops')
    ensures Outcomes(ops, INITIAL, pending, unary) == Outcomes(ops', INITIAL, pending, unary)
  {
    OutcomesMeaning(ops, INITIAL, pending, unary);
    OutcomesMeaning(ops', INITIAL, pending, unary);
  }

  lemma {:induction false} StripConcat(a: seq<Frame>, b: seq<Frame>)
    ensures Strip(a + b) == Strip(a) + Strip(b)
  {
    hide Keep;
    if a == [] {
      assert a + b == b;
    } else {
      StripConcat(a[1..], b);
      assert (a + b)[1..] == a[1..] + b;
      assert Keep(a[0]) + (Strip(a[1..]) + Strip(b)) == (Keep(a[0]) + Strip(a[1..])) + Strip(b);
    }
  }

  lemma {:induction false} StripData(ms: seq<Msg>)
    ensures Strip(DataFrames(ms)) == DataFrames(ms)
  {
    if ms != [] {
      assert DataFrames(ms)[1..] == DataFrames(ms[1..]);
      StripData(ms[1..]);
    }
  }

  lemma StripSmall(md: MD, e: Option<Err>)
    ensures Strip(HeaderFrames(md)) == [] && Strip(TrailerFrames(md)) == []
    ensures Strip(ErrorFrames(e)) == ErrorFrames(e)
  {
    if |md| > 0 {
      StripOne(Headers(md));
      StripOne(Trailers(md));
    }
    if e.Some? {
      StripOne(Error(e.value));
    }
  }

  lemma StripTranscript(hdr: MD, ms: seq<Msg>, tlr: MD, e: Option<Err>)
    ensures Strip(Transcript(hdr, ms, tlr, e)) == DataFrames(ms) + ErrorFrames(e)
  {
    hide Strip, HeaderFrames, DataFrames, TrailerFrames, ErrorFrames;
    var h, d, t, x := HeaderFrames(hdr), DataFrames(ms), TrailerFrames(tlr), ErrorFrames(e);
    StripConcat(h + d + t, x);
    StripConcat(h + d, t);
    StripConcat(h, d);
    StripData(ms);
    StripSmall(hdr, e);
    StripSmall(tlr, e);
    assert [] + d + [] == d;
  }

  /** The first RecvMsg of a unary-response call, for everything a server can
      send. The server's failure is reported exactly when no message preceded
      it: with one message the call succeeds despite the failure, with more it
      fails for having too many. */
  lemma UnaryOutcome(hdr: MD, ms: seq<Msg>, tlr: MD, e: Option<Err>)
    ensures RecvCall(INITIAL, Transcript(hdr, ms, tlr, e), true).2
         == if |ms| == 1 then Got(ms[0])
            else if |ms| > 1 then Failed(TOO_MANY)
            else if e.Some? then Failed(TranslateContextError(e.value))
            else End
  {
    RecvMeaning(INITIAL, Transcript(hdr, ms, tlr, e), true);
    StripTranscript(hdr, ms, tlr, e);
  }

  /** The concrete failing case: one message, then a server error. */
  lemma UnaryFailureMasked()
    ensures RecvCall(INITIAL, [Data("a"), Error(Plain("boom"))], true).2 == Got("a")
  {
    assert Transcript(map[], ["a"], map[], Some(Plain("boom"))) == [Data("a"), Error(Plain("boom"))];
    UnaryOutcome(map[], ["a"], map[], Some(Plain("boom")));
  }

  /** The check for a second response is one streaming receive, reinterpreted. */
  lemma {:induction false} MoreIsOneReceive(c: Client, m: Msg, pending: seq<Frame>)
    requires c.last.None?
    ensures var (t, rest) := Complete(ReadAgain(c, ForMore(m)), pending, true);
            var (u, rest') := Complete(ReadAgain(c, ForRecv), pending, false);
            && rest == rest'
            && (u.o.Got? ==> t == RecvReturns(u.c.(state := Closed, last := Some(Error(TOO_MANY))), Failed(TOO_MANY)))
            && (!u.o.Got? ==> t == RecvReturns(u.c, Got(m)))
    decreases |pending|
  {
    if pending != [] {
      var u := OnItem(c, ForRecv, Arrived(pending[0]), false);
      if u.ReadAgain? {
        MoreIsOneReceive(u.c, m, pending[1..]);
      }
    }
  }

  // ----- The stream object -----

  /** The client stream with its receive loop. `responses` stands for the frames
      the channel delivers before it is closed; a read that would block waits
      for the next of them. Cancellation in mid-call is in InProcStream. */
  class ClientStream {
    var state: StreamState
    var last: Option<Frame>
    var headers: MD
    var trailers: MD
    var responses: seq<Frame>
    const responseStream: bool

    constructor (responses: seq<Frame>, responseStream: bool)
      ensures Fields() == INITIAL
      ensures this.responses == responses && this.responseStream == responseStream
    {
      state, last, headers, trailers := InHeaders, None, map[], map[];
      this.responses, this.responseStream := responses, responseStream;
    }

    ghost function Fields(): Client
      reads this
    {
      Client(state, last, headers, trailers)
    }

    /** The peek slot holds a message or an error, and only past the headers. */
    ghost predicate Valid()
      reads this
    {
      Peeked(Fields())
    }

    method Header() returns (h: MD)
      requires Valid()
      modifies this
      ensures Valid()
      ensures (Fields(), responses, Some(h))
           == HeaderCall(old(Fields()), old(responses), !responseStream)
    {
      if state == InHeaders {
        if responses == [] {
          state := Closed;
        } else {
          var m := responses[0];
          responses := responses[1..];
          state := InMessages;
          match m {
            case Headers(md) => headers := md;
            case Trailers(md) => trailers := md;
            case Error(_) => state := Closed; last := Some(m);
            case Data(_) => last := Some(m);
          }
        }
      }
      h := headers;
    }

    method RecvMsg() returns (o: Outcome)
      requires Valid()
      modifies this
      ensures Valid()
      ensures (Fields(), responses, o) == RecvCall(old(Fields()), old(responses), !responseStream)
    {
      o := RecvMsgLocked(!responseStream);
    }

    method RecvMsgLocked(lastMessage: bool) returns (o: Outcome)
      requires Valid()
      modifies this
      ensures Valid()
      ensures (Fields(), responses, o) == RecvCall(old(Fields()), old(responses), lastMessage)
      decreases lastMessage, 0
    {
      RecvMeaning(Fields(), responses, lastMessage);
      if last.Some? {
        match last.value {
          case Data(m) =>
            last := None;
            o := Got(m);
            if lastMessage {
              o := EnsureNoMoreLocked(m);
            }
            return;
          case Error(e) =>
            state := Closed;
            return Failed(TranslateContextError(e));
        }
      }
      while responses != []
        invariant Complete(ReadAgain(Fields(), ForRecv), responses, lastMessage)
               == Complete(ReadAgain(old(Fields()), ForRecv), old(responses), lastMessage)
        invariant BeginRecv(old(Fields()), lastMessage) == ReadAgain(old(Fields()), ForRecv)
        invariant last == old(last) == None
        decreases |responses|
      {
        var r := responses[0];
        responses := responses[1..];
        match r {
          case Headers(md) => state := InMessages; headers := md;
          case Trailers(md) => trailers := md;
          case Error(e) =>
            state := Closed;
            last := Some(r);
            return Failed(TranslateContextError(e));
          case Data(m) =>
            o := Got(m);
            if lastMessage {
              o := EnsureNoMoreLocked(m);
            }
            return;
        }
      }
      state := Closed;
      return End;
    }

    /** Receives once more: a second message is the error, anything else lets
        the first message through. */
    method EnsureNoMoreLocked(m: Msg) returns (o: Outcome)
      requires last.None?
      modifies this
      ensures var (t, rest) := Complete(ReadAgain(old(Fields()), ForMore(m)), old(responses), true);
              Fields() == t.c && responses == rest && o == t.o
      decreases false, 1
    {
      MoreIsOneReceive(Fields(), m, responses);
      o := RecvMsgLocked(false);
      if o.Got? {
        last := Some(Error(TOO_MANY));
        state := Closed;
        o := Failed(TOO_MANY);
      } else {
        o := Got(m);
      }
    }
  }
}
