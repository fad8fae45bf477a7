/** An in-process stream as a step system: a server stream and a client stream
    joined by two channels of capacity one and three nested contexts. Every step
    is one atomic action of one goroutine; a run is any interleaving. */
module InProcStream {
  import opened Prelude
  import opened Metadata
  import opened InProcFrames
  import opened InProcClient

  // ----- State -----

  /** Which contexts are done: the client's, the server's (its descendant), and
      the one the client's sends watch (a child of the server's). Cancellation
      reaches a descendant some time after its parent. */
  datatype Ctx = Ctx(cli: bool, svr: bool, done: bool)

  /** What a blocked server write will do once it is over. */
  datatype WriteFor =
    | ForSendHeader
    | ForMsgHeaders(m: Option<Msg>)   // headers sent implicitly by SendMsg(m)
    | ForMsg
    | FinHeaders
    | FinTrailers
    | FinError

  /** The holder of the server mutex: nobody, a call blocked in the select of
      writeMessage, a call whose frame went into the channel but which has not
      yet looked at ctx.Err(), or finish about to close the channel. */
  datatype SrvPc =
    | Idle
    | Writing(f: Frame, k: WriteFor)
    | Wrote(f: Frame, k: WriteFor)
    | Closing

  /** The server stream. The last five fields only record history: metadata
      accepted by the setters, messages whose SendMsg returned nil, frames given
      up on because the context was done, and calls that reported its error. */
  datatype Server = Server(
    state: StreamState, headers: MD, trailers: MD, pc: SrvPc,
    returned: Option<Option<Err>>, finishing: bool,
    hdrLog: seq<MD>, trlLog: seq<MD>, sentOk: seq<Msg>, dropped: nat, errored: nat)

  /** The response channel; `panicked` records a send or close after closing. */
  datatype Chan = Chan(buf: seq<Frame>, closed: bool, panicked: bool,
                       written: seq<Frame>, read: seq<Frame>)

  /** The holder of respMu: nobody, a call blocked in readMessage, or a call that
      took something out of the channel and has not yet looked at ctx.Err(). */
  datatype CliPc = CIdle | CReading(k: ReadFor) | CTaken(k: ReadFor, item: Item)

  /** The receive side of the client, with the frames that passed the context
      check, the outcomes of RecvMsg and the results of successful Headers. */
  datatype Receiver = Receiver(c: Client, pc: CliPc,
                               accepted: seq<Frame>, outs: seq<Outcome>, hdrs: seq<MD>)

  datatype SendPc = QIdle | QWriting(m: Msg) | QWrote(m: Msg)
  datatype SrvItem = ReqArrived(m: Msg) | ReqClosed
  datatype SrvRecvPc = RIdle | RReading | RTaken(item: SrvItem)
  datatype SrvOutcome = ReqGot(m: Msg) | ReqEnd | ReqCancelled

  /** The request direction, with what entered and left the channel, what the
      handler received, and the messages whose client SendMsg returned nil. */
  datatype Requests = Requests(
    buf: seq<Msg>, closed: bool, panicked: bool, sendClosed: bool, qpc: SendPc, rpc: SrvRecvPc,
    pushed: seq<Msg>, taken: seq<Msg>, received: seq<Msg>, sentOk: seq<Msg>, outs: seq<SrvOutcome>)

  datatype Sys = Sys(unary: bool, ctx: Ctx, srv: Server, ch: Chan, rcv: Receiver, req: Requests)

  function Init(unary: bool): Sys {
    Sys(unary,
        Ctx(false, false, false),
        Server(InHeaders, map[], map[], Idle, None, false, [], [], [], 0, 0),
        Chan([], false, false, [], []),
        Receiver(INITIAL, CIdle, [], [], []),
        Requests([], false, false, false, QIdle, RIdle, [], [], [], [], []))
  }

  // ----- The server's calls -----

  function HeadersSent(srv: Server): Server {
    srv.(headers := map[], state := InMessages)
  }

  function AddHeader(srv: Server, md: MD): Server {
    srv.(headers := Join(srv.headers, md), hdrLog := srv.hdrLog + [md])
  }

  function SetHeader(srv: Server, md: MD): Server {
    if srv.state != InHeaders then srv else AddHeader(srv, md)
  }

  function SendHeader(srv: Server, md: MD): Server {
    if srv.state != InHeaders then srv
    else
      var srv := AddHeader(srv, md);
      if |srv.headers| > 0 then srv.(pc := Writing(Headers(srv.headers), ForSendHeader))
      else HeadersSent(srv)
  }

  function SetTrailer(srv: Server, md: MD): Server {
    if srv.state == Closed then srv
    else srv.(trailers := Join(srv.trailers, md), trlLog := srv.trlLog + [md])
  }

  function SendMsg(srv: Server, ctxDone: bool, m: Option<Msg>): Server {
    if ctxDone || srv.state == Closed then srv
    else if srv.state == InHeaders then
      if |srv.headers| > 0 then srv.(pc := Writing(Headers(srv.headers), ForMsgHeaders(m)))
      else SendBody(HeadersSent(srv), m)
    else SendBody(srv, m)
  }

  /** A nil message is refused, but only after the headers are out. */
  function SendBody(srv: Server, m: Option<Msg>): Server {
    if m.None? then srv.(pc := Idle) else srv.(pc := Writing(Data(m.value), ForMsg))
  }

  function FinishFromHeaders(srv: Server): Server {
    if srv.state == InHeaders && |srv.headers| > 0
    then srv.(pc := Writing(Headers(srv.headers), FinHeaders))
    else FinishFromTrailers(srv)
  }

  function FinishFromTrailers(srv: Server): Server {
    if |srv.trailers| > 0 then srv.(pc := Writing(Trailers(srv.trailers), FinTrailers))
    else FinishFromError(srv)
  }

  function FinishFromError(srv: Server): Server {
    var srv := srv.(trailers := map[]);
    if srv.returned.Some? && srv.returned.value.Some?
    then srv.(pc := Writing(Error(srv.returned.value.value), FinError))
    else srv.(pc := Closing)
  }

  /** What follows a write; `failed` says whether writeMessage reported an error. */
  function AfterWrite(srv: Server, f: Frame, k: WriteFor, failed: bool): Server {
    match k
    case ForSendHeader =>
      if failed then srv.(pc := Idle, errored := srv.errored + 1) else HeadersSent(srv).(pc := Idle)
    case ForMsgHeaders(m) =>
      if failed then srv.(pc := Idle, errored := srv.errored + 1) else SendBody(HeadersSent(srv), m)
    case ForMsg =>
      if failed || !f.Data? then srv.(pc := Idle, errored := srv.errored + 1)
      else srv.(pc := Idle, sentOk := srv.sentOk + [f.msg])
    case FinHeaders => FinishFromTrailers(srv)
    case FinTrailers => FinishFromError(srv)
    case FinError => srv.(pc := Closing)
  }

  function Push(ch: Chan, f: Frame): Chan {
    if ch.closed then ch.(panicked := true)
    else ch.(buf := ch.buf + [f], written := ch.written + [f])
  }

  function CloseChan(ch: Chan): Chan {
    if ch.closed then ch.(panicked := true) else ch.(closed := true)
  }

  // ----- The client's calls -----

  function Resume(r: Receiver, t: Turn): Receiver {
    match t
    case ReadAgain(c, k) => r.(c := c, pc := CReading(k))
    case RecvReturns(c, o) => r.(c := c, pc := CIdle, outs := r.outs + [o])
    case HeaderReturns(c, h) =>
      r.(c := c, pc := CIdle, hdrs := if h.Some? then r.hdrs + [h.value] else r.hdrs)
  }

  /** readMessage looks at ctx.Err() after it took something from the channel. */
  function CheckTaken(r: Receiver, ctxDone: bool, unary: bool): Receiver
    requires r.pc.CTaken?
  {
    if ctxDone then Resume(r, OnItem(r.c, r.pc.k, CtxDone, unary))
    else
      var r' := if r.pc.item.Arrived? then r.(accepted := r.accepted + [r.pc.item.frame]) else r;
      Resume(r', OnItem(r.c, r.pc.k, r.pc.item, unary))
  }

  // ----- Steps -----

  datatype Step =
    // contexts
    | Cancel                      // client cancels, its deadline passes, or the stream is collected
    | ReachServer | ReachDone     // cancellation propagates
    | ServerExit                  // svrCancel, once the handler goroutine is through finish
    // server calls, from any goroutine of the handler
    | CallSetHeader(md: MD) | CallSendHeader(md: MD) | CallSetTrailer(md: MD) | CallSendMsg(m: Option<Msg>)
    | HandlerReturns(e: Option<Err>)   // finish starts and cancels the done context
    | FinishLocks
    | ServerPushes | ServerGivesUp | ServerChecks | ServerCloses
    // client receives
    | CallHeader | CallRecv | ClientTakes | ClientSeesCtx | ClientChecks
    // request direction
    | CallClientSend(q: Option<Msg>) | CallCloseSend
    | ReqPushes | ReqSeesCtx | ReqSeesDone | ReqChecks
    | CallServerRecv | ServerTakes | ServerSeesCtx | ServerChecksTaken

  const CAPACITY := 1

  ghost predicate Enabled(s: Sys, step: Step) {
    match step
    case Cancel => true
    case ReachServer => s.ctx.cli
    case ReachDone => s.ctx.svr
    case ServerExit => s.ch.closed
    case CallSetHeader(_) => s.srv.pc.Idle?
    case CallSendHeader(_) => s.srv.pc.Idle?
    case CallSetTrailer(_) => s.srv.pc.Idle?
    case CallSendMsg(_) => s.srv.pc.Idle?
    case HandlerReturns(_) => s.srv.returned.None?
    case FinishLocks => s.srv.returned.Some? && !s.srv.finishing && s.srv.pc.Idle?
    case ServerPushes => s.srv.pc.Writing? && (|s.ch.buf| < CAPACITY || s.ch.closed)
    case ServerGivesUp => s.srv.pc.Writing? && s.ctx.svr
    case ServerChecks => s.srv.pc.Wrote?
    case ServerCloses => s.srv.pc.Closing?
    case CallHeader => s.rcv.pc.CIdle?
    case CallRecv => s.rcv.pc.CIdle?
    case ClientTakes => s.rcv.pc.CReading? && (s.ch.buf != [] || s.ch.closed)
    case ClientSeesCtx => s.rcv.pc.CReading? && s.ctx.cli
    case ClientChecks => s.rcv.pc.CTaken?
    case CallClientSend(_) => s.req.qpc.QIdle?
    case CallCloseSend => s.req.qpc.QIdle?
    case ReqPushes => s.req.qpc.QWriting? && (|s.req.buf| < CAPACITY || s.req.closed)
    case ReqSeesCtx => s.req.qpc.QWriting? && s.ctx.cli
    case ReqSeesDone => s.req.qpc.QWriting? && s.ctx.done
    case ReqChecks => s.req.qpc.QWrote?
    case CallServerRecv => s.req.rpc.RIdle?
    case ServerTakes => s.req.rpc.RReading? && (s.req.buf != [] || s.req.closed)
    case ServerSeesCtx => s.req.rpc.RReading? && s.ctx.svr
    case ServerChecksTaken => s.req.rpc.RTaken?
  }

  ghost function Apply(s: Sys, step: Step): Sys
    requires Enabled(s, step)
  {
    match step
    case Cancel => s.(ctx := s.ctx.(cli := true))
    case ReachServer => s.(ctx := s.ctx.(svr := true))
    case ReachDone => s.(ctx := s.ctx.(done := true))
    case ServerExit => s.(ctx := s.ctx.(svr := true))
    case CallSetHeader(md) => s.(srv := SetHeader(s.srv, md))
    case CallSendHeader(md) => s.(srv := SendHeader(s.srv, md))
    case CallSetTrailer(md) => s.(srv := SetTrailer(s.srv, md))
    case CallSendMsg(m) => s.(srv := SendMsg(s.srv, s.ctx.svr, m))
    case HandlerReturns(e) => s.(srv := s.srv.(returned := Some(e)), ctx := s.ctx.(done := true))
    case FinishLocks => s.(srv := FinishFromHeaders(s.srv.(finishing := true)))
    case ServerPushes =>
      s.(ch := Push(s.ch, s.srv.pc.f), srv := s.srv.(pc := Wrote(s.srv.pc.f, s.srv.pc.k)))
    case ServerGivesUp =>
      s.(srv := AfterWrite(s.srv.(dropped := s.srv.dropped + 1), s.srv.pc.f, s.srv.pc.k, true))
    case ServerChecks => s.(srv := AfterWrite(s.srv, s.srv.pc.f, s.srv.pc.k, s.ctx.svr))
    case ServerCloses => s.(ch := CloseChan(s.ch), srv := s.srv.(state := Closed, pc := Idle))
    case CallHeader => s.(rcv := Resume(s.rcv, BeginHeader(s.rcv.c)))
    case CallRecv => s.(rcv := Resume(s.rcv, BeginRecv(s.rcv.c, s.unary)))
    case ClientTakes =>
      if s.ch.buf == [] then s.(rcv := s.rcv.(pc := CTaken(s.rcv.pc.k, ChannelClosed)))
      else s.(rcv := s.rcv.(pc := CTaken(s.rcv.pc.k, Arrived(s.ch.buf[0]))),
              ch := s.ch.(buf := s.ch.buf[1..], read := s.ch.read + [s.ch.buf[0]]))
    case ClientSeesCtx => s.(rcv := Resume(s.rcv, OnItem(s.rcv.c, s.rcv.pc.k, CtxDone, s.unary)))
    case ClientChecks => s.(rcv := CheckTaken(s.rcv, s.ctx.cli, s.unary))
    case _ => s.(req := ApplyRequest(s, step))
  }

  /** The steps of the request direction. */
  ghost function ApplyRequest(s: Sys, step: Step): Requests
    requires Enabled(s, step)
  {
    var q := s.req;
    match step
    case CallClientSend(m) =>
      if q.sendClosed || m.None? then q else q.(qpc := QWriting(m.value))
    case CallCloseSend =>
      if q.sendClosed then q
      else if q.closed then q.(panicked := true)
      else q.(closed := true, sendClosed := true)
    case ReqPushes =>
      if q.closed then q.(panicked := true)
      else q.(buf := q.buf + [q.qpc.m], pushed := q.pushed + [q.qpc.m], qpc := QWrote(q.qpc.m))
    case ReqSeesCtx => q.(qpc := QIdle)
    case ReqSeesDone => q.(qpc := QIdle)
    case ReqChecks =>
      if s.ctx.cli then q.(qpc := QIdle) else q.(qpc := QIdle, sentOk := q.sentOk + [q.qpc.m])
    case CallServerRecv => q.(rpc := RReading)
    case ServerTakes =>
      if q.buf == [] then q.(rpc := RTaken(ReqClosed))
      else q.(rpc := RTaken(ReqArrived(q.buf[0])), buf := q.buf[1..], taken := q.taken + [q.buf[0]])
    case ServerSeesCtx => q.(rpc := RIdle, outs := q.outs + [ReqCancelled])
    case ServerChecksTaken =>
      if s.ctx.svr then q.(rpc := RIdle, outs := q.outs + [ReqCancelled])
      else if q.rpc.item.ReqClosed? then q.(rpc := RIdle, outs := q.outs + [ReqEnd])
      else q.(rpc := RIdle, outs := q.outs + [ReqGot(q.rpc.item.m)], received := q.received + [q.rpc.item.m])
    case _ => q
  }

  /** s' is reached from s by the given steps, each enabled when it is taken. */
  ghost predicate IsRun(s: Sys, steps: seq<Step>, s': Sys)
    decreases |steps|
  {
    if steps == [] then s == s'
    else Enabled(s, steps[0]) && IsRun(Apply(s, steps[0]), steps[1..], s')
  }
}
