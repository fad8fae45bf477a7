/** What every interleaving of an in-process stream keeps on the sending side: the
    contexts, the response channel and the server stream, and, while the client is
    live, that exactly the transcript so far was written. */
module InProcSafety {
  import opened Prelude
  import opened Metadata
  import opened InProcFrames
  import opened InProcClient
  import opened InProcStream

  // ----- Contexts, channel and server -----

  /** The server context can be done before finish is over only if the client's
      is; and the done context is cancelled as soon as the handler returns. */
  ghost predicate CtxInv(s: Sys) {
    && (s.ctx.svr ==> s.ctx.cli || s.ch.closed)
    && (s.srv.returned.Some? ==> s.ctx.done)
  }

  /** The channel is a queue of capacity one, never misused. */
  ghost predicate ChanInv(s: Sys) {
    && s.ch.written == s.ch.read + s.ch.buf
    && |s.ch.buf| <= CAPACITY
    && !s.ch.panicked
  }

  ghost predicate PcOk(srv: Server, f: Frame, k: WriteFor) {
    match k
    case ForSendHeader => !srv.finishing && HeadersDue(srv, f)
    case ForMsgHeaders(_) => !srv.finishing && HeadersDue(srv, f)
    case ForMsg => !srv.finishing && srv.state == InMessages && f.Data?
    case FinHeaders => srv.finishing && HeadersDue(srv, f)
    case FinTrailers => srv.finishing && |srv.trailers| > 0 && f == Trailers(srv.trailers)
    case FinError => srv.finishing && srv.returned.Some? && f.Error? && srv.returned.value == Some(f.err)
  }

  ghost predicate HeadersDue(srv: Server, f: Frame) {
    srv.state == InHeaders && |srv.headers| > 0 && f == Headers(srv.headers)
  }

  /** finish is past its trailers: nothing but the error can still be written. */
  ghost predicate PastTrailers(srv: Server) {
    match srv.pc
    case Idle => srv.finishing
    case Closing => true
    case Writing(_, k) => k.FinError?
    case Wrote(_, k) => k.FinError?
  }

  /** finish is over and the response channel closed. */
  ghost predicate IsClosed(srv: Server) {
    srv.finishing && srv.pc.Idle?
  }

  ghost predicate ServerOk(srv: Server) {
    && (srv.state == InHeaders ==> srv.headers == JoinAll(srv.hdrLog) && srv.sentOk == [])
    && (!PastTrailers(srv) ==> srv.trailers == JoinAll(srv.trlLog))
    && (srv.pc.Writing? || srv.pc.Wrote? ==> PcOk(srv, srv.pc.f, srv.pc.k))
    && (srv.pc.Closing? ==> srv.finishing)
    && (srv.finishing ==> srv.returned.Some?)
    && (IsClosed(srv) <==> srv.state == Closed)
  }

  ghost function Sent(srv: Server): seq<Frame> {
    HeaderFrames(JoinAll(srv.hdrLog)) + DataFrames(srv.sentOk)
  }

  ghost function SentAndTrailers(srv: Server): seq<Frame> {
    Sent(srv) + TrailerFrames(JoinAll(srv.trlLog))
  }

  ghost function WholeTranscript(srv: Server): seq<Frame> {
    Transcript(JoinAll(srv.hdrLog), srv.sentOk, JoinAll(srv.trlLog),
               if srv.returned.Some? then srv.returned.value else None)
  }

  /** The frames written when no write was ever cut short, read off the server's
      position: the transcript so far. */
  ghost function Expected(srv: Server): seq<Frame> {
    match srv.pc
    case Idle => if srv.finishing then WholeTranscript(srv)
                 else if srv.state == InHeaders then [] else Sent(srv)
    case Closing => WholeTranscript(srv)
    case Writing(f, k) => Before(srv, k)
    case Wrote(f, k) => Before(srv, k) + [f]
  }

  ghost function Before(srv: Server, k: WriteFor): seq<Frame> {
    match k
    case ForSendHeader => []
    case ForMsgHeaders(_) => []
    case FinHeaders => []
    case ForMsg => Sent(srv)
    case FinTrailers => Sent(srv)
    case FinError => SentAndTrailers(srv)
  }

  /** While the client's context is live nothing was lost. */
  ghost predicate LiveInv(s: Sys) {
    !s.ctx.cli ==>
      s.srv.dropped == 0 && s.srv.errored == 0 && s.ch.written == Expected(s.srv)
  }

  ghost predicate SendInv(s: Sys) {
    && CtxInv(s) && ChanInv(s)
    && ServerOk(s.srv) && (s.ch.closed <==> IsClosed(s.srv))
    && LiveInv(s)
  }

  // What each transition of the server stream does to it, with the frames it
  // should have written.

  /** What no call changes; `failing` calls may count an error. */
  ghost predicate Keeps(srv: Server, srv': Server) {
    && ServerOk(srv')
    && !IsClosed(srv') == !IsClosed(srv)
    && srv'.returned == srv.returned
    && srv'.dropped == srv.dropped
  }

  lemma NoHeadersYet(srv: Server)
    requires srv.headers == JoinAll(srv.hdrLog) && srv.sentOk == []
    ensures Sent(srv) == HeaderFrames(srv.headers)
  {
  }

  lemma SetHeaderOk(srv: Server, md: MD)
    requires ServerOk(srv) && srv.pc.Idle?
    ensures var srv' := SetHeader(srv, md);
            Keeps(srv, srv') && Expected(srv') == Expected(srv) && srv'.errored == srv.errored
  {
    hide JoinAll, Join, Transcript, HeaderFrames, DataFrames, TrailerFrames;
    JoinAllAppend(srv.hdrLog, md);
  }

  lemma SendHeaderOk(srv: Server, md: MD)
    requires ServerOk(srv) && srv.pc.Idle?
    ensures var srv' := SendHeader(srv, md);
            Keeps(srv, srv') && Expected(srv') == Expected(srv) && srv'.errored == srv.errored
  {
    hide JoinAll, Join, Transcript, DataFrames, TrailerFrames;
    JoinAllAppend(srv.hdrLog, md);
    if srv.state == InHeaders {
      NoHeadersYet(AddHeader(srv, md));
    }
  }

  lemma SetTrailerOk(srv: Server, md: MD)
    requires ServerOk(srv) && srv.pc.Idle?
    ensures var srv' := SetTrailer(srv, md);
            Keeps(srv, srv') && Expected(srv') == Expected(srv) && srv'.errored == srv.errored
  {
    hide JoinAll, Join, Transcript, HeaderFrames, DataFrames, TrailerFrames;
    JoinAllAppend(srv.trlLog, md);
  }

  lemma SendMsgOk(srv: Server, ctxDone: bool, m: Option<Msg>)
    requires ServerOk(srv) && srv.pc.Idle?
    ensures var srv' := SendMsg(srv, ctxDone, m);
            Keeps(srv, srv') && Expected(srv') == Expected(srv) && srv'.errored == srv.errored
  {
    hide JoinAll, Join, Transcript, DataFrames, TrailerFrames;
    if srv.state == InHeaders {
      NoHeadersYet(srv);
    }
  }

  lemma FinishFromHeadersOk(srv: Server)
    requires ServerOk(srv) && srv.pc.Idle? && !srv.finishing && srv.returned.Some?
    ensures var srv' := FinishFromHeaders(srv.(finishing := true));
            Keeps(srv, srv') && Expected(srv') == Expected(srv) && srv'.errored == srv.errored
  {
    hide JoinAll, Join, Transcript, DataFrames, TrailerFrames;
    if srv.state == InHeaders {
      NoHeadersYet(srv);
    }
    if srv.state == InMessages || |srv.headers| == 0 {
      FinishFromTrailersOk(srv.(finishing := true));
    }
  }

  lemma FinishFromTrailersOk(srv: Server)
    requires srv.finishing && srv.returned.Some? && srv.state != Closed
    requires srv.state == InHeaders ==> srv.headers == JoinAll(srv.hdrLog) && srv.sentOk == []
    requires srv.trailers == JoinAll(srv.trlLog)
    ensures var srv' := FinishFromTrailers(srv);
            && ServerOk(srv') && !IsClosed(srv')
            && srv' == srv.(pc := srv'.pc, trailers := srv'.trailers)
            && Expected(srv') == Sent(srv)
  {
    hide JoinAll, Join, Transcript, HeaderFrames, DataFrames;
    if |srv.trailers| == 0 {
      assert TrailerFrames(srv.trailers) == [];
      FinishFromErrorOk(srv);
    }
  }

  lemma FinishFromErrorOk(srv: Server)
    requires srv.finishing && srv.returned.Some? && srv.state != Closed
    requires srv.state == InHeaders ==> srv.headers == JoinAll(srv.hdrLog) && srv.sentOk == []
    ensures var srv' := FinishFromError(srv);
            && ServerOk(srv') && !IsClosed(srv')
            && srv' == srv.(pc := srv'.pc, trailers := srv'.trailers)
            && Expected(srv') == SentAndTrailers(srv)
  {
    hide JoinAll, Join, HeaderFrames, DataFrames, TrailerFrames;
  }

  /** Resuming after a write, whether it was given up, failed or succeeded. */
  lemma AfterWriteOk(srv: Server, failed: bool)
    requires ServerOk(srv) && (srv.pc.Writing? || srv.pc.Wrote?)
    ensures var srv' := AfterWrite(srv, srv.pc.f, srv.pc.k, failed);
            && Keeps(srv, srv')
            && (!failed ==> srv'.errored == srv.errored
                            && Expected(srv') == Before(srv, srv.pc.k) + [srv.pc.f])
  {
    match srv.pc.k
    case ForSendHeader => AfterHeadersOk(srv, failed);
    case ForMsgHeaders(_) => AfterHeadersOk(srv, failed);
    case ForMsg => AfterMsgOk(srv, failed);
    case _ => AfterFinishWriteOk(srv, failed);
  }

  lemma AfterHeadersOk(srv: Server, failed: bool)
    requires ServerOk(srv) && (srv.pc.Writing? || srv.pc.Wrote?)
    requires srv.pc.k.ForSendHeader? || srv.pc.k.ForMsgHeaders?
    ensures var srv' := AfterWrite(srv, srv.pc.f, srv.pc.k, failed);
            && Keeps(srv, srv')
            && (!failed ==> srv'.errored == srv.errored && Expected(srv') == [srv.pc.f])
  {
    hide JoinAll, Join, Transcript, DataFrames, TrailerFrames;
    NoHeadersYet(srv);
    assert Sent(HeadersSent(srv)) == [srv.pc.f];
  }

  lemma AfterMsgOk(srv: Server, failed: bool)
    requires ServerOk(srv) && (srv.pc.Writing? || srv.pc.Wrote?) && srv.pc.k.ForMsg?
    ensures var srv' := AfterWrite(srv, srv.pc.f, srv.pc.k, failed);
            && Keeps(srv, srv')
            && (!failed ==> srv'.errored == srv.errored && Expected(srv') == Sent(srv) + [srv.pc.f])
  {
    hide JoinAll, Join, Transcript, HeaderFrames, TrailerFrames;
    if !failed {
      var m := srv.pc.f.msg;
      assert DataFrames(srv.sentOk + [m]) == DataFrames(srv.sentOk) + [Data(m)];
      var h := HeaderFrames(JoinAll(srv.hdrLog));
      assert h + (DataFrames(srv.sentOk) + [Data(m)]) == h + DataFrames(srv.sentOk) + [Data(m)];
    }
  }

  lemma AfterFinishWriteOk(srv: Server, failed: bool)
    requires ServerOk(srv) && (srv.pc.Writing? || srv.pc.Wrote?)
    requires srv.pc.k.FinHeaders? || srv.pc.k.FinTrailers? || srv.pc.k.FinError?
    ensures var srv' := AfterWrite(srv, srv.pc.f, srv.pc.k, failed);
            && Keeps(srv, srv') && srv'.errored == srv.errored
            && Expected(srv') == Before(srv, srv.pc.k) + [srv.pc.f]
  {
    hide JoinAll, Join, DataFrames;
    match srv.pc.k
    case FinHeaders =>
      NoHeadersYet(srv);
      FinishFromTrailersOk(srv);
    case FinTrailers =>
      FinishFromErrorOk(srv);
    case FinError =>
  }

  // ----- Steps of the whole system -----

  lemma GiveUpStep(s: Sys)
    requires SendInv(s) && Enabled(s, ServerGivesUp)
    ensures SendInv(Apply(s, ServerGivesUp))
  {
    hide ServerOk, Expected, PcOk, Before, AfterWrite;
    AfterWriteOk(s.srv.(dropped := s.srv.dropped + 1), true) by {
      DroppedIrrelevant(s.srv);
    }
  }

  lemma DroppedIrrelevant(srv: Server)
    requires ServerOk(srv)
    ensures ServerOk(srv.(dropped := srv.dropped + 1))
  {
    hide JoinAll;
  }

  lemma CheckStep(s: Sys)
    requires SendInv(s) && Enabled(s, ServerChecks)
    ensures SendInv(Apply(s, ServerChecks))
  {
    hide ServerOk, PcOk, Before, AfterWrite;
    AfterWriteOk(s.srv, s.ctx.svr);
  }

  lemma CallStep(s: Sys, step: Step)
    requires SendInv(s) && Enabled(s, step)
    requires step.CallSetHeader? || step.CallSendHeader? || step.CallSetTrailer? || step.CallSendMsg? || step.FinishLocks?
    ensures SendInv(Apply(s, step))
  {
    match step
    case CallSetHeader(md) =>
      hide ServerOk, Expected, SetHeader;
      SetHeaderOk(s.srv, md);
    case CallSendHeader(md) =>
      hide ServerOk, Expected, SendHeader;
      SendHeaderOk(s.srv, md);
    case CallSetTrailer(md) =>
      hide ServerOk, Expected, SetTrailer;
      SetTrailerOk(s.srv, md);
    case CallSendMsg(m) =>
      hide ServerOk, Expected, SendMsg;
      SendMsgOk(s.srv, s.ctx.svr, m);
    case FinishLocks =>
      hide ServerOk, Expected, FinishFromHeaders;
      FinishFromHeadersOk(s.srv);
  }

  lemma PushStep(s: Sys)
    requires SendInv(s) && Enabled(s, ServerPushes)
    ensures SendInv(Apply(s, ServerPushes))
  {
    hide JoinAll, HeaderFrames, DataFrames, TrailerFrames, Transcript;
  }

  lemma LifecycleStep(s: Sys, step: Step)
    requires SendInv(s) && Enabled(s, step) && (step.HandlerReturns? || step.ServerCloses?)
    ensures SendInv(Apply(s, step))
  {
    hide JoinAll, HeaderFrames, DataFrames, TrailerFrames, Transcript;
  }

  /** Steps that leave the server stream and the written frames alone. */
  ghost predicate LeavesServerAlone(step: Step) {
    !(step.CallSetHeader? || step.CallSendHeader? || step.CallSetTrailer? || step.CallSendMsg?
      || step.HandlerReturns? || step.FinishLocks? || step.ServerPushes? || step.ServerGivesUp?
      || step.ServerChecks? || step.ServerCloses?)
  }

  lemma OtherStep(s: Sys, step: Step)
    requires SendInv(s) && Enabled(s, step) && LeavesServerAlone(step)
    ensures SendInv(Apply(s, step))
  {
    hide ServerOk, Expected;
  }

  /** Every step keeps the sending side consistent. */
  lemma SendStep(s: Sys, step: Step)
    requires SendInv(s) && Enabled(s, step)
    ensures SendInv(Apply(s, step))
  {
    hide SendInv;
    match step
    case CallSetHeader(md) => CallStep(s, step);
    case CallSendHeader(md) => CallStep(s, step);
    case CallSetTrailer(md) => CallStep(s, step);
    case CallSendMsg(m) => CallStep(s, step);
    case FinishLocks => CallStep(s, step);
    case ServerPushes => PushStep(s);
    case ServerGivesUp => GiveUpStep(s);
    case ServerChecks => CheckStep(s);
    case HandlerReturns(_) => LifecycleStep(s, step);
    case ServerCloses => LifecycleStep(s, step);
    case _ => OtherStep(s, step);
  }
}
