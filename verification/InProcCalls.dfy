/** What the callers of an in-process stream asked for, read off the steps of a run
    alone, and that the records the stream keeps say the same. */
module InProcCalls {
  import opened Prelude
  import opened Metadata
  import opened InProcFrames
  import opened InProcClient
  import opened InProcStream
  import opened InProcSafety
  import opened InProcRequests

  /** The calls of a run: the messages of SendMsg calls that were not refused at once,
      the metadata set in time, what the handler returned; and on the client's side
      the messages of SendMsg calls before CloseSend, the one under way, and those
      whose SendMsg returned nil. `headersGone` says that a call that sends headers,
      or finish, has been made. */
  datatype Calls = Calls(
    sends: seq<Msg>, headers: seq<MD>, trailers: seq<MD>, returned: Option<Option<Err>>, headersGone: bool,
    requests: seq<Msg>, sending: Option<Msg>, acked: seq<Msg>, sendClosed: bool)

  const NONE := Calls([], [], [], None, false, [], None, [], false)

  ghost function Noted(l: Calls, s: Sys, step: Step): Calls {
    match step
    case CallSetHeader(md) => NotedHeader(l, s, md)
    case CallSendHeader(md) => NotedHeader(l, s, md).(headersGone := true)
    case CallSetTrailer(md) => if s.srv.state == Closed then l else l.(trailers := l.trailers + [md])
    case CallSendMsg(m) =>
      (if m.Some? && !s.ctx.svr && s.srv.state != Closed then l.(sends := l.sends + [m.value]) else l)
      .(headersGone := true)
    case HandlerReturns(e) => l.(returned := Some(e))
    case FinishLocks => l.(headersGone := true)
    case CallClientSend(m) =>
      if m.Some? && !l.sendClosed then l.(requests := l.requests + [m.value], sending := m) else l
    case CallCloseSend => l.(sendClosed := true)
    case ReqChecks => if !s.ctx.cli && l.sending.Some? then l.(acked := l.acked + [l.sending.value]) else l
    case _ => l
  }

  ghost function NotedHeader(l: Calls, s: Sys, md: MD): Calls {
    if s.srv.state == InHeaders then l.(headers := l.headers + [md]) else l
  }

  /** The calls of a run, after those in l. */
  ghost function After(l: Calls, s: Sys, steps: seq<Step>): Calls
    decreases |steps|
  {
    if steps == [] || !Enabled(s, steps[0]) then l
    else After(Noted(l, s, steps[0]), Apply(s, steps[0]), steps[1..])
  }

  ghost function Made(unary: bool, steps: seq<Step>): Calls {
    After(NONE, Init(unary), steps)
  }

  // ----- Subsequences -----

  ghost predicate Subseq<T>(a: seq<T>, b: seq<T>)
    decreases |b|
  {
    || a == []
    || (b != [] &&
        (Subseq(a, b[..|b| - 1]) || (a[|a| - 1] == b[|b| - 1] && Subseq(a[..|a| - 1], b[..|b| - 1]))))
  }

  lemma {:induction false} SubseqSelf<T>(a: seq<T>)
    ensures Subseq(a, a)
    decreases |a|
  {
    if a != [] {
      SubseqSelf(a[..|a| - 1]);
    }
  }

  lemma SubseqMore<T>(a: seq<T>, b: seq<T>, x: T)
    requires Subseq(a, b)
    ensures Subseq(a, b + [x]) && Subseq(a + [x], b + [x])
  {
    assert (b + [x])[..|b|] == b && (a + [x])[..|a|] == a;
  }

  lemma {:induction false} SubseqFront<T>(a: seq<T>, x: T, b: seq<T>)
    requires Subseq(a + [x], b)
    ensures Subseq(a, b)
    decreases |b|
  {
    var ax, front := a + [x], b[..|b| - 1];
    assert ax[..|a|] == a;
    if Subseq(ax, front) {
      SubseqFront(a, x, front);
    }
    SubseqMore(a, front, b[|b| - 1]);
    assert front + [b[|b| - 1]] == b;
  }

  lemma {:induction false} SubseqPrefix<T>(a: seq<T>, c: seq<T>, b: seq<T>)
    requires Subseq(a + c, b)
    ensures Subseq(a, b)
    decreases |c|
  {
    if c == [] {
      assert a + c == a;
    } else {
      var n := |c| - 1;
      assert a + c == (a + c[..n]) + [c[n]];
      SubseqFront(a + c[..n], c[n], b);
      SubseqPrefix(a, c[..n], b);
    }
  }

  // ----- The server's records -----

  /** The message of a SendMsg under way. */
  function InProgress(srv: Server): seq<Msg> {
    match srv.pc
    case Writing(f, k) => InProgressAt(f, k)
    case Wrote(f, k) => InProgressAt(f, k)
    case _ => []
  }

  function InProgressAt(f: Frame, k: WriteFor): seq<Msg> {
    if k.ForMsg? && f.Data? then [f.msg]
    else if k.ForMsgHeaders? && k.m.Some? then [k.m.value]
    else []
  }

  /** The messages sent, and the one under way, are in order among those asked for,
      and are exactly those as long as no call reported the context's error. */
  ghost predicate SendLaw(srv: Server, sends: seq<Msg>) {
    && Subseq(srv.sentOk + InProgress(srv), sends)
    && (srv.errored == 0 ==> srv.sentOk + InProgress(srv) == sends)
  }

  /** Without an error, headers are open until a call that sends them. */
  predicate HeadersPending(srv: Server) {
    srv.pc.Idle? && srv.state == InHeaders
  }

  ghost predicate ServerLaw(s: Sys, l: Calls) {
    && SendLaw(s.srv, l.sends)
    && s.srv.hdrLog == l.headers && s.srv.trlLog == l.trailers && s.srv.returned == l.returned
    && (s.srv.errored == 0 && !s.ctx.svr ==> (HeadersPending(s.srv) <==> !l.headersGone))
  }

  /** Steps that leave the server stream alone, or close its channel. */
  predicate LeavesRecords(step: Step) {
    !(step.CallSetHeader? || step.CallSendHeader? || step.CallSetTrailer? || step.CallSendMsg? || step.HandlerReturns?
      || step.FinishLocks? || step.ServerPushes? || step.ServerGivesUp? || step.ServerChecks?)
  }

  lemma OtherRecords(s: Sys, step: Step, l: Calls)
    requires ServerOk(s.srv) && Enabled(s, step) && LeavesRecords(step) && ServerLaw(s, l)
    ensures ServerLaw(Apply(s, step), Noted(l, s, step))
  {
    hide Subseq, JoinAll, Resume, CheckTaken, ApplyRequest;
  }

  /** SendMsg takes on the message it was given. */
  lemma SendTakes(srv: Server, m: Option<Msg>)
    requires ServerOk(srv) && srv.pc.Idle? && srv.state != Closed
    ensures var srv' := SendMsg(srv, false, m);
            && srv'.sentOk == srv.sentOk && srv'.errored == srv.errored
            && InProgress(srv') == (if m.Some? then [m.value] else [])
            && !HeadersPending(srv')
            && srv'.hdrLog == srv.hdrLog && srv'.trlLog == srv.trlLog && srv'.returned == srv.returned
  {
    hide JoinAll;
  }

  lemma SendRecords(s: Sys, m: Option<Msg>, l: Calls)
    requires ServerOk(s.srv) && Enabled(s, CallSendMsg(m)) && ServerLaw(s, l)
    ensures ServerLaw(Apply(s, CallSendMsg(m)), Noted(l, s, CallSendMsg(m)))
  {
    if s.ctx.svr || s.srv.state == Closed {
      hide Subseq, SendLaw;
    } else {
      SendTakes(s.srv, m);
      hide ServerOk, SendMsg, Subseq;
      assert s.srv.sentOk + [] == s.srv.sentOk;
      if m.Some? {
        SubseqMore(s.srv.sentOk, l.sends, m.value);
      }
    }
  }

  lemma SetterTakes(srv: Server, md: MD)
    requires ServerOk(srv) && srv.pc.Idle?
    ensures var hdr, send, trl := SetHeader(srv, md), SendHeader(srv, md), SetTrailer(srv, md);
            && hdr.sentOk == send.sentOk == trl.sentOk == srv.sentOk
            && hdr.errored == send.errored == trl.errored == srv.errored
            && hdr.returned == send.returned == trl.returned == srv.returned
            && InProgress(hdr) == InProgress(send) == InProgress(trl) == []
            && hdr.hdrLog == send.hdrLog == (if srv.state == InHeaders then srv.hdrLog + [md] else srv.hdrLog)
            && trl.hdrLog == srv.hdrLog && hdr.trlLog == send.trlLog == srv.trlLog
            && trl.trlLog == (if srv.state == Closed then srv.trlLog else srv.trlLog + [md])
            && HeadersPending(hdr) == HeadersPending(trl) == HeadersPending(srv) && !HeadersPending(send)
  {
    hide JoinAll, Join;
  }

  lemma SetterRecords(s: Sys, step: Step, l: Calls)
    requires ServerOk(s.srv) && Enabled(s, step) && ServerLaw(s, l)
    requires step.CallSetHeader? || step.CallSendHeader? || step.CallSetTrailer?
    ensures ServerLaw(Apply(s, step), Noted(l, s, step))
  {
    SetterTakes(s.srv, step.md);
    hide ServerOk, SetHeader, SendHeader, SetTrailer, Subseq, HeadersPending;
  }

  lemma FinishTakes(srv: Server)
    requires ServerOk(srv) && srv.pc.Idle? && !srv.finishing
    ensures var srv' := FinishFromHeaders(srv.(finishing := true));
            && srv'.sentOk == srv.sentOk && srv'.errored == srv.errored && InProgress(srv') == []
            && srv'.hdrLog == srv.hdrLog && srv'.trlLog == srv.trlLog && srv'.returned == srv.returned
            && !HeadersPending(srv')
  {
    hide JoinAll;
  }

  lemma FinishRecords(s: Sys, step: Step, l: Calls)
    requires ServerOk(s.srv) && Enabled(s, step) && ServerLaw(s, l) && (step.FinishLocks? || step.HandlerReturns?)
    ensures ServerLaw(Apply(s, step), Noted(l, s, step))
  {
    if step.FinishLocks? {
      FinishTakes(s.srv);
    }
    hide ServerOk, FinishFromHeaders, Subseq;
  }

  ghost predicate SameRecords(srv: Server, srv': Server) {
    srv'.hdrLog == srv.hdrLog && srv'.trlLog == srv.trlLog && srv'.returned == srv.returned
  }

  /** A write that is over: the message sent if it succeeded, given up otherwise. */
  lemma WriteTakes(srv: Server, f: Frame, k: WriteFor, failed: bool)
    requires ServerOk(srv) && (srv.pc == Writing(f, k) || srv.pc == Wrote(f, k))
    ensures var srv' := AfterWrite(srv, f, k, failed);
            && SameRecords(srv, srv')
            && (!failed || k.FinHeaders? || k.FinTrailers? || k.FinError? ==>
                  && srv'.sentOk + InProgress(srv') == srv.sentOk + InProgress(srv)
                  && srv'.errored == srv.errored && !HeadersPending(srv'))
            && (failed && !k.FinHeaders? && !k.FinTrailers? && !k.FinError? ==>
                  srv'.sentOk == srv.sentOk && InProgress(srv') == [] && srv'.errored > 0)
  {
    hide JoinAll;
  }

  lemma WriteRecords(srv: Server, f: Frame, k: WriteFor, failed: bool, sends: seq<Msg>)
    requires ServerOk(srv) && (srv.pc == Writing(f, k) || srv.pc == Wrote(f, k)) && SendLaw(srv, sends)
    ensures var srv' := AfterWrite(srv, f, k, failed);
            SendLaw(srv', sends) && SameRecords(srv, srv') && (srv'.errored == 0 ==> !HeadersPending(srv'))
  {
    WriteTakes(srv, f, k, failed);
    SubseqPrefix(srv.sentOk, InProgress(srv), sends);
    hide ServerOk, AfterWrite, InProgress, Subseq;
    assert srv.sentOk + [] == srv.sentOk;
  }

  lemma PushTakes(srv: Server, sends: seq<Msg>)
    requires srv.pc.Writing? && SendLaw(srv, sends)
    ensures var srv' := srv.(pc := Wrote(srv.pc.f, srv.pc.k));
            SendLaw(srv', sends) && SameRecords(srv, srv') && !HeadersPending(srv') && !HeadersPending(srv)
            && srv'.errored == srv.errored
  {
    hide Subseq;
  }

  lemma GiveUpTakes(srv: Server, sends: seq<Msg>)
    requires ServerOk(srv) && srv.pc.Writing? && SendLaw(srv, sends)
    ensures var srv' := AfterWrite(srv.(dropped := srv.dropped + 1), srv.pc.f, srv.pc.k, true);
            && SendLaw(srv', sends) && SameRecords(srv, srv') && (srv'.errored == 0 ==> !HeadersPending(srv'))
            && srv'.errored >= srv.errored
  {
    var dropped := srv.(dropped := srv.dropped + 1);
    DroppedIrrelevant(srv);
    assert InProgress(dropped) == InProgress(srv);
    ErrorsGrow(dropped, srv.pc.f, srv.pc.k, true);
    hide ServerOk, AfterWrite, Subseq, InProgress;
    WriteRecords(dropped, srv.pc.f, srv.pc.k, true, sends);
  }

  lemma ErrorsGrow(srv: Server, f: Frame, k: WriteFor, failed: bool)
    ensures AfterWrite(srv, f, k, failed).errored >= srv.errored
  {
  }

  lemma PushRecords(s: Sys, l: Calls)
    requires Enabled(s, ServerPushes) && ServerLaw(s, l)
    ensures ServerLaw(Apply(s, ServerPushes), l)
  {
    PushTakes(s.srv, l.sends);
    hide SendLaw, HeadersPending, Push;
  }

  lemma OverRecords(s: Sys, s': Sys, l: Calls)
    requires ServerLaw(s, l) && !HeadersPending(s.srv) && s'.ctx == s.ctx
    requires SendLaw(s'.srv, l.sends) && SameRecords(s.srv, s'.srv) && s'.srv.errored >= s.srv.errored
    requires s'.srv.errored == 0 ==> !HeadersPending(s'.srv)
    ensures ServerLaw(s', l)
  {
    hide SendLaw, HeadersPending;
  }

  lemma GiveUpIs(s: Sys, step: Step)
    requires Enabled(s, step) && step.ServerGivesUp?
    ensures var s', srv := Apply(s, step), s.srv;
            && srv.pc.Writing? && !HeadersPending(srv) && s'.ctx == s.ctx
            && s'.srv == AfterWrite(srv.(dropped := srv.dropped + 1), srv.pc.f, srv.pc.k, true)
  {
    hide AfterWrite;
  }

  lemma GiveUpRecords(s: Sys, step: Step, l: Calls)
    requires ServerOk(s.srv) && Enabled(s, step) && step.ServerGivesUp? && ServerLaw(s, l)
    ensures ServerLaw(Apply(s, step), l)
  {
    hide *;
    GiveUpIs(s, step);
    LawSends(s, l);
    GiveUpTakes(s.srv, l.sends);
    OverRecords(s, Apply(s, step), l);
  }

  lemma CheckIs(s: Sys, step: Step)
    requires Enabled(s, step) && step.ServerChecks?
    ensures var s', srv := Apply(s, step), s.srv;
            && srv.pc.Wrote? && !HeadersPending(srv) && s'.ctx == s.ctx
            && s'.srv == AfterWrite(srv, srv.pc.f, srv.pc.k, s.ctx.svr)
  {
    hide AfterWrite;
  }

  lemma CheckRecords(s: Sys, step: Step, l: Calls)
    requires ServerOk(s.srv) && Enabled(s, step) && step.ServerChecks? && ServerLaw(s, l)
    ensures ServerLaw(Apply(s, step), l)
  {
    hide *;
    CheckIs(s, step);
    LawSends(s, l);
    WriteRecords(s.srv, s.srv.pc.f, s.srv.pc.k, s.ctx.svr, l.sends);
    ErrorsGrow(s.srv, s.srv.pc.f, s.srv.pc.k, s.ctx.svr);
    OverRecords(s, Apply(s, step), l);
  }

  lemma LawSends(s: Sys, l: Calls)
    requires ServerLaw(s, l)
    ensures SendLaw(s.srv, l.sends)
  {
    hide SendLaw;
  }

  lemma WriteStep(s: Sys, step: Step, l: Calls)
    requires ServerOk(s.srv) && Enabled(s, step) && ServerLaw(s, l)
    requires step.ServerPushes? || step.ServerGivesUp? || step.ServerChecks?
    ensures ServerLaw(Apply(s, step), Noted(l, s, step))
  {
    hide ServerOk, ServerLaw, Apply, Enabled;
    match step
    case ServerPushes => PushRecords(s, l);
    case ServerGivesUp => GiveUpRecords(s, step, l);
    case _ => CheckRecords(s, step, l);
  }

  lemma ServerRecords(s: Sys, step: Step, l: Calls)
    requires SendInv(s) && Enabled(s, step) && ServerLaw(s, l)
    ensures ServerLaw(Apply(s, step), Noted(l, s, step))
  {
    assert ServerOk(s.srv);
    if LeavesRecords(step) {
      hide ServerLaw, SendInv, ServerOk, Apply, Enabled;
      OtherRecords(s, step, l);
    } else if step.CallSendMsg? {
      hide ServerLaw, SendInv, ServerOk, Apply, Enabled;
      SendRecords(s, step.m, l);
    } else if step.CallSetHeader? || step.CallSendHeader? || step.CallSetTrailer? {
      hide ServerLaw, SendInv, ServerOk, Apply, Enabled;
      SetterRecords(s, step, l);
    } else if step.FinishLocks? || step.HandlerReturns? {
      hide ServerLaw, SendInv, ServerOk, Apply, Enabled;
      FinishRecords(s, step, l);
    } else {
      hide ServerLaw, SendInv, ServerOk, Apply, Enabled;
      WriteStep(s, step, l);
    }
  }

  // ----- The client's records -----

  function Unpushed(q: Requests): seq<Msg> {
    if q.qpc.QWriting? then [q.qpc.m] else []
  }

  /** What the client pushed, and what it is about to push, are in order among the
      messages it was asked to send, and are exactly those as long as neither its
      context is done nor the handler has returned. */
  ghost predicate PushLaw(q: Requests, live: bool, requests: seq<Msg>) {
    && Subseq(q.pushed + Unpushed(q), requests)
    && (live ==> q.pushed + Unpushed(q) == requests)
  }

  ghost predicate RequestLaw(s: Sys, l: Calls) {
    var q := s.req;
    && PushLaw(q, !s.ctx.cli && !s.ctx.done, l.requests)
    && q.sendClosed == l.sendClosed && q.sentOk == l.acked
    && (!q.qpc.QIdle? ==> l.sending == Some(q.qpc.m))
  }

  lemma RequestElsewhere(s: Sys, step: Step, l: Calls)
    requires Enabled(s, step) && !IsRequestStep(step) && RequestLaw(s, l)
    ensures RequestLaw(Apply(s, step), Noted(l, s, step))
  {
    hide SetHeader, SendHeader, SetTrailer, SendMsg, AfterWrite, FinishFromHeaders, Resume, CheckTaken, Subseq;
  }

  lemma RequestGivenUp(s: Sys, step: Step, l: Calls)
    requires ReqInv(s) && Enabled(s, step) && (step.ReqSeesCtx? || step.ReqSeesDone?) && RequestLaw(s, l)
    ensures RequestLaw(Apply(s, step), Noted(l, s, step))
  {
    SubseqPrefix(s.req.pushed, Unpushed(s.req), l.requests);
    assert s.req.pushed + [] == s.req.pushed;
    hide Subseq, ReqInv;
  }

  lemma SendCalled(s: Sys, step: Step, l: Calls)
    requires ReqInv(s) && Enabled(s, step) && step.CallClientSend? && RequestLaw(s, l)
    ensures RequestLaw(Apply(s, step), Noted(l, s, step))
  {
    assert s.req.pushed + [] == s.req.pushed;
    if step.q.Some? {
      SubseqMore(s.req.pushed, l.requests, step.q.value);
    }
    hide Subseq, ReqInv;
  }

  lemma CloseCalled(s: Sys, step: Step, l: Calls)
    requires ReqInv(s) && Enabled(s, step) && step.CallCloseSend? && RequestLaw(s, l)
    ensures RequestLaw(Apply(s, step), Noted(l, s, step))
  {
    hide Subseq, Received;
  }

  lemma RequestMoves(s: Sys, step: Step, l: Calls)
    requires ReqInv(s) && Enabled(s, step) && RequestLaw(s, l) && IsRequestStep(step)
    requires !step.ReqSeesCtx? && !step.ReqSeesDone? && !step.CallClientSend? && !step.CallCloseSend?
    ensures RequestLaw(Apply(s, step), Noted(l, s, step))
  {
    hide Subseq, Received;
    if step.ReqPushes? {
      assert s.req.pushed + [s.req.qpc.m] == s.req.pushed + [s.req.qpc.m] + [];
    }
  }

  lemma RequestRecords(s: Sys, step: Step, l: Calls)
    requires ReqInv(s) && Enabled(s, step) && RequestLaw(s, l)
    ensures RequestLaw(Apply(s, step), Noted(l, s, step))
  {
    hide ReqInv, Enabled, RequestLaw, Apply;
    if !IsRequestStep(step) {
      RequestElsewhere(s, step, l);
    } else if step.ReqSeesCtx? || step.ReqSeesDone? {
      RequestGivenUp(s, step, l);
    } else if step.CallClientSend? {
      SendCalled(s, step, l);
    } else if step.CallCloseSend? {
      CloseCalled(s, step, l);
    } else {
      RequestMoves(s, step, l);
    }
  }

  // ----- Both -----

  ghost predicate CallLaw(s: Sys, l: Calls) {
    ServerLaw(s, l) && RequestLaw(s, l)
  }

  lemma LawStep(s: Sys, step: Step, l: Calls)
    requires SendInv(s) && ReqInv(s) && Enabled(s, step) && CallLaw(s, l)
    ensures CallLaw(Apply(s, step), Noted(l, s, step))
  {
    hide SendInv, ReqInv, ServerLaw, RequestLaw, Apply, Enabled, Noted;
    ServerRecords(s, step, l);
    RequestRecords(s, step, l);
  }

  lemma InitLaw(unary: bool)
    ensures CallLaw(Init(unary), NONE)
  {
  }
}
