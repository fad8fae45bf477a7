/** When an in-process call can end without a cancellation: a client of a unary
    response that meets a surplus one stops reading, and then finish can only end
    if what is left to push fits into the channel. */
module InProcFinish {
  import opened Prelude
  import opened Metadata
  import opened InProcFrames
  import opened InProcClient
  import opened InProcStream
  import opened InProcSafety
  import opened InProcReceive
  import opened InProcRequests
  import opened InProcTheorems
  import opened InProcProgress

  // ----- What is still ahead of the client -----

  /** Of a list of at most one frame: whether it is data, or anything but headers. */
  function DataIn(fs: seq<Frame>): nat {
    Count(fs != [] && fs[0].Data?)
  }

  function LaterIn(fs: seq<Frame>): nat {
    Count(fs != [] && !fs[0].Headers?)
  }

  function MsgDue(k: WriteFor): nat {
    Count(k.ForMsgHeaders? && k.m.Some?)
  }

  /** Messages a live server still has to push, and trailers and error. */
  function PendingData(srv: Server): nat {
    match srv.pc
    case Writing(f, k) => Count(f.Data?) + MsgDue(k)
    case Wrote(_, k) => MsgDue(k)
    case _ => 0
  }

  function PendingTail(srv: Server): nat {
    var trl := Count(|srv.trailers| > 0);
    var err := Count(srv.returned.Some? && srv.returned.value.Some?);
    match srv.pc
    case Idle => if srv.finishing then 0 else trl + err
    case Closing => 0
    case Writing(f, k) => Count(f.Trailers? || f.Error?) + TailAfter(k, trl, err)
    case Wrote(_, k) => TailAfter(k, trl, err)
  }

  function TailAfter(k: WriteFor, trl: nat, err: nat): nat {
    if k.FinError? then 0 else if k.FinTrailers? then err else trl + err
  }

  function Pending(srv: Server): nat {
    PendingData(srv) + PendingTail(srv)
  }

  function Accepted(s: Sys): nat {
    |Messages(s.rcv.accepted)|
  }

  function DataAhead(s: Sys): nat {
    DataIn(InHand(s.rcv)) + DataIn(s.ch.buf) + PendingData(s.srv)
  }

  function LaterAhead(s: Sys): nat {
    LaterIn(InHand(s.rcv)) + LaterIn(s.ch.buf) + Pending(s.srv)
  }

  /** A surplus response is ahead, and more frames come after it than fit. */
  ghost predicate WillBlock(s: Sys) {
    && s.unary && !s.ctx.cli && !HoldsError(s.rcv.c)
    && Accepted(s) + DataAhead(s) >= 2
    && Accepted(s) + LaterAhead(s) - 2 > CAPACITY
  }

  /** Either the client stopped reading, or it will. */
  ghost predicate Doomed(s: Sys) {
    Blocked(s) || WillBlock(s)
  }

  // ----- Facts about live calls -----

  /** A client that holds no error has accepted one message at most. */
  lemma AtMostOne(s: Sys)
    requires ViewInv(s) && MessagesInv(s) && s.unary && !s.ctx.cli && !HoldsError(s.rcv.c)
    ensures Accepted(s) <= 1
  {
    hide GotMsgs, Messages, WellFormed, HeadersOf, TrailersOf, Drained;
  }

  /** While it is reading, that is the message in hand for the second check. */
  lemma AcceptedWhileReading(s: Sys)
    requires ViewInv(s) && MessagesInv(s) && s.unary && !s.ctx.cli && s.rcv.pc.CTaken? && !s.ch.closed
    ensures Accepted(s) == Count(s.rcv.pc.k.ForMore?)
  {
    hide GotMsgs, Messages, WellFormed, HeadersOf, TrailersOf;
    assert !Drained(s) && s.rcv.c.last.None?;
  }

  lemma ClosedPendsNothing(srv: Server)
    requires IsClosed(srv) || srv.pc.Closing?
    ensures Pending(srv) == 0 && PendingData(srv) == 0
  {
  }

  lemma WillBlockIsOpen(s: Sys)
    requires Inv(s) && WillBlock(s)
    ensures !s.ch.closed && !s.ctx.svr && !s.srv.pc.Closing?
  {
    AtMostOne(s);
    hide GotMsgs, Messages, WellFormed, HeadersOf, TrailersOf, ViewInv, MessagesInv, EndInv, OutsInv, ReqInv,
         Expected, ServerOk, Accepted, TakenInv;
    if s.ch.closed || s.srv.pc.Closing? {
      ClosedPendsNothing(s.srv);
    }
  }

  lemma PendingAtMostPushes(srv: Server)
    requires ServerOk(srv)
    ensures Pending(srv) <= StillToPush(srv)
    ensures Expected(srv) != [] ==> Pending(srv) == StillToPush(srv)
  {
    hide JoinAll;
  }

  /** With messages pending nothing later than messages was written. */
  lemma DataPendingIsEarly(srv: Server)
    requires ServerOk(srv) && PendingData(srv) > 0
    ensures forall f :: f in Expected(srv) ==> f.Headers? || f.Data?
  {
    hide JoinAll;
  }

  /** The frame in hand, and the one behind it in the channel, among those written. */
  lemma InHandWritten(s: Sys, f: Frame)
    requires SendInv(s) && TakenInv(s) && !s.ctx.cli && InHand(s.rcv) == [f]
    ensures Expected(s.srv) == s.rcv.accepted + [f] + s.ch.buf
    ensures WellFormed(s.rcv.accepted + [f] + s.ch.buf)
  {
    ExpectedWellFormed(s.srv);
    hide ServerOk, Expected, WellFormed;
  }

  /** Behind trailers or an error there are no messages. */
  lemma NoDataBehind(s: Sys, f: Frame)
    requires SendInv(s) && TakenInv(s) && !s.ctx.cli && InHand(s.rcv) == [f] && (f.Trailers? || f.Error?)
    ensures DataAhead(s) == 0
  {
    InHandWritten(s, f);
    var n, all := |s.rcv.accepted|, s.rcv.accepted + [f] + s.ch.buf;
    assert all[n] == f;
    assert s.ch.buf != [] ==> all[n + 1] == s.ch.buf[0];
    if PendingData(s.srv) > 0 {
      DataPendingIsEarly(s.srv);
    }
    hide Expected, ServerOk, PendingData;
  }

  /** Behind a message there are no headers. */
  lemma NoHeadersBehind(s: Sys, f: Frame)
    requires SendInv(s) && TakenInv(s) && !s.ctx.cli && InHand(s.rcv) == [f] && f.Data?
    ensures LaterIn(s.ch.buf) == |s.ch.buf| && Pending(s.srv) == StillToPush(s.srv)
  {
    InHandWritten(s, f);
    var n, all := |s.rcv.accepted|, s.rcv.accepted + [f] + s.ch.buf;
    assert all[n] == f;
    assert s.ch.buf != [] ==> all[n + 1] == s.ch.buf[0];
    PendingAtMostPushes(s.srv);
    hide Expected, ServerOk, Pending, StillToPush;
  }

  // ----- The client looks at a frame -----

  /** A reading client comes to hold an error by an error frame or a surplus message. */
  lemma CheckedFrame(s: Sys, f: Frame)
    requires s.unary && !s.ctx.cli && s.rcv.pc.CTaken? && s.rcv.pc.item == Arrived(f) && s.rcv.c.last.None?
    ensures var s' := Apply(s, ClientChecks);
            && HoldsError(s'.rcv.c) == (f.Error? || (f.Data? && s.rcv.pc.k.ForMore?))
            && s'.rcv.accepted == s.rcv.accepted + [f] && InHand(s'.rcv) == []
            && s'.unary && s'.ctx == s.ctx && s'.ch == s.ch && s'.srv == s.srv
  {
    hide TranslateContextError;
  }

  lemma AcceptedMore(s: Sys, f: Frame, s': Sys)
    requires s'.rcv.accepted == s.rcv.accepted + [f]
    ensures Accepted(s') == Accepted(s) + Count(f.Data?)
  {
    AppendFrame(s.rcv.accepted, f);
    hide Messages, HeadersOf, TrailersOf;
  }

  /** What a look at frame f leaves: everything but the client's own state as it was. */
  ghost predicate Looked(s: Sys, f: Frame, s': Sys) {
    && s.unary && !s.ctx.cli && !HoldsError(s.rcv.c) && InHand(s.rcv) == [f] && s.rcv.pc.CTaken?
    && Accepted(s) == Count(s.rcv.pc.k.ForMore?)
    && s'.unary && s'.ctx == s.ctx && s'.ch == s.ch && s'.srv == s.srv && InHand(s'.rcv) == []
    && Accepted(s') == Accepted(s) + Count(f.Data?)
    && HoldsError(s'.rcv.c) == (f.Error? || (f.Data? && s.rcv.pc.k.ForMore?))
  }

  /** Whether the call is doomed does not change when the client looks at a frame. */
  lemma CheckKeepsDoom(s: Sys, s': Sys)
    requires s.rcv.pc.CTaken? && s.rcv.pc.item.Arrived? && s' == Apply(s, ClientChecks)
    requires s.unary && !s.ctx.cli && !s.ch.closed && Inv(s) && Inv(s')
    ensures Doomed(s') <==> Doomed(s)
  {
    var f := s.rcv.pc.item.frame;
    assert s.rcv.c.last.None?;
    CheckedFrame(s, f);
    AcceptedMore(s, f, s');
    AcceptedWhileReading(s);
    hide Accepted, Doomed, Apply;
    assert Looked(s, f, s');
    hide Looked;
    match f
    case Headers(_) => LookedAtHeaders(s, f, s');
    case Data(_) => LookedAtData(s, f, s');
    case Trailers(_) => LookedAtTrailers(s, f, s');
    case Error(_) => LookedAtError(s, f, s');
  }

  lemma LookedAtHeaders(s: Sys, f: Frame, s': Sys)
    requires Looked(s, f, s') && f.Headers?
    ensures Doomed(s') <==> Doomed(s)
  {
    hide Accepted, Pending, PendingData, StillToPush;
  }

  lemma LookedAtData(s: Sys, f: Frame, s': Sys)
    requires Looked(s, f, s') && f.Data? && SendInv(s) && TakenInv(s)
    ensures Doomed(s') <==> Doomed(s)
  {
    NoHeadersBehind(s, f);
    hide SendInv, TakenInv, Accepted, Pending, PendingData, StillToPush;
  }

  lemma LookedAtTrailers(s: Sys, f: Frame, s': Sys)
    requires Looked(s, f, s') && f.Trailers? && SendInv(s) && TakenInv(s)
    ensures Doomed(s') <==> Doomed(s)
  {
    NoDataBehind(s, f);
    hide SendInv, TakenInv, Accepted, Pending, PendingData, StillToPush;
  }

  lemma LookedAtError(s: Sys, f: Frame, s': Sys)
    requires Looked(s, f, s') && f.Error? && SendInv(s) && TakenInv(s)
    requires Inv(s') && f in s'.rcv.accepted
    ensures Doomed(s') <==> Doomed(s)
  {
    NoDataBehind(s, f);
    ErrorNotBlocked(s', f);
    hide SendInv, TakenInv, Inv, Accepted, Pending, PendingData, StillToPush;
  }

  lemma ErrorNotBlocked(s: Sys, f: Frame)
    requires Inv(s) && f in s.rcv.accepted && f.Error?
    ensures !Blocked(s)
  {
    assert Delivered(s, Some(f.err));
    DeliveredPushesNothing(s, Some(f.err));
    hide Inv, StillToPush, Delivered;
  }

  // ----- Every other step -----

  /** New calls only add to what is pending; finish changes nothing. */
  lemma CallsAddPending(srv: Server, md: MD, m: Option<Msg>)
    requires ServerOk(srv) && srv.pc.Idle?
    ensures PendingData(SetHeader(srv, md)) == PendingData(SendHeader(srv, md)) == PendingData(srv)
    ensures Pending(SetHeader(srv, md)) == Pending(SendHeader(srv, md)) == Pending(srv)
    ensures PendingData(SetTrailer(srv, md)) == PendingData(srv) && Pending(SetTrailer(srv, md)) >= Pending(srv)
    ensures PendingData(SendMsg(srv, false, m)) >= PendingData(srv)
    ensures Pending(SendMsg(srv, false, m)) >= Pending(srv)
  {
    hide JoinAll, Join;
    if |srv.trailers| > 0 {
      JoinGrows(srv.trailers, md);
    }
  }

  lemma FinishKeepsPending(srv: Server)
    requires ServerOk(srv) && srv.pc.Idle? && !srv.finishing
    ensures var srv' := FinishFromHeaders(srv.(finishing := true));
            PendingData(srv') == PendingData(srv) && Pending(srv') == Pending(srv)
  {
    hide JoinAll;
  }

  /** A successful write leaves what comes after it pending. */
  lemma CheckKeepsPending(srv: Server)
    requires ServerOk(srv) && srv.pc.Wrote?
    ensures var srv' := AfterWrite(srv, srv.pc.f, srv.pc.k, false);
            PendingData(srv') == PendingData(srv) && Pending(srv') == Pending(srv)
  {
    hide JoinAll;
  }

  /** A frame that is pushed moves from the server to the channel. */
  lemma PushMoves(s: Sys)
    requires ChanInv(s) && Enabled(s, ServerPushes) && !s.ch.closed
    ensures var s' := Apply(s, ServerPushes);
            && DataIn(s'.ch.buf) + PendingData(s'.srv) == DataIn(s.ch.buf) + PendingData(s.srv)
            && LaterIn(s'.ch.buf) + Pending(s'.srv) == LaterIn(s.ch.buf) + Pending(s.srv)
  {
  }

  /** Steps of the server that are its own in finish. */
  ghost predicate ServerMoves(step: Step) {
    step.ServerPushes? || step.ServerChecks? || step.FinishLocks?
  }

  lemma ServerKeepsAhead(s: Sys, step: Step)
    requires SendInv(s) && Enabled(s, step) && ServerMoves(step) && !s.ctx.svr && !s.ch.closed
    ensures var s' := Apply(s, step);
            && s'.rcv == s.rcv && s'.unary == s.unary && s'.ctx == s.ctx
            && DataAhead(s') == DataAhead(s) && LaterAhead(s') == LaterAhead(s)
  {
    hide JoinAll, Expected, LiveInv, Pending, PendingData, FinishFromHeaders, AfterWrite;
    if step.ServerPushes? {
      PushMoves(s);
    } else if step.ServerChecks? {
      CheckKeepsPending(s.srv);
    } else {
      FinishKeepsPending(s.srv);
    }
  }

  /** Calls of the handler's other goroutines, which can only make things worse. */
  ghost predicate NewCall(step: Step) {
    step.CallSetHeader? || step.CallSendHeader? || step.CallSetTrailer? || step.CallSendMsg?
  }

  lemma CallsAddAhead(s: Sys, step: Step)
    requires SendInv(s) && Enabled(s, step) && NewCall(step) && !s.ctx.svr
    ensures var s' := Apply(s, step);
            && s'.rcv == s.rcv && s'.unary == s.unary && s'.ctx == s.ctx
            && DataAhead(s') >= DataAhead(s) && LaterAhead(s') >= LaterAhead(s)
  {
    hide JoinAll, Expected, LiveInv, Pending, PendingData, SetHeader, SendHeader, SetTrailer, SendMsg;
    match step
    case CallSetHeader(md) => CallsAddPending(s.srv, md, None);
    case CallSendHeader(md) => CallsAddPending(s.srv, md, None);
    case CallSetTrailer(md) => CallsAddPending(s.srv, md, None);
    case CallSendMsg(m) => CallsAddPending(s.srv, map[], m);
  }

  /** All other steps, while the call is live and open, leave it alone. */
  ghost predicate Elsewhere(step: Step) {
    && !ServerMoves(step) && !NewCall(step) && !step.ClientChecks?
    && !step.Cancel? && !step.HandlerReturns? && !step.ServerCloses?
  }

  lemma ElsewhereKeeps(s: Sys, step: Step)
    requires SendInv(s) && ViewInv(s) && Enabled(s, step) && Elsewhere(step)
    requires !s.ctx.cli && !s.ch.closed
    ensures var s' := Apply(s, step);
            && s'.unary == s.unary && s'.ctx.cli == s.ctx.cli && s'.srv == s.srv
            && s'.rcv.accepted == s.rcv.accepted
            && (HoldsError(s'.rcv.c) <==> HoldsError(s.rcv.c))
            && DataAhead(s') == DataAhead(s) && LaterAhead(s') == LaterAhead(s)
  {
    hide JoinAll, Expected, LiveInv, ServerOk, Pending, PendingData, WellFormed, HeadersOf, TrailersOf, Drained,
         ApplyRequest, TranslateContextError;
  }

  // ----- Doom stays -----

  lemma SameAhead(s: Sys, s': Sys)
    requires s'.unary == s.unary && s'.ctx.cli == s.ctx.cli
    requires s'.rcv.accepted == s.rcv.accepted && (HoldsError(s'.rcv.c) <==> HoldsError(s.rcv.c))
    requires DataAhead(s') >= DataAhead(s) && LaterAhead(s') >= LaterAhead(s)
    ensures WillBlock(s) ==> WillBlock(s')
  {
    hide DataAhead, LaterAhead, HoldsError, Messages;
  }

  lemma WillBlockStep(s: Sys, step: Step)
    requires Inv(s) && Enabled(s, step) && !step.Cancel? && Inv(Apply(s, step))
    requires WillBlock(s) && s.srv.returned.Some?
    ensures Doomed(Apply(s, step))
  {
    WillBlockIsOpen(s);
    assert SendInv(s) && TakenInv(s) && ViewInv(s);
    hide Inv, SendInv, TakenInv, ViewInv, Apply, Enabled;
    if step.ClientChecks? {
      CheckedIsTaken(s, step);
      hide Doomed;
      assert Doomed(s) by {
        WillBlockIsDoom(s);
      }
      hide WillBlock;
      CheckKeepsDoom(s, Apply(s, step));
    } else {
      assert !s.ctx.cli && !s.ctx.svr && !s.ch.closed && !s.srv.pc.Closing?;
      hide WillBlock, DataAhead, LaterAhead, HoldsError;
      AheadGrows(s, step);
      SameAhead(s, Apply(s, step));
      WillBlockIsDoom(Apply(s, step));
    }
  }

  lemma WillBlockIsDoom(s: Sys)
    ensures WillBlock(s) ==> Doomed(s)
  {
    hide WillBlock, Blocked;
  }

  lemma CheckedIsTaken(s: Sys, step: Step)
    requires TakenInv(s) && Enabled(s, step) && step.ClientChecks? && !s.ch.closed
    ensures s.rcv.pc.CTaken? && s.rcv.pc.item.Arrived? && step == ClientChecks
  {
  }

  /** A step of a live, open call, other than a look at a frame, leaves what is ahead,
      or adds to it. */
  lemma AheadGrows(s: Sys, step: Step)
    requires SendInv(s) && ViewInv(s) && Enabled(s, step) && !step.Cancel? && !step.ClientChecks?
    requires !s.ctx.cli && !s.ctx.svr && !s.ch.closed && !s.srv.pc.Closing? && s.srv.returned.Some?
    ensures var s' := Apply(s, step);
            && s'.unary == s.unary && s'.ctx.cli == s.ctx.cli && s'.rcv.accepted == s.rcv.accepted
            && (HoldsError(s'.rcv.c) <==> HoldsError(s.rcv.c))
            && DataAhead(s') >= DataAhead(s) && LaterAhead(s') >= LaterAhead(s)
  {
    assert !step.HandlerReturns? && !step.ServerCloses?;
    hide SendInv, ViewInv, Apply, Enabled, DataAhead, LaterAhead;
    if ServerMoves(step) {
      ServerKeepsAhead(s, step);
    } else if NewCall(step) {
      CallsAddAhead(s, step);
    } else {
      ElsewhereKeeps(s, step);
    }
  }

  lemma TakenIsFrame(s: Sys)
    requires TakenInv(s) && s.rcv.pc.CTaken? && !s.ch.closed
    ensures s.rcv.pc.item.Arrived?
  {
  }

  lemma DoomedIsOpen(s: Sys)
    requires Inv(s) && Doomed(s)
    ensures !s.ch.closed
  {
    if Blocked(s) {
      BlockedIsOpen(s);
    } else {
      WillBlockIsOpen(s);
    }
  }

  lemma DoomedStep(s: Sys, step: Step)
    requires Inv(s) && Enabled(s, step) && !step.Cancel? && Inv(Apply(s, step))
    requires Doomed(s) && s.srv.returned.Some?
    ensures Doomed(Apply(s, step))
  {
    hide Inv, Apply, Enabled, Blocked, WillBlock;
    if Blocked(s) {
      BlockedStep(s, step);
    } else {
      WillBlockStep(s, step);
    }
  }

  lemma {:induction false} DoomedForever(s: Sys, steps: seq<Step>, s': Sys)
    requires Inv(s) && Doomed(s) && s.srv.returned.Some? && IsRun(s, steps, s') && NoCancel(steps)
    ensures Doomed(s') && !s'.ch.closed
    decreases |steps|
  {
    hide Inv, Doomed, Apply, Enabled;
    DoomedIsOpen(s);
    if steps != [] {
      InvStep(s, steps[0]);
      DoomedStep(s, steps[0]);
      ReturnedStays(s, steps[0]);
      DoomedForever(Apply(s, steps[0]), steps[1..], s');
    }
  }

  // ----- Otherwise the call can be brought to its end -----

  ghost predicate CanEnd(s: Sys) {
    Finishing(s) && !Doomed(s)
  }

  /** No step makes a live unary call doomed, unless it is a new call of the handler's
      goroutines. */
  lemma ServerStaysFree(s: Sys, step: Step)
    requires Inv(s) && CanEnd(s) && s.unary && !s.ctx.cli && !s.ctx.svr && Enabled(s, step) && Inv(Apply(s, step))
    requires ServerMoves(step) && !s.ch.closed
    ensures var s' := Apply(s, step); s'.ch.closed || !Doomed(s')
  {
    var s' := Apply(s, step);
    assert SendInv(s);
    hide Inv, SendInv, Apply, Enabled, DataAhead, LaterAhead, StillToPush, HoldsError, ServerMoves;
    ServerKeepsAhead(s, step);
    ServerConservesPushes(s, step);
    SameAhead(s', s);
  }

  lemma ElsewhereStaysFree(s: Sys, step: Step)
    requires Inv(s) && CanEnd(s) && s.unary && !s.ctx.cli && Enabled(s, step) && Inv(Apply(s, step))
    requires !step.Cancel? && !NewCall(step) && !step.ClientChecks? && !ServerMoves(step) && !step.ServerCloses?
    ensures var s' := Apply(s, step); s'.ch.closed || !Doomed(s')
  {
    var s' := Apply(s, step);
    ElsewhereKeeps(s, step);
    hide DataAhead, LaterAhead, StillToPush, WillBlock, TakenInv, OutsInv, MessagesInv, EndInv, ReqInv, SendInv;
    assert step.ClientTakes? ==> !HoldsError(s.rcv.c);
    SameAhead(s', s);
  }

  lemma LiveIsOpen(s: Sys)
    requires Inv(s) && CanEnd(s) && !s.ctx.cli
    ensures !s.ctx.svr && !s.ch.closed && TakenInv(s) && !Doomed(s)
  {
    hide TakenInv, ViewInv, OutsInv, MessagesInv, EndInv, ReqInv, Doomed, LiveInv, ServerOk;
  }

  lemma CheckStaysFree(s: Sys, step: Step)
    requires Inv(s) && TakenInv(s) && !Doomed(s) && s.unary && !s.ctx.cli && !s.ch.closed
    requires Enabled(s, step) && Inv(Apply(s, step)) && step.ClientChecks?
    ensures !Doomed(Apply(s, step))
  {
    hide *;
    CheckedIsTaken(s, step);
    CheckKeepsDoom(s, Apply(s, step));
  }

  lemma ClosingCloses(s: Sys, step: Step)
    requires Enabled(s, step) && step.ServerCloses? && !s.ch.closed
    ensures Apply(s, step).ch.closed
  {
  }

  lemma LiveStaysFree(s: Sys, step: Step)
    requires Inv(s) && CanEnd(s) && s.unary && !s.ctx.cli && Enabled(s, step) && Inv(Apply(s, step))
    requires !step.Cancel? && !NewCall(step)
    ensures var s' := Apply(s, step); s'.ch.closed || !Doomed(s')
  {
    hide *;
    LiveIsOpen(s);
    if step.ClientChecks? {
      CheckStaysFree(s, step);
    } else if step.ServerCloses? {
      ClosingCloses(s, step);
    } else if ServerMoves(step) {
      ServerStaysFree(s, step);
    } else {
      ElsewhereStaysFree(s, step);
    }
  }

  lemma StaysFree(s: Sys, step: Step)
    requires Inv(s) && CanEnd(s) && Enabled(s, step) && Inv(Apply(s, step)) && !NewCall(step)
    ensures var s' := Apply(s, step); s'.ch.closed || CanEnd(s')
  {
    var s' := Apply(s, step);
    ReturnedStays(s, step);
    HeldErrorStays(s, step);
    UnaryStays(s, step);
    if !s.unary {
      StreamingNeverBlocked(s');
    } else if !s.ctx.cli && !step.Cancel? {
      LiveStaysFree(s, step);
    }
    hide Inv, StillToPush, Enabled, HoldsError, DataAhead, LaterAhead, Accepted, NewCall;
    if !step.Cancel? {
      hide Apply;
    }
  }

  /** Steps of the server, of a cancellation on its way, and the client's receive. */
  ghost predicate Productive(step: Step) {
    ServerStep(step) || step.ReachServer? || step.ClientTakes? || step.ClientChecks? || step.CallRecv?
  }

  /** The chosen step is possible and brings the end closer. */
  lemma Advance(s: Sys)
    requires Inv(s) && CanEnd(s)
    ensures Enabled(s, NextStep(s)) && !NextStep(s).Cancel? && Productive(NextStep(s))
    ensures var s' := Apply(s, NextStep(s));
            Work(s') < Work(s) && Inv(s') && (s'.ch.closed || CanEnd(s'))
  {
    NextAdvances(s);
    hide Apply, Enabled, Work, NextStep, Doomed, NewCall, SendInv, TakenInv, ViewInv, OutsInv, MessagesInv, EndInv, ReqInv;
    InvStep(s, NextStep(s));
    StaysFree(s, NextStep(s));
  }

  lemma NextAdvances(s: Sys)
    requires Inv(s) && CanEnd(s)
    ensures Enabled(s, NextStep(s)) && Work(Apply(s, NextStep(s))) < Work(s)
    ensures !NextStep(s).Cancel? && !NewCall(NextStep(s)) && Productive(NextStep(s))
  {
    hide Apply, Enabled, Work, TakenInv, ViewInv, OutsInv, MessagesInv, EndInv, ReqInv, ServerOk, LiveInv, Blocked, WillBlock;
    if ServerStep(NextStep(s)) {
      ServerAdvances(s);
    } else {
      if HoldsError(s.rcv.c) && !s.ctx.cli && s.srv.pc.Writing? {
        HoldingIsDone(s);
      }
      ClientAdvances(s);
    }
  }

  lemma {:induction false} Drain(s: Sys) returns (steps: seq<Step>, s': Sys)
    requires Inv(s) && CanEnd(s)
    ensures IsRun(s, steps, s') && NoCancel(steps) && s'.ch.closed
    ensures |steps| <= Work(s)
    decreases Work(s)
  {
    hide Inv, CanEnd, Apply, Enabled, Work, NextStep;
    Advance(s);
    var step := NextStep(s);
    var s1 := Apply(s, step);
    var rest := [];
    s' := s1;
    if !s1.ch.closed {
      rest, s' := Drain(s1);
    }
    steps := [step] + rest;
    assert steps[1..] == rest;
  }

  // ----- Every schedule -----

  /** Nothing raises the work that is left, but new calls of the handler's goroutines. */
  lemma NoStepRaisesWork(s: Sys, step: Step)
    requires Inv(s) && Finishing(s) && Enabled(s, step) && !NewCall(step)
    ensures Work(Apply(s, step)) <= Work(s)
    ensures ServerStep(step) || TakesNext(s, step) || (step.ReachServer? && !s.ctx.svr) ==>
              Work(Apply(s, step)) < Work(s)
  {
    if ServerStep(step) {
      ServerLowersStage(s, step);
      hide Inv, Apply, Enabled, Stage, Phase, ServerStep, TakesNext;
    } else if ClientStep(step) {
      ClientLowers(s, step);
      hide Inv, Apply, Enabled, Work;
    } else {
      OthersKeep(s, step);
      hide Inv, Apply, Enabled, Work;
    }
  }

  /** The steps of a run that lower the work that is left. */
  ghost function Lowering(s: Sys, steps: seq<Step>): nat
    decreases |steps|
  {
    if steps == [] || !Enabled(s, steps[0]) then 0
    else
      var s1 := Apply(s, steps[0]);
      Count(Work(s1) < Work(s)) + Lowering(s1, steps[1..])
  }

  ghost predicate NoNewCalls(steps: seq<Step>) {
    forall i :: 0 <= i < |steps| ==> !NewCall(steps[i])
  }

  lemma {:induction false} StaysClosed(s: Sys, steps: seq<Step>, s': Sys)
    requires IsRun(s, steps, s') && s.ch.closed
    ensures s'.ch.closed
    decreases |steps|
  {
    hide Apply, Enabled;
    if steps != [] {
      ClosedStays(s, steps[0]);
      StaysClosed(Apply(s, steps[0]), steps[1..], s');
    }
  }

  lemma ClosedStays(s: Sys, step: Step)
    requires Enabled(s, step) && s.ch.closed
    ensures Apply(s, step).ch.closed
  {
    hide SetHeader, SendHeader, SetTrailer, SendMsg, AfterWrite, FinishFromHeaders, ApplyRequest, Resume, CheckTaken;
  }

  /** The end is near in every schedule. Once the handler has returned, its goroutines
      make no new calls, and the call is not doomed: along every run, cancelled or not,
      either the channel has been closed, or some step of the server, of a cancellation
      or of the client's receive is possible that lowers the work left, while every
      such step taken so far has lowered it for good. So a schedule that takes Work(s)
      of them closes the channel. */
  lemma {:induction false} EveryScheduleCloses(s: Sys, steps: seq<Step>, s': Sys)
    requires Inv(s) && CanEnd(s) && IsRun(s, steps, s') && NoNewCalls(steps)
    ensures !s'.ch.closed ==>
              && Inv(s') && CanEnd(s') && Lowering(s, steps) + Work(s') <= Work(s)
              && exists step :: Productive(step) && Enabled(s', step) && Work(Apply(s', step)) < Work(s')
    ensures Lowering(s, steps) >= Work(s) ==> s'.ch.closed
    decreases |steps|
  {
    hide Inv, CanEnd, Apply, Enabled, Work, NextStep, Productive, NewCall;
    if steps == [] {
      Advance(s);
    } else {
      var s1 := Apply(s, steps[0]);
      InvStep(s, steps[0]);
      EndStaysPossible(s, steps[0]);
      if s1.ch.closed {
        StaysClosed(s1, steps[1..], s');
      } else {
        EveryScheduleCloses(s1, steps[1..], s');
      }
    }
  }

  lemma EndStaysPossible(s: Sys, step: Step)
    requires Inv(s) && CanEnd(s) && Enabled(s, step) && Inv(Apply(s, step)) && !NewCall(step)
    ensures var s' := Apply(s, step);
            (s'.ch.closed || CanEnd(s')) && Work(s') <= Work(s)
  {
    hide Inv, Apply, Enabled, Work, NewCall, Doomed;
    StaysFree(s, step);
    NoStepRaisesWork(s, step);
  }

  // ----- Once finish holds the lock -----

  function ServerSteps(steps: seq<Step>): nat {
    if steps == [] then 0
    else Count(ServerStep(steps[0])) + ServerSteps(steps[1..])
  }

  /** Every step of the server then brings it closer to closing the channel, and no
      other step touches it. */
  lemma FinishStep(s: Sys, step: Step)
    requires SendInv(s) && s.srv.finishing && Enabled(s, step)
    ensures var srv' := Apply(s, step).srv;
            && srv'.finishing
            && (if ServerStep(step) then Stage(srv') < Stage(s.srv) else srv' == s.srv)
  {
    if ServerStep(step) {
      ServerLowersStage(s, step);
      FinishingStays(s, step);
    } else {
      hide JoinAll, Join, LiveInv, ApplyRequest, Resume, CheckTaken;
    }
  }

  lemma FinishingStays(s: Sys, step: Step)
    requires ServerOk(s.srv) && s.srv.finishing && Enabled(s, step) && ServerStep(step)
    ensures Apply(s, step).srv.finishing
  {
    hide JoinAll;
  }

  lemma {:induction false} FinishRun(s: Sys, steps: seq<Step>, s': Sys)
    requires Inv(s) && s.srv.finishing && IsRun(s, steps, s')
    ensures ServerSteps(steps) + Stage(s'.srv) <= Stage(s.srv)
    decreases |steps|
  {
    hide TakenInv, ViewInv, OutsInv, MessagesInv, EndInv, ReqInv, SendInv, Apply, Enabled, Stage, ServerStep;
    if steps != [] {
      InvStep(s, steps[0]);
      FinishStep(s, steps[0]);
      FinishRun(Apply(s, steps[0]), steps[1..], s');
    }
  }

  /** In every run, once finish holds the lock at most eight more steps of the server
      follow, whatever the client and the context do; and the channel is closed
      exactly when none is left. */
  lemma FinishIsBounded(unary: bool, before: seq<Step>, s: Sys, steps: seq<Step>, s': Sys)
    requires IsRun(Init(unary), before, s) && s.srv.finishing && IsRun(s, steps, s')
    ensures ServerSteps(steps) + Stage(s'.srv) <= Stage(s.srv) <= 8
    ensures s'.ch.closed <==> Stage(s'.srv) == 0
  {
    Reachable(unary, before, s);
    FinishRun(s, steps, s');
    RunKeepsInv(s, steps, s');
    FinishingRun(s, steps, s');
    hide TakenInv, ViewInv, OutsInv, MessagesInv, EndInv, ReqInv, LiveInv, JoinAll, IsRun;
  }

  lemma {:induction false} FinishingRun(s: Sys, steps: seq<Step>, s': Sys)
    requires Inv(s) && s.srv.finishing && IsRun(s, steps, s')
    ensures s'.srv.finishing
    decreases |steps|
  {
    hide TakenInv, ViewInv, OutsInv, MessagesInv, EndInv, ReqInv, SendInv, Apply, Enabled, Stage, ServerStep;
    if steps != [] {
      InvStep(s, steps[0]);
      FinishStep(s, steps[0]);
      FinishingRun(Apply(s, steps[0]), steps[1..], s');
    }
  }

  /** When a call can end without a cancellation. Once the handler has returned,
      some run without a cancellation closes the channel if and only if the call is
      not doomed: the client of a unary response does not hold an error, nor meet
      a surplus response, with more left to push than fits. A streaming or
      cancelled call can always end. */
  lemma CanFinishExactlyWhen(unary: bool, before: seq<Step>, s: Sys)
    requires IsRun(Init(unary), before, s)
    requires s.srv.returned.Some? && !s.ch.closed
    ensures (exists steps, s' :: IsRun(s, steps, s') && NoCancel(steps) && s'.ch.closed) <==> !Doomed(s)
    ensures !s.unary || s.ctx.cli ==> !Doomed(s)
  {
    Reachable(unary, before, s);
    if !s.unary {
      StreamingNeverBlocked(s);
    }
    hide Inv, Blocked, WillBlock;
    if Doomed(s) {
      hide Doomed;
      forall steps, s' | IsRun(s, steps, s') && NoCancel(steps)
        ensures !s'.ch.closed
      {
        DoomedForever(s, steps, s');
      }
    } else {
      hide Doomed;
      var steps, s' := Drain(s);
    }
  }

  /** An error the client holds is the server's, or is about a second message. */
  ghost predicate HeldInv(s: Sys) {
    s.unary && HoldsError(s.rcv.c) ==> s.rcv.c.last.value in s.rcv.accepted || Accepted(s) >= 2
  }

  lemma HeldAccept(s: Sys)
    requires ViewInv(s) && MessagesInv(s) && HeldInv(s)
    requires s.rcv.pc.CTaken? && s.rcv.pc.item.Arrived? && !s.ctx.cli
    ensures HeldInv(Apply(s, ClientChecks))
  {
    hide WellFormed, HeadersOf, TrailersOf, GotMsgs, Messages, TranslateContextError, StreamingInv, Drained;
    var f := s.rcv.pc.item.frame;
    AppendFrame(s.rcv.accepted, f);
    assert Apply(s, ClientChecks).rcv.accepted == s.rcv.accepted + [f];
  }

  lemma HeldElsewhere(s: Sys, step: Step)
    requires HeldInv(s) && Enabled(s, step)
    requires step.ClientChecks? ==> s.ctx.cli || !s.rcv.pc.item.Arrived?
    requires s.rcv.pc.CTaken? ==> !s.rcv.pc.item.CtxDone?
    ensures HeldInv(Apply(s, step))
  {
    hide Messages, TranslateContextError, SetHeader, SendHeader, SetTrailer, SendMsg, FinishFromHeaders,
         AfterWrite, ApplyRequest;
  }

  lemma {:induction false} HeldReachable(s: Sys, steps: seq<Step>, s': Sys)
    requires Inv(s) && HeldInv(s) && IsRun(s, steps, s')
    ensures Inv(s') && HeldInv(s')
    decreases |steps|
  {
    hide SendInv, ViewInv, OutsInv, MessagesInv, EndInv, ReqInv, HeldInv, Apply, Enabled;
    if steps != [] {
      InvStep(s, steps[0]);
      HeldStep(s, steps[0]);
      HeldReachable(Apply(s, steps[0]), steps[1..], s');
    }
  }

  lemma HeldStep(s: Sys, step: Step)
    requires Inv(s) && HeldInv(s) && Enabled(s, step)
    ensures HeldInv(Apply(s, step))
  {
    assert s.rcv.pc.CTaken? ==> !s.rcv.pc.item.CtxDone?;
    assert step.ClientChecks? ==> s.rcv.pc.CTaken?;
    hide SendInv, TakenInv, ViewInv, OutsInv, MessagesInv, EndInv, ReqInv, HeldInv, Apply, Enabled;
    if step.ClientChecks? && !s.ctx.cli && s.rcv.pc.item.Arrived? {
      HeldAccept(s);
    } else {
      HeldElsewhere(s, step);
    }
  }

  /** With the server's own error in its hands the client has met all there was. */
  lemma ServersErrorIsLast(s: Sys)
    requires SendInv(s) && EndInv(s) && HoldsError(s.rcv.c) && s.rcv.c.last.value in s.rcv.accepted
    ensures !Blocked(s)
  {
    hide JoinAll, LiveInv;
    assert Delivered(s, Some(s.rcv.c.last.value.err));
    assert StillToPush(s.srv) == 0;
  }

  /** So a unary call whose server sends one message at most can always end. */
  lemma OneResponseCanFinish(before: seq<Step>, s: Sys)
    requires IsRun(Init(true), before, s)
    requires s.srv.returned.Some? && !s.ch.closed
    requires Accepted(s) + DataAhead(s) <= 1
    ensures exists steps, s' :: IsRun(s, steps, s') && NoCancel(steps) && s'.ch.closed
  {
    InitInv(true);
    UnaryKept(before, s);
    hide IsRun, Inv, Accepted, DataAhead, Doomed;
    HeldReachable(Init(true), before, s);
    NotDoomed(s);
    CanFinishExactlyWhen(true, before, s);
  }

  lemma NotDoomed(s: Sys)
    requires Inv(s) && HeldInv(s) && s.unary && Accepted(s) + DataAhead(s) <= 1
    ensures !Doomed(s)
  {
    assert SendInv(s) && EndInv(s);
    if HoldsError(s.rcv.c) {
      ServersErrorIsLast(s);
    }
    hide Inv, SendInv, EndInv, Accepted, DataAhead, LaterAhead, StillToPush;
  }

  lemma UnaryKept(before: seq<Step>, s: Sys)
    requires IsRun(Init(true), before, s)
    ensures s.unary
  {
    Reachable(true, before, s);
  }
}
