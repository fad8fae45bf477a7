/** Progress at the end of an in-process stream: what can always still happen
    once the handler has returned, and the one case in which finish is stuck. */
module InProcProgress {
  import opened Prelude
  import opened Metadata
  import opened InProcFrames
  import opened InProcClient
  import opened InProcStream
  import opened InProcSafety
  import opened InProcReceive
  import opened InProcRequests
  import opened InProcTheorems

  /** Once the handler has returned, a client blocked in SendMsg can always get
      out, whoever holds the server's lock. */
  lemma SendNeverStuck(unary: bool, steps: seq<Step>, s: Sys)
    requires IsRun(Init(unary), steps, s)
    requires s.srv.returned.Some? && s.req.qpc.QWriting?
    ensures Enabled(s, ReqSeesDone) && Apply(s, ReqSeesDone).req.qpc.QIdle?
  {
    Reachable(unary, steps, s);
  }

  /** The end of its context releases whoever waits at a channel: a RecvMsg of the client
      reports it, one that holds a message returns that, and a Header returns an error. */
  lemma ClientReleased(s: Sys)
    requires s.rcv.pc.CReading? && s.ctx.cli
    ensures exists step, s' :: Enabled(s, step) && s' == Apply(s, step) && s'.rcv.pc.CIdle? && s'.ch == s.ch
                               && s'.rcv.outs == s.rcv.outs + match s.rcv.pc.k
                                                              case ForRecv => [Cancelled]
                                                              case ForMore(m) => [Got(m)]
                                                              case ForHeader => []
  {
    assert Enabled(s, ClientSeesCtx);
    var s' := Apply(s, ClientSeesCtx);
    assert s'.rcv.outs == s.rcv.outs + match s.rcv.pc.k
                                       case ForRecv => [Cancelled]
                                       case ForMore(m) => [Got(m)]
                                       case ForHeader => [];
  }

  /** A call of the handler that writes, or finish, goes on without the frame. */
  lemma ServerReleased(s: Sys)
    requires s.srv.pc.Writing? && s.ctx.svr
    ensures exists step, s' :: Enabled(s, step) && s' == Apply(s, step) && s'.ch == s.ch
                               && s'.srv.dropped == s.srv.dropped + 1 && s'.srv.pc != s.srv.pc
  {
    assert Enabled(s, ServerGivesUp);
    var srv := s.srv.(dropped := s.srv.dropped + 1);
    GivenUp(srv, srv.pc.f, srv.pc.k);
    hide AfterWrite;
  }

  lemma GivenUp(srv: Server, f: Frame, k: WriteFor)
    requires srv.pc == Writing(f, k)
    ensures var srv' := AfterWrite(srv, f, k, true); srv'.dropped == srv.dropped && srv'.pc != srv.pc
  {
  }

  /** And the client's SendMsg and the handler's RecvMsg return. */
  lemma RequestsReleased(s: Sys)
    ensures s.req.qpc.QWriting? && s.ctx.cli ==>
              exists step, s' :: Enabled(s, step) && s' == Apply(s, step) && s'.req == s.req.(qpc := QIdle)
    ensures s.req.rpc.RReading? && s.ctx.svr ==>
              exists step, s' :: Enabled(s, step) && s' == Apply(s, step)
                                 && s'.req == s.req.(rpc := RIdle, outs := s.req.outs + [ReqCancelled])
  {
    if s.req.qpc.QWriting? && s.ctx.cli {
      assert Enabled(s, ReqSeesCtx);
    }
    if s.req.rpc.RReading? && s.ctx.svr {
      assert Enabled(s, ServerSeesCtx);
    }
  }

  // ----- How much finish still has to do -----

  function Count(b: bool): nat { if b then 1 else 0 }

  /** Frames a live server still has to push before it can close the channel,
      given what is set so far. */
  ghost function StillToPush(srv: Server): nat {
    var trl := Count(|srv.trailers| > 0);
    var err := Count(srv.returned.Some? && srv.returned.value.Some?);
    match srv.pc
    case Idle =>
      if srv.finishing then 0
      else Count(srv.state == InHeaders && |srv.headers| > 0) + trl + err
    case Closing => 0
    case Writing(_, k) => 1 + StillToPushAfter(k, trl, err)
    case Wrote(_, k) => StillToPushAfter(k, trl, err)
  }

  ghost function StillToPushAfter(k: WriteFor, trl: nat, err: nat): nat {
    match k
    case ForMsgHeaders(m) => Count(m.Some?) + trl + err
    case FinTrailers => err
    case FinError => 0
    case _ => trl + err
  }

  /** The client already holds an error, so it never reads again, nobody cancels,
      and the server has more to push than the channel can hold. */
  ghost predicate Blocked(s: Sys) {
    && !s.ctx.cli
    && HoldsError(s.rcv.c)
    && StillToPush(s.srv) + |s.ch.buf| > CAPACITY
  }

  ghost predicate NoCancel(steps: seq<Step>) {
    forall i :: 0 <= i < |steps| ==> !steps[i].Cancel?
  }

  // ----- Blocked is for ever, unless someone cancels -----

  lemma BlockedStep(s: Sys, step: Step)
    requires Inv(s) && Blocked(s) && s.srv.returned.Some? && Enabled(s, step) && !step.Cancel?
    ensures Blocked(Apply(s, step))
  {
    assert !s.ch.closed && !s.ctx.svr;
    if LeavesServerAlone(step) {
      BlockedClient(s, step);
    } else {
      BlockedServer(s, step);
    }
  }

  lemma BlockedClient(s: Sys, step: Step)
    requires ViewInv(s) && Blocked(s) && Enabled(s, step) && !step.Cancel? && LeavesServerAlone(step)
    ensures Blocked(Apply(s, step))
  {
    hide StillToPush, WellFormed, HeadersOf, TrailersOf, ApplyRequest, TranslateContextError;
  }

  lemma JoinGrows(a: MD, b: MD)
    requires |a| > 0
    ensures |Join(a, b)| > 0
  {
    var k :| k in a;
    assert k in Join(a, b);
  }

  /** New calls only add to what has to be pushed. */
  lemma CallsAddPushes(srv: Server, md: MD, m: Option<Msg>)
    requires ServerOk(srv) && srv.pc.Idle?
    ensures StillToPush(SetHeader(srv, md)) >= StillToPush(srv)
    ensures StillToPush(SendHeader(srv, md)) >= StillToPush(srv)
    ensures StillToPush(SetTrailer(srv, md)) >= StillToPush(srv)
    ensures StillToPush(SendMsg(srv, false, m)) >= StillToPush(srv)
    ensures !srv.finishing ==> StillToPush(FinishFromHeaders(srv.(finishing := true))) >= StillToPush(srv)
  {
    SettersAddPushes(srv, md);
    SendsAddPushes(srv, m);
    hide ServerOk, StillToPush, SetHeader, SendHeader, SetTrailer, SendMsg, FinishFromHeaders;
  }

  lemma SettersAddPushes(srv: Server, md: MD)
    requires ServerOk(srv) && srv.pc.Idle?
    ensures StillToPush(SetHeader(srv, md)) >= StillToPush(srv)
    ensures StillToPush(SendHeader(srv, md)) >= StillToPush(srv)
    ensures StillToPush(SetTrailer(srv, md)) >= StillToPush(srv)
  {
    hide JoinAll, Join;
    if |srv.headers| > 0 { JoinGrows(srv.headers, md); }
    if |srv.trailers| > 0 { JoinGrows(srv.trailers, md); }
  }

  lemma SendsAddPushes(srv: Server, m: Option<Msg>)
    requires ServerOk(srv) && srv.pc.Idle?
    ensures StillToPush(SendMsg(srv, false, m)) >= StillToPush(srv)
    ensures !srv.finishing ==> StillToPush(FinishFromHeaders(srv.(finishing := true))) >= StillToPush(srv)
  {
    hide JoinAll;
  }

  /** A successful write leaves what comes after it to be pushed. */
  lemma CheckKeepsPushes(srv: Server)
    requires ServerOk(srv) && srv.pc.Wrote?
    ensures StillToPush(AfterWrite(srv, srv.pc.f, srv.pc.k, false)) == StillToPush(srv)
  {
    hide JoinAll;
  }

  lemma BlockedServer(s: Sys, step: Step)
    requires ChanInv(s) && ServerOk(s.srv) && (s.ch.closed <==> IsClosed(s.srv))
    requires Blocked(s) && s.srv.returned.Some? && Enabled(s, step) && !LeavesServerAlone(step)
    requires !s.ctx.svr && !s.ch.closed
    ensures Blocked(Apply(s, step))
  {
    if step.ServerPushes? || step.ServerCloses? {
      hide ServerOk;
    } else if step.ServerChecks? {
      CheckKeepsPushes(s.srv);
      hide ServerOk, StillToPush, AfterWrite;
    } else {
      BlockedCall(s, step);
    }
  }

  lemma BlockedCall(s: Sys, step: Step)
    requires Enabled(s, step) && ServerOk(s.srv) && Blocked(s) && !s.ctx.svr && s.srv.pc.Idle?
    requires step.CallSetHeader? || step.CallSendHeader? || step.CallSetTrailer? || step.CallSendMsg? || step.FinishLocks?
    ensures Blocked(Apply(s, step))
  {
    hide ServerOk, StillToPush, SetHeader, SendHeader, SetTrailer, SendMsg, FinishFromHeaders;
    match step
    case CallSetHeader(md) => CallsAddPushes(s.srv, md, None);
    case CallSendHeader(md) => CallsAddPushes(s.srv, md, None);
    case CallSetTrailer(md) => CallsAddPushes(s.srv, md, None);
    case CallSendMsg(m) => CallsAddPushes(s.srv, map[], m);
    case FinishLocks => CallsAddPushes(s.srv, map[], None);
  }

  lemma CallsKeepReturned(srv: Server, md: MD, m: Option<Msg>, ctxDone: bool)
    ensures SetHeader(srv, md).returned == SendHeader(srv, md).returned == SetTrailer(srv, md).returned
         == SendMsg(srv, ctxDone, m).returned == FinishFromHeaders(srv).returned == srv.returned
  {
    hide Join;
    SendsKeepReturned(srv, m, ctxDone);
    hide SendMsg, FinishFromHeaders;
  }

  lemma SendsKeepReturned(srv: Server, m: Option<Msg>, ctxDone: bool)
    ensures SendMsg(srv, ctxDone, m).returned == FinishFromHeaders(srv).returned == srv.returned
  {
    FinishKeepsReturned(srv);
    hide FinishFromTrailers, FinishFromError;
  }

  lemma FinishKeepsReturned(srv: Server)
    ensures FinishFromTrailers(srv).returned == FinishFromError(srv).returned == srv.returned
  {
  }

  lemma WritesKeepReturned(srv: Server, f: Frame, k: WriteFor, failed: bool)
    ensures AfterWrite(srv, f, k, failed).returned == srv.returned
  {
  }

  lemma ReturnedStays(s: Sys, step: Step)
    requires Enabled(s, step) && s.srv.returned.Some?
    ensures Apply(s, step).srv.returned == s.srv.returned
  {
    hide SetHeader, SendHeader, SetTrailer, SendMsg, FinishFromHeaders, AfterWrite, Resume, CheckTaken,
         ApplyRequest;
    match step
    case CallSetHeader(md) => CallsKeepReturned(s.srv, md, None, false);
    case CallSendHeader(md) => CallsKeepReturned(s.srv, md, None, false);
    case CallSetTrailer(md) => CallsKeepReturned(s.srv, md, None, false);
    case CallSendMsg(m) => CallsKeepReturned(s.srv, map[], m, s.ctx.svr);
    case FinishLocks => CallsKeepReturned(s.srv.(finishing := true), map[], None, false);
    case ServerChecks => WritesKeepReturned(s.srv, s.srv.pc.f, s.srv.pc.k, s.ctx.svr);
    case ServerGivesUp =>
      WritesKeepReturned(s.srv.(dropped := s.srv.dropped + 1), s.srv.pc.f, s.srv.pc.k, true);
    case _ =>
  }

  lemma BlockedIsOpen(s: Sys)
    requires Inv(s) && Blocked(s)
    ensures !s.ch.closed
  {
  }

  lemma {:induction false} BlockedForever(s: Sys, steps: seq<Step>, s': Sys)
    requires Inv(s) && Blocked(s) && s.srv.returned.Some? && IsRun(s, steps, s') && NoCancel(steps)
    ensures Blocked(s') && !s'.ch.closed
    decreases |steps|
  {
    hide Inv, Blocked, Apply, Enabled;
    BlockedIsOpen(s);
    if steps != [] {
      InvStep(s, steps[0]);
      BlockedStep(s, steps[0]);
      ReturnedStays(s, steps[0]);
      BlockedForever(Apply(s, steps[0]), steps[1..], s');
    }
  }

  // ----- Otherwise finish can be brought to its end in a bounded number of steps -----

  /** How far the server is from closing the channel, write by write. */
  ghost function Stage(srv: Server): nat {
    match srv.pc
    case Closing => 2
    case Idle => if srv.finishing then 0 else 9
    case Writing(_, k) => StageOf(k) + 1
    case Wrote(_, k) => StageOf(k)
  }

  ghost function StageOf(k: WriteFor): nat {
    match k
    case ForMsgHeaders(_) => 12
    case ForSendHeader => 10
    case ForMsg => 10
    case FinHeaders => 7
    case FinTrailers => 5
    case FinError => 3
  }

  /** How far the client is from taking the next frame. */
  ghost function Phase(r: Receiver): nat {
    match r.pc
    case CReading(_) => 0
    case CIdle => if r.c.last.Some? then 2 else 1
    case CTaken(_, _) => 3
  }

  /** What is left to do: the server's writes, the frame in the channel, the client's
      way to it as long as it is live, and the way of a cancellation to the server. */
  ghost function Work(s: Sys): nat {
    5 * (2 * Stage(s.srv) + |s.ch.buf|) + (if s.ctx.cli then 0 else Phase(s.rcv)) + Count(!s.ctx.svr)
  }

  /** The step that moves the call towards its end: the server's own if it has
      one, else propagation of a cancellation, else the client's receive. */
  ghost function NextStep(s: Sys): Step {
    if s.srv.pc.Closing? then ServerCloses
    else if s.srv.pc.Wrote? then ServerChecks
    else if s.srv.pc.Idle? then FinishLocks
    else if |s.ch.buf| < CAPACITY then ServerPushes
    else if s.ctx.svr then ServerGivesUp
    else if s.ctx.cli then ReachServer
    else if s.rcv.pc.CReading? then ClientTakes
    else if s.rcv.pc.CTaken? then ClientChecks
    else Step.CallRecv
  }

  /** The handler has returned and finish is not over. */
  ghost predicate Finishing(s: Sys) {
    s.srv.returned.Some? && !s.ch.closed
  }

  lemma AfterWriteAdvances(srv: Server, f: Frame, k: WriteFor, failed: bool)
    requires !k.ForSendHeader? && !k.ForMsg? && !k.ForMsgHeaders? ==> srv.finishing
    requires k.ForSendHeader? || k.ForMsg? || k.ForMsgHeaders? ==> !srv.finishing
    ensures Stage(AfterWrite(srv, f, k, failed)) < StageOf(k)
  {
  }

  lemma FinishAdvances(srv: Server)
    requires srv.pc.Idle? && !srv.finishing
    ensures Stage(FinishFromHeaders(srv.(finishing := true))) < Stage(srv)
  {
  }

  /** The steps by which finish takes the lock, writes and closes; before that, those
      of a call that still holds the lock. */
  predicate ServerStep(step: Step) {
    step.FinishLocks? || step.ServerPushes? || step.ServerGivesUp? || step.ServerChecks? || step.ServerCloses?
  }

  lemma ServerLowersStage(s: Sys, step: Step)
    requires Enabled(s, step) && ServerStep(step)
    requires ServerOk(s.srv) && (s.ch.closed <==> IsClosed(s.srv)) && Finishing(s)
    ensures var s' := Apply(s, step);
            && s'.rcv == s.rcv && s'.ctx == s.ctx && Stage(s'.srv) < Stage(s.srv) && |s'.ch.buf| <= |s.ch.buf| + 1
  {
    hide JoinAll, AfterWrite, FinishFromHeaders, Push;
    if step.FinishLocks? {
      FinishAdvances(s.srv);
    } else if step.ServerGivesUp? {
      WriteEnds(s.srv.(dropped := s.srv.dropped + 1), s.srv.pc.f, s.srv.pc.k, true);
      hide ServerOk;
    } else if step.ServerChecks? {
      WriteEnds(s.srv, s.srv.pc.f, s.srv.pc.k, s.ctx.svr);
      hide ServerOk;
    } else {
      PushGrows(s.ch, if s.srv.pc.Writing? then s.srv.pc.f else Data(""));
      hide ServerOk;
    }
  }

  lemma WriteEnds(srv: Server, f: Frame, k: WriteFor, failed: bool)
    requires srv.pc == Writing(f, k) || srv.pc == Wrote(f, k)
    requires PcOk(srv, f, k)
    ensures Stage(AfterWrite(srv, f, k, failed)) < Stage(srv)
  {
    AfterWriteAdvances(srv, f, k, failed);
    hide AfterWrite;
  }

  lemma PushGrows(ch: Chan, f: Frame)
    ensures |Push(ch, f).buf| <= |ch.buf| + 1
  {
  }

  lemma ServerAdvances(s: Sys)
    requires ServerOk(s.srv) && (s.ch.closed <==> IsClosed(s.srv)) && Finishing(s) && ServerStep(NextStep(s))
    ensures Enabled(s, NextStep(s)) && Work(Apply(s, NextStep(s))) < Work(s)
  {
    assert Enabled(s, NextStep(s)) by {
      hide JoinAll;
    }
    ServerLowersStage(s, NextStep(s));
    hide Apply, Enabled, NextStep, ServerOk, Stage, Phase;
  }

  /** A live client that holds an error is not what finish waits for. */
  lemma HoldingIsDone(s: Sys)
    requires !Blocked(s) && HoldsError(s.rcv.c) && !s.ctx.cli && s.srv.pc.Writing?
    ensures |s.ch.buf| < CAPACITY
  {
    hide StillToPush;
    assert StillToPush(s.srv) > 0 by {
      WritingPushes(s.srv);
    }
  }

  lemma WritingPushes(srv: Server)
    requires srv.pc.Writing?
    ensures StillToPush(srv) > 0
  {
  }

  ghost predicate ClientStep(step: Step) {
    step.CallHeader? || step.CallRecv? || step.ClientTakes? || step.ClientSeesCtx? || step.ClientChecks?
  }

  /** The client's receive, as long as it can still find something. */
  ghost predicate TakesNext(s: Sys, step: Step) {
    step.ClientTakes? || (!s.ctx.cli && (step.ClientChecks? || (step.CallRecv? && !HoldsError(s.rcv.c))))
  }

  lemma ClientLowers(s: Sys, step: Step)
    requires ViewInv(s) && Enabled(s, step) && ClientStep(step) && !s.ch.closed
    ensures Work(Apply(s, step)) <= Work(s)
    ensures TakesNext(s, step) ==> Work(Apply(s, step)) < Work(s)
  {
    if step.ClientTakes? {
      TakeLowers(s);
    } else {
      CallLowers(s, step);
    }
    hide Apply, Enabled, ViewInv, Work, HoldsError;
  }

  lemma TakeLowers(s: Sys)
    requires Enabled(s, ClientTakes) && !s.ch.closed
    ensures Work(Apply(s, ClientTakes)) < Work(s)
  {
    hide Stage;
  }

  lemma CallLowers(s: Sys, step: Step)
    requires Enabled(s, step) && ClientStep(step) && !step.ClientTakes? && ViewInv(s)
    ensures Work(Apply(s, step)) <= Work(s)
    ensures TakesNext(s, step) ==> Work(Apply(s, step)) < Work(s)
  {
    hide ViewInv, Apply, Enabled, Work, HoldsError;
    if step.CallHeader? || step.CallRecv? {
      StartLowers(s, step);
    } else {
      LookLowers(s, step);
    }
  }

  lemma StartLowers(s: Sys, step: Step)
    requires Enabled(s, step) && (step.CallHeader? || step.CallRecv?) && ViewInv(s)
    ensures Work(Apply(s, step)) <= Work(s)
    ensures TakesNext(s, step) ==> Work(Apply(s, step)) < Work(s)
  {
    ReceiverAdvances(s);
    HeaderAdvances(s);
    hide ViewInv, Stage, Phase, Resume, BeginRecv, BeginHeader, HoldsError;
  }

  lemma LookLowers(s: Sys, step: Step)
    requires Enabled(s, step) && (step.ClientSeesCtx? || step.ClientChecks?) && ViewInv(s)
    ensures Work(Apply(s, step)) <= Work(s)
    ensures TakesNext(s, step) ==> Work(Apply(s, step)) < Work(s)
  {
    ReceiverAdvances(s);
    hide ViewInv, Stage, Phase, CheckTaken, Resume, OnItem;
  }

  lemma HeaderAdvances(s: Sys)
    requires ViewInv(s)
    ensures s.rcv.pc.CIdle? ==> Phase(Resume(s.rcv, BeginHeader(s.rcv.c))) <= Phase(s.rcv)
    ensures s.rcv.pc.CIdle? ==> Phase(Resume(s.rcv, BeginRecv(s.rcv.c, s.unary))) <= Phase(s.rcv)
  {
    hide WellFormed, HeadersOf, TrailersOf, TranslateContextError, Drained;
  }

  /** Cancellations and the request direction leave the server's writes and the
      client's receive alone. */
  lemma OthersKeep(s: Sys, step: Step)
    requires Enabled(s, step) && !ServerStep(step) && !ClientStep(step) && Finishing(s)
    requires !step.CallSetHeader? && !step.CallSendHeader? && !step.CallSetTrailer? && !step.CallSendMsg?
    ensures var s' := Apply(s, step);
            && s'.srv == s.srv && s'.ch == s.ch && s'.rcv == s.rcv && Work(s') <= Work(s)
            && (step.ReachServer? && !s.ctx.svr ==> Work(s') < Work(s))
  {
    hide Stage, Phase, ApplyRequest;
  }

  lemma ClientAdvances(s: Sys)
    requires ViewInv(s) && Finishing(s) && !ServerStep(NextStep(s))
    requires HoldsError(s.rcv.c) && !s.ctx.cli && s.srv.pc.Writing? ==> |s.ch.buf| < CAPACITY
    ensures Enabled(s, NextStep(s)) && Work(Apply(s, NextStep(s))) < Work(s)
  {
    var step := NextStep(s);
    assert Enabled(s, step);
    assert step.ReachServer? || TakesNext(s, step);
    hide ViewInv, Apply, Work;
    if step.ReachServer? {
      OthersKeep(s, step);
    } else {
      ClientLowers(s, step);
    }
  }

  lemma ReceiverAdvances(s: Sys)
    requires ViewInv(s)
    ensures s.rcv.pc.CTaken? ==> Phase(CheckTaken(s.rcv, s.ctx.cli, s.unary)) < Phase(s.rcv)
    ensures s.rcv.pc.CIdle? && !HoldsError(s.rcv.c) ==>
              Phase(Resume(s.rcv, BeginRecv(s.rcv.c, s.unary))) < Phase(s.rcv)
  {
    hide WellFormed, HeadersOf, TrailersOf, TranslateContextError, Drained;
  }

  lemma StreamingNeverBlocked(s: Sys)
    requires Inv(s) && !s.unary
    ensures !Blocked(s)
  {
    hide JoinAll, WholeTranscript, SendInv, OutsInv, MessagesInv, ReqInv;
    if HoldsError(s.rcv.c) {
      var r := Some(s.rcv.c.last.value.err);
      assert Delivered(s, r);
      DeliveredPushesNothing(s, r);
    }
  }

  lemma DeliveredPushesNothing(s: Sys, r: Option<Err>)
    requires Inv(s) && Delivered(s, r)
    ensures StillToPush(s.srv) + |s.ch.buf| <= CAPACITY
  {
  }

  /** A live server's own steps neither create nor lose work. */
  lemma ServerConservesPushes(s: Sys, step: Step)
    requires ServerOk(s.srv) && Finishing(s) && !s.ctx.svr && (s.ch.closed <==> IsClosed(s.srv))
    requires Enabled(s, step) && ServerStep(step) && !step.ServerGivesUp?
    ensures var s' := Apply(s, step);
            StillToPush(s'.srv) + |s'.ch.buf| == StillToPush(s.srv) + |s.ch.buf|
  {
    hide JoinAll;
    if s.srv.pc.Wrote? {
      CheckKeepsPushes(s.srv);
      hide AfterWrite, StillToPush;
    }
  }

  /** Nothing removes an error the client holds, nor undoes a cancellation. */
  lemma HeldErrorStays(s: Sys, step: Step)
    requires ViewInv(s) && Enabled(s, step)
    ensures var s' := Apply(s, step);
            (HoldsError(s.rcv.c) ==> HoldsError(s'.rcv.c)) && (s.ctx.cli ==> s'.ctx.cli)
  {
    hide WellFormed, HeadersOf, TrailersOf, SetHeader, SendHeader, SetTrailer, SendMsg, FinishFromHeaders,
         AfterWrite, ApplyRequest, Drained, TranslateContextError;
  }
}
