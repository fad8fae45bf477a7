/** When a server can still come to write its headers a second time. */
module InProcRepeats {
  import opened Prelude
  import opened Metadata
  import opened InProcFrames
  import opened InProcClient
  import opened InProcStream
  import opened InProcSafety
  import opened InProcReceive
  import opened InProcRequests
  import opened InProcTheorems
  import opened InProcWritten
  import opened InProcWitnesses

  /** Headers are not on record as sent: no call has booked them, and a call that is
      writing them may yet fail. */
  predicate HeadersOpen(srv: Server) {
    match srv.pc
    case Idle => srv.state == InHeaders && !srv.finishing
    case Writing(_, k) => k.ForSendHeader? || k.ForMsgHeaders?
    case Wrote(_, k) => k.ForSendHeader? || k.ForMsgHeaders?
    case Closing => false
  }

  /** Headers were written twice, or can be: they are not on record as sent, or finish
      is about to write them once more. */
  predicate MayRepeat(s: Sys) {
    || HeaderCount(s.ch.written) > 1
    || HeadersOpen(s.srv)
    || (HeaderCount(s.ch.written) == 1 && s.srv.pc.Writing? && s.srv.pc.k.FinHeaders?)
  }

  // ----- Nothing makes it possible again -----

  lemma CallsOpenNothing(srv: Server, md: MD, m: Option<Msg>, ctxDone: bool)
    requires ServerOk(srv) && srv.pc.Idle? && !HeadersOpen(srv)
    ensures !HeadersOpen(SetHeader(srv, md)) && !HeadersOpen(SendHeader(srv, md)) && !HeadersOpen(SetTrailer(srv, md))
    ensures !HeadersOpen(SendMsg(srv, ctxDone, m))
    ensures SetHeader(srv, md).pc == SetTrailer(srv, md).pc == SendHeader(srv, md).pc == Idle
    ensures var pc := SendMsg(srv, ctxDone, m).pc; pc.Writing? ==> pc.k.ForMsg?
    ensures !srv.finishing ==>
              var srv' := FinishFromHeaders(srv.(finishing := true));
              !HeadersOpen(srv') && (srv'.pc.Writing? ==> !srv'.pc.k.FinHeaders?)
  {
    hide JoinAll, Join;
  }

  lemma CallRepeats(s: Sys, step: Step)
    requires ServerOk(s.srv) && Enabled(s, step) && s.srv.pc.Idle? && !MayRepeat(s)
    requires step.CallSetHeader? || step.CallSendHeader? || step.CallSetTrailer? || step.CallSendMsg? || step.FinishLocks?
    ensures !MayRepeat(Apply(s, step))
  {
    hide ServerOk, HeadersOpen, HeaderCount, SetHeader, SendHeader, SetTrailer, SendMsg, FinishFromHeaders;
    match step
    case CallSetHeader(md) => CallsOpenNothing(s.srv, md, None, false);
    case CallSendHeader(md) => CallsOpenNothing(s.srv, md, None, false);
    case CallSetTrailer(md) => CallsOpenNothing(s.srv, md, None, false);
    case CallSendMsg(m) => CallsOpenNothing(s.srv, map[], m, s.ctx.svr);
    case FinishLocks => CallsOpenNothing(s.srv, map[], None, false);
  }

  lemma LastHeaders(srv: Server)
    requires ServerOk(srv) && srv.pc.Writing? && !HeadersOpen(srv)
    ensures srv.pc.f.Headers? ==> srv.pc.k.FinHeaders?
    ensures !HeadersOpen(srv.(pc := Wrote(srv.pc.f, srv.pc.k)))
  {
    hide JoinAll;
  }

  lemma PushCounts(ch: Chan, f: Frame)
    ensures HeaderCount(Push(ch, f).written) <= HeaderCount(ch.written) + (if f.Headers? then 1 else 0)
  {
    HeaderCountMore(ch.written, f);
    hide HeaderCount;
  }

  lemma PushRepeats(s: Sys)
    requires ServerOk(s.srv) && Enabled(s, ServerPushes) && !MayRepeat(s)
    ensures !MayRepeat(Apply(s, ServerPushes))
  {
    LastHeaders(s.srv);
    PushCounts(s.ch, s.srv.pc.f);
    hide HeaderCount, ServerOk, HeadersOpen, Push;
  }

  lemma AfterWriteRepeats(srv: Server, f: Frame, k: WriteFor, failed: bool)
    requires ServerOk(srv) && (srv.pc == Writing(f, k) || srv.pc == Wrote(f, k)) && !HeadersOpen(srv)
    ensures var srv' := AfterWrite(srv, f, k, failed);
            !HeadersOpen(srv') && (srv'.pc.Writing? ==> !srv'.pc.k.FinHeaders?)
  {
    hide JoinAll;
  }

  lemma WriteOverRepeats(s: Sys, step: Step)
    requires ServerOk(s.srv) && Enabled(s, step) && (step.ServerGivesUp? || step.ServerChecks?) && !MayRepeat(s)
    ensures !MayRepeat(Apply(s, step))
  {
    if step.ServerGivesUp? {
      var dropped := s.srv.(dropped := s.srv.dropped + 1);
      DroppedIrrelevant(s.srv);
      hide ServerOk, AfterWrite, HeaderCount;
      AfterWriteRepeats(dropped, s.srv.pc.f, s.srv.pc.k, true);
    } else {
      hide AfterWrite, ServerOk, HeaderCount;
      AfterWriteRepeats(s.srv, s.srv.pc.f, s.srv.pc.k, s.ctx.svr);
    }
  }

  lemma OtherRepeats(s: Sys, step: Step)
    requires ServerOk(s.srv) && Enabled(s, step) && !ServerMoves(step) && !MayRepeat(s)
    ensures !MayRepeat(Apply(s, step))
  {
    hide ServerOk, HeaderCount, ApplyRequest, Resume, CheckTaken;
  }

  /** Steps that change what the server stream is doing. */
  predicate ServerMoves(step: Step) {
    || step.ServerPushes? || step.ServerGivesUp? || step.ServerChecks?
    || step.CallSetHeader? || step.CallSendHeader? || step.CallSetTrailer? || step.CallSendMsg? || step.FinishLocks?
  }

  /** Once headers cannot be written twice any more, they never can. */
  lemma RepeatStep(s: Sys, step: Step)
    requires SendInv(s) && Enabled(s, step) && !MayRepeat(s)
    ensures !MayRepeat(Apply(s, step))
  {
    assert ServerOk(s.srv);
    assert step.CallSetHeader? || step.CallSendHeader? || step.CallSetTrailer? || step.CallSendMsg? || step.FinishLocks?
           ==> s.srv.pc.Idle?;
    hide SendInv, ServerOk, MayRepeat, Enabled, Apply;
    if step.ServerPushes? {
      PushRepeats(s);
    } else if step.ServerGivesUp? || step.ServerChecks? {
      WriteOverRepeats(s, step);
    } else if ServerMoves(step) {
      CallRepeats(s, step);
    } else {
      OtherRepeats(s, step);
    }
  }

  // ----- A run that writes them twice -----

  /** A frame a client holds was read. */
  ghost predicate HandInv(s: Sys) {
    s.rcv.pc.CTaken? && s.rcv.pc.item.Arrived? ==> s.ch.read != []
  }

  lemma HandStep(s: Sys, step: Step)
    requires HandInv(s) && Enabled(s, step)
    ensures HandInv(Apply(s, step))
  {
    hide SetHeader, SendHeader, SetTrailer, SendMsg, AfterWrite, FinishFromHeaders, ApplyRequest,
         BeginRecv, BeginHeader, OnItem;
  }

  ghost predicate Ready(s: Sys) {
    Inv(s) && WrittenInv(s) && HandInv(s)
  }

  lemma ReadyStep(s: Sys, step: Step)
    requires Ready(s) && Enabled(s, step)
    ensures Ready(Apply(s, step))
  {
    assert SendInv(s);
    hide SendInv, TakenInv, ViewInv, OutsInv, MessagesInv, EndInv, ReqInv, WrittenInv, HandInv, Apply, Enabled;
    InvStep(s, step);
    WrittenStep(s, step);
    HandStep(s, step);
  }

  lemma {:induction false} ReadyReachable(s: Sys, steps: seq<Step>, s': Sys)
    requires Ready(s) && IsRun(s, steps, s')
    ensures Ready(s') && (!MayRepeat(s) ==> !MayRepeat(s'))
    decreases |steps|
  {
    assert SendInv(s);
    hide Inv, WrittenInv, HandInv, MayRepeat, Apply, Enabled;
    if steps != [] {
      ReadyStep(s, steps[0]);
      if !MayRepeat(s) {
        RepeatStep(s, steps[0]);
      }
      ReadyReachable(Apply(s, steps[0]), steps[1..], s');
    }
  }

  /** One more step of a run. */
  lemma Go(s: Sys, steps: seq<Step>, mid: Sys, step: Step) returns (steps': seq<Step>, s': Sys)
    requires IsRun(s, steps, mid) && Ready(mid) && Enabled(mid, step)
    ensures s' == Apply(mid, step) && IsRun(s, steps', s') && Ready(s')
  {
    hide IsRun, Ready, Apply, Enabled;
    ReadyStep(mid, step);
    Extend(s, steps, mid, step);
    steps', s' := steps + [step], Apply(mid, step);
  }

  lemma {:induction false} AllHeaders(fs: seq<Frame>)
    requires forall f :: f in fs ==> f.Headers?
    ensures HeaderCount(fs) == |fs|
  {
    if fs != [] {
      AllHeaders(fs[..|fs| - 1]);
    }
  }

  /** As long as headers are being written, nothing else was. */
  lemma OnlyHeaders(s: Sys)
    requires SendInv(s) && WrittenInv(s) && s.srv.pc.Writing? && s.srv.pc.f.Headers?
    ensures |s.ch.written| == HeaderCount(s.ch.written) && !s.ch.closed
  {
    assert s.srv.pc.k.ForSendHeader? || s.srv.pc.k.ForMsgHeaders? || s.srv.pc.k.FinHeaders?;
    assert forall f :: f in s.ch.written ==> Rank(f) == 0;
    AllHeaders(s.ch.written);
    hide HeaderCount;
  }

  /** A client that has accepted nothing and found no end is reading, or can start to. */
  lemma CanRead(s: Sys)
    requires Ready(s) && s.ch.read == [] && !s.ch.closed
    ensures s.rcv.pc.CIdle? ==> Apply(s, Step.CallRecv).rcv.pc.CReading?
    ensures !s.rcv.pc.CTaken?
  {
    hide SendInv, OutsInv, MessagesInv, EndInv, ReqInv, WrittenInv, WellFormed, HeadersOf, TrailersOf;
    assert s.rcv.accepted == [];
  }

  lemma TakeFrame(s: Sys) returns (steps: seq<Step>, s': Sys)
    requires Ready(s) && |s.ch.buf| == 1 && !s.ch.closed
    requires s.rcv.pc.CReading? || (s.rcv.pc.CIdle? && Apply(s, Step.CallRecv).rcv.pc.CReading?)
    ensures IsRun(s, steps, s') && Ready(s')
    ensures s'.srv == s.srv && s'.ch.written == s.ch.written && s'.ch.buf == [] && !s'.ch.closed
  {
    steps, s' := [], s;
    assert IsRun(s, steps, s');
    hide Ready, IsRun, Resume, BeginRecv;
    if s.rcv.pc.CIdle? {
      steps, s' := Go(s, steps, s', Step.CallRecv);
    }
    steps, s' := Go(s, steps, s', ClientTakes);
  }

  /** The client takes what is in the way of one more headers frame. */
  lemma MakeRoom(s: Sys) returns (steps: seq<Step>, s': Sys)
    requires Ready(s) && s.srv.pc.Writing? && s.srv.pc.f.Headers? && HeaderCount(s.ch.written) <= 1
    ensures IsRun(s, steps, s') && Ready(s')
    ensures s'.srv == s.srv && s'.ch.written == s.ch.written && s'.ch.buf == [] && !s'.ch.closed
  {
    OnlyHeaders(s);
    assert s.ch.written == s.ch.read + s.ch.buf;
    if s.ch.buf == [] {
      hide *;
      steps, s' := [], s;
      EmptyRun(s);
    } else {
      CanRead(s);
      assert !s.rcv.pc.CIdle? ==> s.rcv.pc.CReading?;
      hide *;
      steps, s' := TakeFrame(s);
    }
  }

  lemma EmptyRun(s: Sys)
    ensures IsRun(s, [], s)
  {
  }

  lemma CanPush(s: Sys)
    requires s.srv.pc.Writing? && s.ch.buf == [] && !s.ch.closed
    ensures Enabled(s, ServerPushes)
    ensures var s', f := Apply(s, ServerPushes), s.srv.pc.f;
            s'.srv == s.srv.(pc := Wrote(f, s.srv.pc.k)) && s'.ch.written == s.ch.written + [f]
  {
  }

  /** One more headers frame goes out. */
  lemma WriteOnce(s: Sys) returns (steps: seq<Step>, s': Sys)
    requires Ready(s) && s.srv.pc.Writing? && s.srv.pc.f.Headers? && HeaderCount(s.ch.written) <= 1
    ensures IsRun(s, steps, s') && Ready(s')
    ensures HeaderCount(s'.ch.written) == HeaderCount(s.ch.written) + 1
    ensures s'.srv == s.srv.(pc := Wrote(s.srv.pc.f, s.srv.pc.k))
  {
    HeaderCountMore(s.ch.written, s.srv.pc.f);
    hide *;
    steps, s' := MakeRoom(s);
    CanPush(s');
    steps, s' := Go(s, steps, s', ServerPushes);
  }

  lemma FailureReopens(srv: Server)
    requires ServerOk(srv) && srv.pc.Wrote? && HeadersOpen(srv)
    ensures var srv' := AfterWrite(srv, srv.pc.f, srv.pc.k, true);
            srv'.pc.Idle? && HeadersOpen(srv')
  {
    hide JoinAll;
  }

  lemma CancelReaches(s: Sys)
    ensures Enabled(s, Cancel) && Apply(s, Cancel) == s.(ctx := s.ctx.(cli := true))
    ensures var s' := s.(ctx := s.ctx.(cli := true));
            Enabled(s', ReachServer) && Apply(s', ReachServer) == s.(ctx := s.ctx.(cli := true, svr := true))
    ensures var s' := s.(ctx := s.ctx.(cli := true, svr := true));
            s.srv.pc.Wrote? ==>
              && Enabled(s', ServerChecks)
              && Apply(s', ServerChecks) == s'.(srv := AfterWrite(s.srv, s.srv.pc.f, s.srv.pc.k, true))
  {
    hide AfterWrite;
  }

  /** A call that wrote headers reports a cancellation after all. */
  lemma CallFails(s: Sys) returns (steps: seq<Step>, s': Sys)
    requires Ready(s) && s.srv.pc.Wrote? && HeadersOpen(s.srv)
    ensures IsRun(s, steps, s') && Ready(s') && s'.ch.written == s.ch.written
    ensures s'.srv.pc.Idle? && HeadersOpen(s'.srv)
  {
    assert ServerOk(s.srv);
    FailureReopens(s.srv);
    EmptyRun(s);
    CancelReaches(s);
    hide *;
    steps, s' := Go(s, [], s, Cancel);
    steps, s' := Go(s, steps, s', ReachServer);
    steps, s' := Go(s, steps, s', ServerChecks);
  }

  /** A call that sends headers, some of which are set. */
  lemma StartHeaders(s: Sys)
    requires s.srv.pc.Idle? && HeadersOpen(s.srv)
    ensures Enabled(s, CallSendHeader(HDR))
    ensures var s' := Apply(s, CallSendHeader(HDR));
            && s'.ch == s.ch && s'.srv.pc.Writing? && s'.srv.pc.f.Headers? && s'.srv.pc.k.ForSendHeader?
  {
    var md := Join(s.srv.headers, HDR);
    hide Join;
    JoinHas(s.srv.headers, HDR, "k");
    assert "k" in md;
  }

  lemma JoinHas(a: MD, b: MD, k: string)
    requires k in b
    ensures k in Join(a, b)
  {
  }

  /** As long as headers are not on record as sent, they can be written once more. */
  lemma AgainFromOpen(s: Sys) returns (steps: seq<Step>, s': Sys)
    requires Ready(s) && HeadersOpen(s.srv) && HeaderCount(s.ch.written) <= 1
    ensures IsRun(s, steps, s') && Ready(s')
    ensures HeaderCount(s'.ch.written) == HeaderCount(s.ch.written) + 1 && HeadersOpen(s'.srv)
  {
    EmptyRun(s);
    steps, s' := [], s;
    if s.srv.pc.Wrote? {
      steps, s' := CallFails(s);
    }
    if s'.srv.pc.Idle? {
      StartHeaders(s');
      hide Ready, IsRun, HeaderCount, Apply, Enabled;
      steps, s' := Go(s, steps, s', CallSendHeader(HDR));
    } else {
      assert s'.srv.pc.f.Headers? by {
        assert ServerOk(s'.srv);
      }
    }
    hide Ready, IsRun, HeaderCount;
    var more, s2 := WriteOnce(s');
    steps, s' := Joined(s, steps, s', more, s2);
  }

  lemma {:induction false} Joined(s: Sys, steps: seq<Step>, mid: Sys, more: seq<Step>, s': Sys)
    returns (all: seq<Step>, end: Sys)
    requires IsRun(s, steps, mid) && IsRun(mid, more, s')
    ensures end == s' && IsRun(s, all, end)
    decreases |more|
  {
    hide Apply, Enabled;
    if more == [] {
      all, end := steps, mid;
    } else {
      Extend(s, steps, mid, more[0]);
      all, end := Joined(s, steps + [more[0]], Apply(mid, more[0]), more[1..], s');
    }
  }

  lemma Twice(s: Sys) returns (steps: seq<Step>, s': Sys)
    requires Ready(s) && MayRepeat(s)
    ensures IsRun(s, steps, s') && HeaderCount(s'.ch.written) > 1
  {
    EmptyRun(s);
    steps, s' := [], s;
    if HeaderCount(s.ch.written) <= 1 {
      if !HeadersOpen(s.srv) {
        assert s.srv.pc.f.Headers? by {
          assert ServerOk(s.srv);
        }
        hide Ready, IsRun, HeaderCount;
        steps, s' := WriteOnce(s);
      } else {
        hide Ready, IsRun, HeaderCount, HeadersOpen;
        steps, s' := AgainFromOpen(s);
        if HeaderCount(s'.ch.written) <= 1 {
          var more, s2 := AgainFromOpen(s');
          steps, s' := Joined(s, steps, s', more, s2);
        }
      }
    }
  }

  /** When headers can be written twice. From any point of any run, some continuation
      has written them more than once if and only if they were already, or no call
      has put them on record as sent, or finish is about to write them after a call
      that did but reported an error. */
  lemma RepeatsExactlyWhen(unary: bool, before: seq<Step>, s: Sys)
    requires IsRun(Init(unary), before, s)
    ensures (exists steps, s' :: IsRun(s, steps, s') && HeaderCount(s'.ch.written) > 1) <==> MayRepeat(s)
  {
    InitInv(unary);
    ReadyReachable(Init(unary), before, s);
    hide Ready, IsRun, HeaderCount, HeadersOpen;
    if MayRepeat(s) {
      var steps, s' := Twice(s);
    } else {
      forall steps, s' | IsRun(s, steps, s') ensures HeaderCount(s'.ch.written) <= 1 {
        ReadyReachable(s, steps, s');
      }
    }
  }

  /** In particular between two calls, headers having gone out once: if and only if
      they are not on record as sent and the call is not over. */
  lemma RepeatsBetweenCalls(unary: bool, before: seq<Step>, s: Sys)
    requires IsRun(Init(unary), before, s)
    requires s.srv.pc.Idle? && HeaderCount(s.ch.written) == 1
    ensures (exists steps, s' :: IsRun(s, steps, s') && HeaderCount(s'.ch.written) > 1)
       <==> s.srv.state == InHeaders && !s.srv.finishing
  {
    RepeatsExactlyWhen(unary, before, s);
  }
}
