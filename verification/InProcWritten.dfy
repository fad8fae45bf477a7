/** The frames a server writes, in runs with or without a cancellation. */
module InProcWritten {
  import opened Prelude
  import opened Metadata
  import opened InProcFrames
  import opened InProcClient
  import opened InProcStream
  import opened InProcSafety
  import opened InProcReceive
  import opened InProcRequests
  import opened InProcTheorems

  /** A prefix of headers* data* trailers? error?. */
  ghost predicate WellWritten(fs: seq<Frame>) {
    forall i, j :: 0 <= i < j < |fs| ==>
                     Rank(fs[i]) < Rank(fs[j]) || (fs[i].Data? && fs[j].Data?) || (fs[i].Headers? && fs[j].Headers?)
  }

  /** Frames with every headers frame dropped that follows another. */
  function DropRepeats(fs: seq<Frame>): (r: seq<Frame>)
    ensures forall f :: f in r ==> f in fs
  {
    if fs == [] then []
    else
      var n := |fs| - 1;
      DropRepeats(fs[..n])
      + (if fs[n].Headers? && n > 0 && fs[n - 1].Headers? then [] else [fs[n]])
  }

  function HeaderCount(fs: seq<Frame>): nat {
    if fs == [] then 0
    else
      var n := |fs| - 1;
      HeaderCount(fs[..n]) + (if fs[n].Headers? then 1 else 0)
  }

  lemma HeaderCountMore(fs: seq<Frame>, f: Frame)
    ensures HeaderCount(fs + [f]) == HeaderCount(fs) + (if f.Headers? then 1 else 0)
  {
    assert (fs + [f])[..|fs|] == fs;
  }

  lemma {:induction false} NoHeaderCount(fs: seq<Frame>)
    ensures HeaderCount(fs) == 0 <==> forall f :: f in fs ==> !f.Headers?
  {
    if fs != [] {
      var n := |fs| - 1;
      NoHeaderCount(fs[..n]);
      assert fs == fs[..n] + [fs[n]];
    }
  }

  /** Once repeated headers are dropped, the grammar holds. */
  lemma {:induction false} DroppedIsWellFormed(fs: seq<Frame>)
    requires WellWritten(fs)
    ensures WellFormed(DropRepeats(fs))
    ensures fs != [] && fs[0].Headers? ==> DropRepeats(fs) != [] && DropRepeats(fs)[0] == fs[0]
  {
    if fs != [] {
      var n := |fs| - 1;
      var front, r := fs[..n], DropRepeats(fs[..n]);
      DroppedIsWellFormed(front);
      assert n > 0 && fs[n].Headers? ==> fs[n - 1].Headers?;
      if !(fs[n].Headers? && n > 0 && fs[n - 1].Headers?) {
        forall i | 0 <= i < |r| ensures Rank(r[i]) < Rank(fs[n]) || (r[i].Data? && fs[n].Data?) {
          assert r[i] in r && r[i] in front;
          var k :| 0 <= k < n && front[k] == r[i];
        }
      }
    }
  }

  ghost predicate NoTwoHeaders(fs: seq<Frame>) {
    forall i, j :: 0 <= i < j < |fs| ==> !(fs[i].Headers? && fs[j].Headers?)
  }

  lemma NoTwoHeadersMore(fs: seq<Frame>, f: Frame)
    ensures NoTwoHeaders(fs + [f]) <==> NoTwoHeaders(fs) && (f.Headers? ==> forall x :: x in fs ==> !x.Headers?)
  {
    var all := fs + [f];
    assert all[|fs|] == f && forall i :: 0 <= i < |fs| ==> all[i] == fs[i] && fs[i] in fs;
    assert NoTwoHeaders(all) ==> forall i :: 0 <= i < |fs| ==> !(all[i].Headers? && all[|fs|].Headers?);
  }

  lemma {:induction false} CountAtMostOne(fs: seq<Frame>)
    ensures HeaderCount(fs) <= 1 <==> NoTwoHeaders(fs)
  {
    if fs != [] {
      var n := |fs| - 1;
      CountAtMostOne(fs[..n]);
      NoHeaderCount(fs[..n]);
      assert fs == fs[..n] + [fs[n]];
      NoTwoHeadersMore(fs[..n], fs[n]);
      hide NoTwoHeaders;
    }
  }

  /** And the grammar holds as it is unless headers repeat. */
  lemma WellFormedExactlyWhen(fs: seq<Frame>)
    requires WellWritten(fs)
    ensures WellFormed(fs) <==> HeaderCount(fs) <= 1
  {
    CountAtMostOne(fs);
    hide HeaderCount;
  }

  // ----- How far the server has come -----

  /** The last kind of frame that can have been written. */
  function Reached(srv: Server): nat {
    match srv.pc
    case Idle => if srv.finishing then 3 else if srv.state == InHeaders then 0 else 1
    case Closing => 3
    case Writing(_, k) => ReachedBefore(k)
    case Wrote(f, _) => Rank(f)
  }

  function ReachedBefore(k: WriteFor): nat {
    match k
    case ForMsg => 1
    case FinTrailers => 1
    case FinError => 2
    case _ => 0
  }

  ghost predicate WrittenInv(s: Sys) {
    WellWritten(s.ch.written) && forall f :: f in s.ch.written ==> Rank(f) <= Reached(s.srv)
  }

  /** The frame a server is writing comes after all it wrote, or repeats its kind. */
  lemma NextRank(srv: Server)
    requires ServerOk(srv) && srv.pc.Writing?
    ensures var f := srv.pc.f;
            && Rank(f) >= Reached(srv) && (Rank(f) == Reached(srv) ==> f.Data? || f.Headers?)
            && Reached(srv.(pc := Wrote(f, srv.pc.k))) == Rank(f)
  {
    hide JoinAll;
  }

  lemma SameKind(f: Frame, g: Frame)
    requires Rank(f) == Rank(g)
    ensures f.Data? == g.Data? && f.Headers? == g.Headers?
  {
  }

  lemma PushKeepsWritten(s: Sys)
    requires ServerOk(s.srv) && (s.ch.closed <==> IsClosed(s.srv)) && WrittenInv(s) && Enabled(s, ServerPushes)
    ensures WrittenInv(Apply(s, ServerPushes))
  {
    var f, all := s.srv.pc.f, s.ch.written;
    NextRank(s.srv);
    hide ServerOk, Reached, Rank;
    forall i | 0 <= i < |all|
      ensures Rank(all[i]) < Rank(f) || (all[i].Data? && f.Data?) || (all[i].Headers? && f.Headers?)
    {
      assert all[i] in all;
      if Rank(all[i]) == Rank(f) {
        SameKind(all[i], f);
      }
    }
  }

  /** A server is never set back. */
  lemma ReachedGrows(srv: Server, md: MD, m: Option<Msg>, ctxDone: bool)
    requires ServerOk(srv) && srv.pc.Idle?
    ensures Reached(SetHeader(srv, md)) >= Reached(srv) && Reached(SendHeader(srv, md)) >= Reached(srv)
    ensures Reached(SetTrailer(srv, md)) >= Reached(srv) && Reached(SendMsg(srv, ctxDone, m)) >= Reached(srv)
    ensures !srv.finishing ==> Reached(FinishFromHeaders(srv.(finishing := true))) >= Reached(srv)
  {
    hide JoinAll, Join;
  }

  lemma ReachedAfterWrite(srv: Server, f: Frame, k: WriteFor, failed: bool)
    requires ServerOk(srv) && (srv.pc == Writing(f, k) || srv.pc == Wrote(f, k))
    ensures Reached(AfterWrite(srv, f, k, failed)) >= Reached(srv)
  {
    hide JoinAll;
  }

  lemma DroppedKeepsReached(srv: Server)
    ensures Reached(srv.(dropped := srv.dropped + 1)) == Reached(srv)
  {
  }

  lemma WrittenCall(s: Sys, step: Step)
    requires ServerOk(s.srv) && Enabled(s, step) && s.srv.pc.Idle?
    requires step.CallSetHeader? || step.CallSendHeader? || step.CallSetTrailer? || step.CallSendMsg? || step.FinishLocks?
    ensures Reached(Apply(s, step).srv) >= Reached(s.srv) && Apply(s, step).ch == s.ch
  {
    hide ServerOk, Reached, SetHeader, SendHeader, SetTrailer, SendMsg, FinishFromHeaders;
    match step
    case CallSetHeader(md) => ReachedGrows(s.srv, md, None, false);
    case CallSendHeader(md) => ReachedGrows(s.srv, md, None, false);
    case CallSetTrailer(md) => ReachedGrows(s.srv, md, None, false);
    case CallSendMsg(m) => ReachedGrows(s.srv, map[], m, s.ctx.svr);
    case FinishLocks => ReachedGrows(s.srv, map[], None, false);
  }

  lemma WrittenStep(s: Sys, step: Step)
    requires SendInv(s) && WrittenInv(s) && Enabled(s, step)
    ensures WrittenInv(Apply(s, step))
  {
    var s' := Apply(s, step);
    if step.ServerPushes? {
      PushKeepsWritten(s);
    } else {
      assert s'.ch.written == s.ch.written && Reached(s'.srv) >= Reached(s.srv) by {
        ServerGoesOn(s, step);
      }
      hide Apply, Enabled, SendInv, WellWritten, Reached;
    }
  }

  lemma ServerGoesOn(s: Sys, step: Step)
    requires ServerOk(s.srv) && Enabled(s, step) && !step.ServerPushes?
    ensures Apply(s, step).ch.written == s.ch.written && Reached(Apply(s, step).srv) >= Reached(s.srv)
  {
    if step.ServerGivesUp? {
      var dropped := s.srv.(dropped := s.srv.dropped + 1);
      DroppedKeepsReached(s.srv);
      DroppedIrrelevant(s.srv);
      hide ServerOk, Reached, AfterWrite;
      ReachedAfterWrite(dropped, s.srv.pc.f, s.srv.pc.k, true);
    } else if step.ServerChecks? {
      hide Reached, AfterWrite;
      ReachedAfterWrite(s.srv, s.srv.pc.f, s.srv.pc.k, s.ctx.svr);
    } else if step.CallSetHeader? || step.CallSendHeader? || step.CallSetTrailer? || step.CallSendMsg? || step.FinishLocks? {
      hide Reached, ServerOk;
      WrittenCall(s, step);
    } else {
      hide JoinAll, ApplyRequest, Resume, CheckTaken;
    }
  }

  // ----- Why headers are written twice -----

  /** A call whose headers frame went into the channel reports the context's error
      all the same. */
  ghost predicate ReportsHeaders(s: Sys, step: Step) {
    && step.ServerChecks? && s.srv.pc.Wrote? && s.srv.pc.f.Headers? && s.ctx.svr
    && (s.srv.pc.k.ForSendHeader? || s.srv.pc.k.ForMsgHeaders?)
  }

  /** That happened in the course of the run. */
  ghost predicate HeadersReported(s: Sys, steps: seq<Step>)
    decreases |steps|
  {
    && steps != [] && Enabled(s, steps[0])
    && (ReportsHeaders(s, steps[0]) || HeadersReported(Apply(s, steps[0]), steps[1..]))
  }

  ghost predicate MayWriteHeaders(srv: Server) {
    match srv.pc
    case Idle => !srv.finishing && srv.state == InHeaders
    case Writing(f, _) => f.Headers?
    case _ => false
  }

  /** `lost` says whether some call reported an error for headers that went in. */
  ghost predicate HeadersInv(s: Sys, lost: bool) {
    && (lost ==> s.ctx.cli)
    && (HeaderCount(s.ch.written) > 1 ==> lost)
    && (HeaderCount(s.ch.written) > 0 && MayWriteHeaders(s.srv) ==> lost)
  }

  lemma HeadersPush(s: Sys, lost: bool)
    requires ServerOk(s.srv) && HeadersInv(s, lost) && Enabled(s, ServerPushes)
    ensures HeadersInv(Apply(s, ServerPushes), lost)
  {
    HeaderCountMore(s.ch.written, s.srv.pc.f);
    hide HeaderCount, ServerOk;
  }

  lemma NoNewHeaders(srv: Server, md: MD, m: Option<Msg>, ctxDone: bool)
    requires ServerOk(srv) && srv.pc.Idle?
    ensures MayWriteHeaders(SetHeader(srv, md)) ==> MayWriteHeaders(srv)
    ensures MayWriteHeaders(SendHeader(srv, md)) ==> MayWriteHeaders(srv)
    ensures MayWriteHeaders(SetTrailer(srv, md)) ==> MayWriteHeaders(srv)
    ensures MayWriteHeaders(SendMsg(srv, ctxDone, m)) ==> MayWriteHeaders(srv)
    ensures !srv.finishing && MayWriteHeaders(FinishFromHeaders(srv.(finishing := true))) ==> MayWriteHeaders(srv)
  {
    hide JoinAll, Join;
  }

  lemma HeadersCall(s: Sys, step: Step)
    requires ServerOk(s.srv) && Enabled(s, step) && s.srv.pc.Idle?
    requires step.CallSetHeader? || step.CallSendHeader? || step.CallSetTrailer? || step.CallSendMsg? || step.FinishLocks?
    ensures MayWriteHeaders(Apply(s, step).srv) ==> MayWriteHeaders(s.srv)
  {
    hide ServerOk, MayWriteHeaders, SetHeader, SendHeader, SetTrailer, SendMsg, FinishFromHeaders;
    match step
    case CallSetHeader(md) => NoNewHeaders(s.srv, md, None, false);
    case CallSendHeader(md) => NoNewHeaders(s.srv, md, None, false);
    case CallSetTrailer(md) => NoNewHeaders(s.srv, md, None, false);
    case CallSendMsg(m) => NoNewHeaders(s.srv, map[], m, s.ctx.svr);
    case FinishLocks => NoNewHeaders(s.srv, map[], None, false);
  }

  /** After a write, headers are due again only if it was given up or reported an error. */
  lemma HeadersAfterWrite(srv: Server, f: Frame, k: WriteFor, failed: bool)
    requires ServerOk(srv) && (srv.pc == Writing(f, k) || srv.pc == Wrote(f, k))
    ensures MayWriteHeaders(AfterWrite(srv, f, k, failed)) ==>
              failed && f.Headers? && (k.ForSendHeader? || k.ForMsgHeaders?)
  {
    hide JoinAll;
  }

  lemma MayWriteElsewhere(s: Sys, step: Step)
    requires SendInv(s) && Enabled(s, step) && !step.ServerPushes?
    ensures MayWriteHeaders(Apply(s, step).srv) ==> MayWriteHeaders(s.srv) || ReportsHeaders(s, step)
  {
    if step.ServerGivesUp? {
      var dropped := s.srv.(dropped := s.srv.dropped + 1);
      DroppedIrrelevant(s.srv);
      hide ServerOk, AfterWrite, LiveInv;
      HeadersAfterWrite(dropped, s.srv.pc.f, s.srv.pc.k, true);
    } else if step.ServerChecks? {
      hide AfterWrite, ServerOk, LiveInv;
      HeadersAfterWrite(s.srv, s.srv.pc.f, s.srv.pc.k, s.ctx.svr);
    } else if step.CallSetHeader? || step.CallSendHeader? || step.CallSetTrailer? || step.CallSendMsg? || step.FinishLocks? {
      hide MayWriteHeaders, ServerOk, LiveInv;
      HeadersCall(s, step);
    } else {
      hide JoinAll, ApplyRequest, Resume, CheckTaken, LiveInv;
    }
  }

  /** Calls report errors only once the client's context is done. */
  lemma ReportedIsCancelled(s: Sys, step: Step)
    requires SendInv(s) && Enabled(s, step)
    ensures ReportsHeaders(s, step) ==> s.ctx.cli
    ensures s.ctx.cli ==> Apply(s, step).ctx.cli
  {
    hide LiveInv, Resume, CheckTaken, ApplyRequest, AfterWrite, SetHeader, SendHeader, SetTrailer, SendMsg,
         FinishFromHeaders;
  }

  lemma HeadersStep(s: Sys, step: Step, lost: bool)
    requires SendInv(s) && Enabled(s, step) && HeadersInv(s, lost)
    ensures HeadersInv(Apply(s, step), lost || ReportsHeaders(s, step))
  {
    ReportedIsCancelled(s, step);
    if step.ServerPushes? {
      HeadersPush(s, lost);
    } else {
      MayWriteElsewhere(s, step);
      ServerGoesOn(s, step);
      hide SendInv, Apply, Enabled, MayWriteHeaders, ReportsHeaders, HeaderCount, Reached;
    }
  }

  lemma {:induction false} WrittenReachable(s: Sys, steps: seq<Step>, s': Sys, lost: bool)
    requires Inv(s) && WrittenInv(s) && HeadersInv(s, lost) && IsRun(s, steps, s')
    ensures Inv(s') && WrittenInv(s') && HeadersInv(s', lost || HeadersReported(s, steps))
    decreases |steps|
  {
    hide SendInv, TakenInv, ViewInv, OutsInv, MessagesInv, EndInv, ReqInv, WrittenInv, HeadersInv, Apply, Enabled,
         ReportsHeaders;
    if steps != [] {
      InvStep(s, steps[0]);
      WrittenStep(s, steps[0]);
      HeadersStep(s, steps[0], lost);
      WrittenReachable(Apply(s, steps[0]), steps[1..], s', lost || ReportsHeaders(s, steps[0]));
    }
  }

  /** In every run, cancelled or not, the frames written are headers* data* trailers?
      error?, so that they obey the grammar once repeated headers are dropped; and as
      they are, exactly if headers were written once at most. */
  lemma WrittenFrames(unary: bool, steps: seq<Step>, s: Sys)
    requires IsRun(Init(unary), steps, s)
    ensures WellWritten(s.ch.written) && WellFormed(DropRepeats(s.ch.written))
    ensures WellFormed(s.ch.written) <==> HeaderCount(s.ch.written) <= 1
  {
    InitInv(unary);
    WrittenReachable(Init(unary), steps, s, false);
    DroppedIsWellFormed(s.ch.written);
    WellFormedExactlyWhen(s.ch.written);
  }

  /** Headers are written twice only in a cancelled run in which an earlier headers
      frame went in while its call reported the context's error. */
  lemma TwiceOnlyIfReported(unary: bool, steps: seq<Step>, s: Sys)
    requires IsRun(Init(unary), steps, s) && HeaderCount(s.ch.written) > 1
    ensures s.ctx.cli && HeadersReported(Init(unary), steps)
  {
    InitInv(unary);
    WrittenReachable(Init(unary), steps, s, false);
  }

  /** Without a cancellation the frames written obey the grammar. */
  lemma LiveWritten(unary: bool, steps: seq<Step>, s: Sys)
    requires IsRun(Init(unary), steps, s) && !s.ctx.cli
    ensures WellFormed(s.ch.written)
  {
    WrittenFrames(unary, steps, s);
    if HeaderCount(s.ch.written) > 1 {
      TwiceOnlyIfReported(unary, steps, s);
    }
  }
}
