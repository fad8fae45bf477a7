/** The guarantees of an in-process stream over whole runs. */
module InProcTheorems {
  import opened Prelude
  import opened Metadata
  import opened InProcFrames
  import opened InProcClient
  import opened InProcStream
  import opened InProcSafety
  import opened InProcReceive
  import opened InProcRequests
  import opened InProcCalls

  // ----- Messages yielded -----

  function GotMsgs(outs: seq<Outcome>): seq<Msg> {
    if outs == [] then []
    else
      var n := |outs| - 1;
      GotMsgs(outs[..n]) + (if outs[n].Got? then [outs[n].msg] else [])
  }

  lemma GotAppend(outs: seq<Outcome>, o: Outcome)
    ensures GotMsgs(outs + [o]) == GotMsgs(outs) + (if o.Got? then [o.msg] else [])
  {
    assert (outs + [o])[..|outs|] == outs;
  }

  function PeekedMsg(c: Client): seq<Msg> {
    if c.last.Some? && c.last.value.Data? then [c.last.value.msg] else []
  }

  ghost predicate HoldsError(c: Client) {
    c.last.Some? && c.last.value.Error?
  }

  /** Streaming responses: every accepted message has been yielded, except one
      that is only peeked. */
  ghost predicate StreamingInv(s: Sys) {
    !s.unary ==>
      && !WantsMore(s.rcv)
      && GotMsgs(s.rcv.outs) + PeekedMsg(s.rcv.c) == Messages(s.rcv.accepted)
  }

  /** Unary responses: at most one message is yielded, the first one accepted,
      and after that no other can be. */
  ghost predicate UnaryInv(s: Sys) {
    var r, got, all := s.rcv, GotMsgs(s.rcv.outs), Messages(s.rcv.accepted);
    s.unary ==>
      && (WantsMore(r) ==> all == [r.pc.k.got] && got == [])
      && (PeekedMsg(r.c) != [] ==> all == PeekedMsg(r.c) && got == [])
      && (got != [] ==> got == all && |got| == 1 && (s.ctx.cli || HoldsError(r.c) || Drained(s)))
      && (all != [] ==> WantsMore(r) || r.c.last.Some? || got != [])
  }

  ghost predicate MessagesInv(s: Sys) {
    StreamingInv(s) && UnaryInv(s)
  }

  lemma MessagesStep(s: Sys, step: Step)
    requires SendInv(s) && TakenInv(s) && ViewInv(s) && MessagesInv(s) && Enabled(s, step)
    ensures MessagesInv(Apply(s, step))
  {
    hide SendInv, TakenInv, ViewInv, MessagesInv, Apply, Drained;
    if Drained(s) {
      DrainedStays(s, step);
    }
    if LeavesClientAlone(step) {
      MessagesElsewhere(s, step);
    } else if step.ClientChecks? && !s.ctx.cli && s.rcv.pc.item.Arrived? {
      MessagesAccept(s);
    } else {
      MessagesNoFrame(s, step);
    }
  }

  lemma MessagesElsewhere(s: Sys, step: Step)
    requires MessagesInv(s) && Enabled(s, step) && LeavesClientAlone(step)
    requires Drained(s) ==> Drained(Apply(s, step))
    ensures MessagesInv(Apply(s, step))
  {
    hide SetHeader, SendHeader, SetTrailer, SendMsg, AfterWrite, FinishFromHeaders, ApplyRequest,
         GotMsgs, Messages;
  }

  lemma MessagesAccept(s: Sys)
    requires TakenInv(s) && ViewInv(s) && MessagesInv(s)
    requires s.rcv.pc.CTaken? && s.rcv.pc.item.Arrived? && !s.ctx.cli
    ensures MessagesInv(Apply(s, ClientChecks))
  {
    hide WellFormed, HeadersOf, TrailersOf, GotMsgs, Messages, TranslateContextError;
    var f := s.rcv.pc.item.frame;
    AppendFrame(s.rcv.accepted, f);
    var s' := Apply(s, ClientChecks);
    assert s'.rcv.accepted == s.rcv.accepted + [f];
    if s'.rcv.outs != s.rcv.outs {
      GotAppend(s.rcv.outs, s'.rcv.outs[|s.rcv.outs|]);
    }
  }

  lemma MessagesNoFrame(s: Sys, step: Step)
    requires TakenInv(s) && ViewInv(s) && MessagesInv(s) && Enabled(s, step) && !LeavesClientAlone(step)
    requires step.ClientChecks? ==> s.ctx.cli || !s.rcv.pc.item.Arrived?
    requires Drained(s) ==> Drained(Apply(s, step))
    ensures MessagesInv(Apply(s, step))
  {
    hide WellFormed, HeadersOf, TrailersOf, GotMsgs, Messages, TranslateContextError;
    var s' := Apply(s, step);
    assert s'.rcv.accepted == s.rcv.accepted;
    if s'.rcv.outs != s.rcv.outs {
      GotAppend(s.rcv.outs, s'.rcv.outs[|s.rcv.outs|]);
    }
  }

  // ----- The end -----

  /** The server said everything, nothing was lost, and the client accepted all
      of it; r is what the handler returned. */
  ghost predicate Delivered(s: Sys, r: Option<Err>) {
    && PastTrailers(s.srv) && !s.srv.pc.Writing?
    && s.srv.returned == Some(r)
    && s.srv.dropped == 0 && s.srv.errored == 0
    && s.rcv.accepted == s.ch.written == WholeTranscript(s.srv)
    && InHand(s.rcv) == []
  }

  ghost predicate EndInv(s: Sys) {
    && (forall f :: f in s.rcv.accepted && f.Error? ==> Delivered(s, Some(f.err)) && HoldsError(s.rcv.c))
    && (!s.unary && HoldsError(s.rcv.c) ==> s.rcv.c.last.value in s.rcv.accepted)
    && (End in s.rcv.outs ==> Delivered(s, None))
  }

  lemma DeliveredStays(s: Sys, step: Step, r: Option<Err>)
    requires SendInv(s) && TakenInv(s) && Delivered(s, r) && Enabled(s, step)
    ensures Delivered(Apply(s, step), r)
  {
    hide Expected, LiveInv, JoinAll, Transcript, OnItem, BeginRecv, BeginHeader, ApplyRequest,
         FinishFromHeaders, SendBody, FinishFromTrailers, FinishFromError;
  }

  ghost predicate StaysDelivered(s: Sys, s': Sys) {
    forall r :: Delivered(s, r) ==> Delivered(s', r)
  }

  lemma DeliveryStays(s: Sys, step: Step)
    requires SendInv(s) && TakenInv(s) && Enabled(s, step)
    ensures StaysDelivered(s, Apply(s, step))
  {
    hide SendInv, TakenInv, Delivered, Apply, Enabled;
    forall r | Delivered(s, r)
      ensures Delivered(Apply(s, step), r)
    {
      DeliveredStays(s, step, r);
    }
  }

  /** An error frame accepted while the client is live is the end of everything. */
  lemma ErrorIsLast(s: Sys)
    requires SendInv(s) && TakenInv(s) && !s.ctx.cli
    requires s.rcv.pc.CTaken? && s.rcv.pc.item.Arrived? && s.rcv.pc.item.frame.Error?
    ensures Delivered(Apply(s, ClientChecks), Some(s.rcv.pc.item.frame.err))
  {
    hide ServerOk, Expected, WholeTranscript, WellFormed, PastTrailers, OnItem;
    var f := s.rcv.pc.item.frame;
    ExpectedWellFormed(s.srv);
    var fs := s.rcv.accepted + [f];
    assert s.ch.written == fs + s.ch.buf;
    assert s.ch.written[|s.rcv.accepted|] == f;
    ErrorClosesList(fs, s.ch.buf);
    assert fs + [] == fs;
    var s' := Apply(s, ClientChecks);
    assert s'.rcv.accepted == fs;
  }

  lemma ErrorClosesList(fs: seq<Frame>, rest: seq<Frame>)
    requires fs != [] && fs[|fs| - 1].Error? && WellFormed(fs + rest)
    ensures rest == []
  {
    if rest != [] {
      ErrorThenNothing(fs, rest);
    }
  }

  lemma ErrorThenNothing(fs: seq<Frame>, rest: seq<Frame>)
    requires fs != [] && fs[|fs| - 1].Error? && rest != []
    ensures !WellFormed(fs + rest)
  {
    var gs := fs + rest;
    var n := |fs|;
    assert !(Rank(gs[n - 1]) < Rank(gs[n])) && !gs[n - 1].Data?;
  }

  /** A drained channel seen by a live client means the server said everything. */
  lemma DrainedIsComplete(s: Sys)
    requires SendInv(s) && TakenInv(s) && !s.ctx.cli && Drained(s)
    ensures Delivered(s, s.srv.returned.value)
    ensures s.srv.returned.value.Some? ==> Error(s.srv.returned.value.value) in s.rcv.accepted
  {
    hide JoinAll, HeaderFrames, DataFrames, TrailerFrames;
    assert s.rcv.accepted == s.ch.read == s.ch.written;
    if s.srv.returned.value.Some? {
      var w := WholeTranscript(s.srv);
      assert w[|w| - 1] == Error(s.srv.returned.value.value);
    }
  }

  lemma EndStep(s: Sys, step: Step)
    requires SendInv(s) && TakenInv(s) && ViewInv(s) && OutsInv(s) && MessagesInv(s) && EndInv(s)
    requires Enabled(s, step)
    ensures EndInv(Apply(s, step))
  {
    DeliveryStays(s, step);
    hide SendInv, TakenInv, OutsInv, Delivered, Drained;
    if LeavesClientAlone(step) {
      EndElsewhere(s, step);
    } else if step.ClientChecks? && !s.ctx.cli {
      EndCheck(s, Apply(s, step));
    } else {
      EndOther(s, step);
    }
  }

  lemma EndElsewhere(s: Sys, step: Step)
    requires EndInv(s) && Enabled(s, step) && LeavesClientAlone(step)
    requires StaysDelivered(s, Apply(s, step))
    ensures EndInv(Apply(s, step))
  {
    hide Delivered, SetHeader, SendHeader, SetTrailer, SendMsg, AfterWrite, FinishFromHeaders, ApplyRequest;
  }

  lemma EndOther(s: Sys, step: Step)
    requires EndInv(s) && ViewInv(s) && Enabled(s, step)
    requires !LeavesClientAlone(step) && (step.ClientChecks? ==> s.ctx.cli)
    requires StaysDelivered(s, Apply(s, step))
    ensures EndInv(Apply(s, step))
  {
    hide Delivered, WellFormed, HeadersOf, TrailersOf;
  }

  lemma EndCheck(s: Sys, s': Sys)
    requires Enabled(s, ClientChecks) && s' == Apply(s, ClientChecks) && !s.ctx.cli
    requires SendInv(s) && TakenInv(s) && ViewInv(s) && MessagesInv(s) && EndInv(s)
    requires StaysDelivered(s, s')
    ensures EndInv(s')
  {
    NoErrorYet(s);
    assert !s.unary ==> !WantsMore(s.rcv);
    hide SendInv, Delivered, WellFormed, ViewInv, MessagesInv, Drained;
    if s.rcv.pc.item.ChannelClosed? {
      DrainedIsComplete(s);
      EndCheckClosed(s, s');
    } else {
      if s.rcv.pc.item.frame.Error? {
        ErrorIsLast(s);
      }
      EndCheckFrame(s, s');
    }
  }

  /** A read is going on, so no error was accepted before. */
  lemma NoErrorYet(s: Sys)
    requires ViewInv(s) && EndInv(s) && s.rcv.pc.CTaken?
    ensures !HoldsError(s.rcv.c) && forall f :: f in s.rcv.accepted ==> !f.Error?
    ensures s.rcv.c.last.None?
  {
    hide Delivered;
  }

  lemma EndCheckClosed(s: Sys, s': Sys)
    requires Enabled(s, ClientChecks) && s' == Apply(s, ClientChecks)
    requires !s.ctx.cli && s.rcv.pc.item.ChannelClosed?
    requires EndInv(s)
    requires s.rcv.c.last.None? && forall f :: f in s.rcv.accepted ==> !f.Error?
    requires Delivered(s, None)
    requires StaysDelivered(s, s')
    ensures EndInv(s')
  {
    hide Delivered;
  }

  lemma EndCheckFrame(s: Sys, s': Sys)
    requires Enabled(s, ClientChecks) && s' == Apply(s, ClientChecks)
    requires !s.ctx.cli && s.rcv.pc.item.Arrived?
    requires EndInv(s)
    requires s.rcv.c.last.None? && forall f :: f in s.rcv.accepted ==> !f.Error?
    requires !s.unary ==> !WantsMore(s.rcv)
    requires var f := s.rcv.pc.item.frame; f.Error? ==> Delivered(s', Some(f.err))
    requires StaysDelivered(s, s')
    ensures EndInv(s')
  {
    hide Delivered, TranslateContextError;
    var f := s.rcv.pc.item.frame;
    assert s'.rcv.accepted == s.rcv.accepted + [f];
  }

  // ----- Whole runs -----

  ghost predicate Inv(s: Sys) {
    SendInv(s) && TakenInv(s) && ViewInv(s) && OutsInv(s) && MessagesInv(s) && EndInv(s) && ReqInv(s)
  }

  lemma UnaryStays(s: Sys, step: Step)
    requires Enabled(s, step)
    ensures Apply(s, step).unary == s.unary
  {
  }

  lemma InvStep(s: Sys, step: Step)
    requires Inv(s) && Enabled(s, step)
    ensures Inv(Apply(s, step)) && Apply(s, step).unary == s.unary
  {
    UnaryStays(s, step);
    hide SendInv, TakenInv, ViewInv, OutsInv, MessagesInv, EndInv, ReqInv, Apply, Enabled;
    SendStep(s, step);
    TakenStep(s, step);
    ViewStep(s, step);
    OutsStep(s, step);
    MessagesStep(s, step);
    EndStep(s, step);
    ReqStep(s, step);
  }

  lemma InitInv(unary: bool)
    ensures Inv(Init(unary))
  {
  }

  lemma {:induction false} RunKeepsInv(s: Sys, steps: seq<Step>, s': Sys)
    requires Inv(s) && IsRun(s, steps, s')
    ensures Inv(s') && s'.unary == s.unary
    decreases |steps|
  {
    hide Inv, Apply, Enabled;
    if steps != [] {
      InvStep(s, steps[0]);
      RunKeepsInv(Apply(s, steps[0]), steps[1..], s');
    }
  }

  lemma Reachable(unary: bool, steps: seq<Step>, s: Sys)
    requires IsRun(Init(unary), steps, s)
    ensures Inv(s) && s.unary == unary
  {
    hide Inv, IsRun;
    InitInv(unary);
    RunKeepsInv(Init(unary), steps, s);
  }

  /** Frame protocol safety: over every interleaving of handler calls, client
      calls and cancellation, the frames the client accepts are a prefix of those
      written and of headers? data* trailers? error?. */
  lemma FrameSafety(unary: bool, steps: seq<Step>, s: Sys)
    requires IsRun(Init(unary), steps, s)
    ensures WellFormed(s.rcv.accepted)
    ensures s.rcv.accepted <= s.ch.written
  {
    Reachable(unary, steps, s);
    assert s.rcv.accepted <= s.ch.read <= s.ch.written;
  }

  /** In every run the records the stream keeps are what its callers asked for. */
  lemma {:induction false} LawReachable(s: Sys, l: Calls, steps: seq<Step>, s': Sys)
    requires Inv(s) && CallLaw(s, l) && IsRun(s, steps, s')
    ensures CallLaw(s', After(l, s, steps))
    decreases |steps|
  {
    assert SendInv(s) && ReqInv(s);
    hide Inv, SendInv, ReqInv, CallLaw, Apply, Enabled, Noted;
    if steps != [] {
      InvStep(s, steps[0]);
      LawStep(s, steps[0], l);
      LawReachable(Apply(s, steps[0]), Noted(l, s, steps[0]), steps[1..], s');
    }
  }

  lemma CallsRecorded(unary: bool, steps: seq<Step>, s: Sys)
    requires IsRun(Init(unary), steps, s)
    ensures Inv(s) && CallLaw(s, Made(unary, steps))
  {
    InitInv(unary);
    InitLaw(unary);
    Reachable(unary, steps, s);
    hide Inv, CallLaw, IsRun;
    LawReachable(Init(unary), NONE, steps, s);
  }

  /** The handler's calls, read off the steps of any run, against the messages whose
      SendMsg returned nil: these are some of those asked for, in order, and all but
      the one under way as long as no call reported the context's error; without a
      cancellation metadata are set in time exactly until a call that sends headers. */
  lemma SentAsAsked(unary: bool, steps: seq<Step>, s: Sys)
    requires IsRun(Init(unary), steps, s)
    ensures var l := Made(unary, steps);
            && Subseq(s.srv.sentOk, l.sends)
            && (!s.ctx.cli ==> s.srv.sentOk + InProgress(s.srv) == l.sends)
            && (!s.ctx.cli && !s.ctx.svr ==> (HeadersPending(s.srv) <==> !l.headersGone))
            && s.srv.hdrLog == l.headers && s.srv.trlLog == l.trailers && s.srv.returned == l.returned
  {
    CallsRecorded(unary, steps, s);
    var l := Made(unary, steps);
    assert SendInv(s) && ServerLaw(s, l);
    hide Subseq, Made, Inv, CallLaw, Expected, IsRun;
    SubseqPrefix(s.srv.sentOk, InProgress(s.srv), l.sends);
  }

  /** Nothing the server said was lost: no write was given up, no call reported a
      context error, the client yielded exactly the messages that the handler's
      SendMsg calls were given, and it holds all headers and trailers that were set
      in time. */
  ghost predicate NothingLost(s: Sys, l: Calls) {
    && s.srv.dropped == 0 && s.srv.errored == 0
    && GotMsgs(s.rcv.outs) == l.sends
    && s.rcv.c.headers == JoinAll(l.headers)
    && s.rcv.c.trailers == JoinAll(l.trailers)
  }

  /** How an error the handler returned reads on the client: the errors of contexts as
      the gRPC statuses for them, any other as it is. */
  ghost predicate ShownAs(x: Err, e: Err) {
    && (x == CtxDeadline ==> e == Status(4, "context deadline exceeded"))
    && (x == CtxCanceled ==> e == Status(1, "context canceled"))
    && (x != CtxDeadline && x != CtxCanceled ==> e == x)
  }

  lemma Shown(x: Err)
    ensures ShownAs(x, TranslateContextError(x))
  {
  }

  /** Completeness of the end: once RecvMsg has reported the end of a streaming
      response, whether io.EOF or the handler's error, nothing was or will be
      lost, and the handler returned exactly what the outcome says. */
  lemma EndIsComplete(steps: seq<Step>, s: Sys)
    requires IsRun(Init(false), steps, s)
    ensures var l := Made(false, steps);
            && (End in s.rcv.outs ==> NothingLost(s, l) && l.returned == Some(None))
            && forall e :: Failed(e) in s.rcv.outs ==>
                             && NothingLost(s, l)
                             && exists x :: l.returned == Some(Some(x)) && ShownAs(x, e)
  {
    Reachable(false, steps, s);
    CallsRecorded(false, steps, s);
    var l := Made(false, steps);
    hide Made, NothingLost;
    if End in s.rcv.outs {
      DeliveredIsLossless(s, l, None);
    }
    forall e | Failed(e) in s.rcv.outs
      ensures NothingLost(s, l) && exists x :: l.returned == Some(Some(x)) && ShownAs(x, e)
    {
      assert Backed(s, Failed(e));
      Shown(s.rcv.c.last.value.err);
      DeliveredIsLossless(s, l, Some(s.rcv.c.last.value.err));
    }
  }

  lemma DeliveredIsLossless(s: Sys, l: Calls, r: Option<Err>)
    requires Inv(s) && !s.unary && Delivered(s, r) && CallLaw(s, l)
    requires PeekedMsg(s.rcv.c) == []
    ensures NothingLost(s, l) && l.returned == Some(r)
  {
    DeliveredAsAsked(s, l, r);
    hide GotMsgs, Messages, HeadersOf, TrailersOf, Transcript, JoinAll, WellFormed, CallLaw;
    TranscriptContents(JoinAll(s.srv.hdrLog), s.srv.sentOk, JoinAll(s.srv.trlLog), r);
    assert GotMsgs(s.rcv.outs) + [] == GotMsgs(s.rcv.outs);
  }

  lemma DeliveredAsAsked(s: Sys, l: Calls, r: Option<Err>)
    requires ServerOk(s.srv) && Delivered(s, r) && CallLaw(s, l)
    ensures s.srv.sentOk == l.sends && s.srv.hdrLog == l.headers && s.srv.trlLog == l.trailers
    ensures l.returned == Some(r)
  {
    hide Subseq, JoinAll, RequestLaw;
    assert InProgress(s.srv) == [];
    assert s.srv.sentOk + [] == s.srv.sentOk;
  }

  /** Outcomes stick: an error from the server, or for a surplus response, is
      returned by every later RecvMsg, and after any end no message follows. */
  lemma OutcomesStick(unary: bool, steps: seq<Step>, s: Sys)
    requires IsRun(Init(unary), steps, s)
    ensures Sticky(s.rcv.outs)
  {
    Reachable(unary, steps, s);
  }

  /** Every successful Header returns the same metadata, the one the server sent
      first if it sent headers, and a peeked frame waits past the header state
      while no read is under way. */
  lemma HeadersAgree(unary: bool, steps: seq<Step>, s: Sys)
    requires IsRun(Init(unary), steps, s)
    ensures forall h :: h in s.rcv.hdrs ==> h == HeadersOf(s.rcv.accepted)
    ensures s.rcv.c.last.Some? ==> s.rcv.c.state != InHeaders && s.rcv.pc.CIdle?
  {
    Reachable(unary, steps, s);
  }

  /** Without cancellation the agreed value is all the metadata the handler set. */
  lemma HeadersComplete(unary: bool, steps: seq<Step>, s: Sys)
    requires IsRun(Init(unary), steps, s) && !s.ctx.cli
    ensures forall h :: h in s.rcv.hdrs ==> h == JoinAll(Made(unary, steps).headers)
  {
    Reachable(unary, steps, s);
    SentAsAsked(unary, steps, s);
    hide Made;
    if s.rcv.hdrs != [] {
      LiveHeaders(s);
    }
  }

  lemma LiveHeaders(s: Sys)
    requires Inv(s) && !s.ctx.cli && s.rcv.c.state != InHeaders
    ensures HeadersOf(s.rcv.accepted) == JoinAll(s.srv.hdrLog)
  {
    hide ServerOk, Expected, JoinAll, HeadersOf, TrailersOf, WellFormed, Transcript,
         OutsInv, MessagesInv, EndInv, ReqInv;
    if s.rcv.accepted != [] {
      assert s.ch.written[0] == s.rcv.accepted[0];
      ExpectedFirst(s.srv);
      HeadersOfFirst(s.rcv.accepted);
    } else {
      assert s.ch.written == [];
      ClosedFirst(s);
    }
  }

  lemma {:induction false} HeadersOfFirst(fs: seq<Frame>)
    requires WellFormed(fs) && fs != []
    ensures HeadersOf(fs) == if fs[0].Headers? then fs[0].md else map[]
  {
    var n := |fs| - 1;
    assert fs == fs[..n] + [fs[n]];
    OptAppend(fs[..n], fs[n]);
    if n > 0 {
      assert Rank(fs[0]) < Rank(fs[n]) || (fs[0].Data? && fs[n].Data?);
      HeadersOfFirst(fs[..n]);
    }
  }

  lemma ExpectedFirst(srv: Server)
    requires ServerOk(srv) && Expected(srv) != []
    ensures var f := Expected(srv)[0];
            if f.Headers? then f.md == JoinAll(srv.hdrLog) else JoinAll(srv.hdrLog) == map[]
  {
    hide JoinAll;
    if JoinAll(srv.hdrLog) != map[] {
      assert |JoinAll(srv.hdrLog)| > 0;
    }
  }

  lemma ClosedFirst(s: Sys)
    requires ServerOk(s.srv) && IsClosed(s.srv) && Expected(s.srv) == []
    ensures JoinAll(s.srv.hdrLog) == map[] == HeadersOf([])
  {
    hide JoinAll;
    assert HeaderFrames(JoinAll(s.srv.hdrLog)) == [];
  }

  /** A unary-response call yields at most one message, the first one accepted. */
  lemma UnaryAtMostOne(steps: seq<Step>, s: Sys)
    requires IsRun(Init(true), steps, s)
    ensures |GotMsgs(s.rcv.outs)| <= 1 && GotMsgs(s.rcv.outs) <= Messages(s.rcv.accepted)
  {
    Reachable(true, steps, s);
  }

  /** Channel discipline: neither channel is written or closed after closing. */
  lemma ChannelsNeverMisused(unary: bool, steps: seq<Step>, s: Sys)
    requires IsRun(Init(unary), steps, s)
    ensures !s.ch.panicked && !s.req.panicked
    ensures |s.ch.buf| <= CAPACITY && |s.req.buf| <= CAPACITY
  {
    Reachable(unary, steps, s);
  }

  /** Request direction: the handler receives, in order, messages that the client's
      SendMsg calls were given, and exactly the first of them as long as neither the
      client's context is done nor the handler has returned. An end it sees means
      CloseSend happened, every message whose SendMsg returned nil was received, and
      no message follows. */
  lemma RequestsInOrder(unary: bool, steps: seq<Step>, s: Sys)
    requires IsRun(Init(unary), steps, s)
    ensures var l, received := Made(unary, steps), Received(s.req.outs);
            && Subseq(received, l.requests)
            && (!s.ctx.cli && !s.ctx.done ==> received <= l.requests)
            && (ReqEnd in s.req.outs ==>
                  && l.sendClosed && l.acked <= received
                  && (!s.ctx.cli && !s.ctx.done ==> received == l.requests))
    ensures forall i, j :: 0 <= i < j < |s.req.outs| && s.req.outs[i].ReqEnd? ==> !s.req.outs[j].ReqGot?
  {
    CallsRecorded(unary, steps, s);
    assert ReqInv(s) && RequestLaw(s, Made(unary, steps));
    hide Made, Inv, CallLaw, IsRun;
    ReceivedAsAsked(s, Made(unary, steps));
  }

  lemma ReceivedAsAsked(s: Sys, l: Calls)
    requires ReqInv(s) && RequestLaw(s, l)
    ensures var received := Received(s.req.outs);
            && Subseq(received, l.requests)
            && (!s.ctx.cli && !s.ctx.done ==> received <= l.requests)
            && (ReqEnd in s.req.outs ==>
                  && l.sendClosed && l.acked <= received
                  && (!s.ctx.cli && !s.ctx.done ==> received == l.requests))
  {
    var q := s.req;
    var all := q.pushed + Unpushed(q);
    assert q.received <= q.taken <= q.pushed <= all;
    var rest := all[|q.received|..];
    assert q.received + rest == all;
    SubseqPrefix(q.received, rest, l.requests);
    hide Subseq, Received;
    assert ReqEnd in q.outs ==> q.pushed + Unpushed(q) == q.pushed;
  }

  /** The key fact behind all of this: until finish is over, the server's context
      is done only if the client's is. */
  lemma ServerContextOutlives(unary: bool, steps: seq<Step>, s: Sys)
    requires IsRun(Init(unary), steps, s) && s.ctx.svr && !s.ctx.cli
    ensures s.ch.closed && s.srv.finishing && s.srv.state == Closed
  {
    Reachable(unary, steps, s);
  }
}
