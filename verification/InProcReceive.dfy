/** What every interleaving keeps on the client's receive side. */
module InProcReceive {
  import opened Prelude
  import opened Metadata
  import opened InProcFrames
  import opened InProcClient
  import opened InProcStream
  import opened InProcSafety

  // ----- Frames accepted -----

  function InHand(r: Receiver): seq<Frame> {
    if r.pc.CTaken? && r.pc.item.Arrived? then [r.pc.item.frame] else []
  }

  /** The channel is closed and nothing of it is left to be looked at. */
  ghost predicate Drained(s: Sys) {
    s.ch.closed && s.ch.buf == [] && InHand(s.rcv) == []
  }

  /** Accepted frames are a prefix of those read, and all of them while the
      client's context is live. */
  ghost predicate TakenInv(s: Sys) {
    && s.rcv.accepted <= s.ch.read
    && (!s.ctx.cli ==> s.ch.read == s.rcv.accepted + InHand(s.rcv))
    && (s.rcv.pc.CTaken? && s.rcv.pc.item.ChannelClosed? ==> Drained(s))
    && (s.rcv.pc.CTaken? ==> !s.rcv.pc.item.CtxDone?)
  }

  lemma TakenStep(s: Sys, step: Step)
    requires SendInv(s) && TakenInv(s) && Enabled(s, step)
    ensures TakenInv(Apply(s, step))
  {
    hide ServerOk, Expected, LiveInv, SetHeader, SendHeader, SetTrailer, SendMsg, AfterWrite,
         FinishFromHeaders, OnItem, BeginRecv, BeginHeader, ApplyRequest;
  }

  /** While the client's context is live, the frames accepted so far and the one
      in hand obey the grammar. */
  lemma LiveGrammar(s: Sys)
    requires SendInv(s) && TakenInv(s) && !s.ctx.cli
    ensures WellFormed(s.rcv.accepted + InHand(s.rcv))
  {
    ExpectedWellFormed(s.srv);
    var fs := s.rcv.accepted + InHand(s.rcv);
    assert fs <= s.ch.written;
    assert forall i :: 0 <= i < |fs| ==> fs[i] == s.ch.written[i];
  }

  /** What a live server has written is a prefix of a transcript. */
  lemma ExpectedWellFormed(srv: Server)
    requires ServerOk(srv)
    ensures WellFormed(Expected(srv))
    ensures forall f :: f in Expected(srv) && f.Error? ==>
                        && PastTrailers(srv) && !srv.pc.Writing?
                        && srv.returned == Some(Some(f.err))
                        && Expected(srv) == WholeTranscript(srv)
  {
    hide JoinAll;
    var h, t := JoinAll(srv.hdrLog), JoinAll(srv.trlLog);
    TranscriptWellFormed(h, srv.sentOk, t, if srv.returned.Some? then srv.returned.value else None);
    PrefixWellFormed(h, srv.sentOk, t);
    if srv.pc.Wrote? {
      hide HeaderFrames, DataFrames, TrailerFrames, ErrorFrames, WellFormed, JoinAll;
      WroteWellFormed(srv);
    } else {
      hide WellFormed;
    }
  }

  /** Headers, messages and trailers without an error. */
  lemma PrefixWellFormed(hdr: MD, ms: seq<Msg>, tlr: MD)
    ensures var sent := HeaderFrames(hdr) + DataFrames(ms);
            && WellFormed(sent) && WellFormed(sent + TrailerFrames(tlr))
            && (forall f :: f in sent + TrailerFrames(tlr) ==> !f.Error?)
            && (forall f :: f in sent ==> !f.Error?)
  {
    var all := HeaderFrames(hdr) + DataFrames(ms) + TrailerFrames(tlr);
    assert forall i, j :: 0 <= i < j < |all| ==> Rank(all[i]) < Rank(all[j]) || (all[i].Data? && all[j].Data?);
  }

  lemma WroteWellFormed(srv: Server)
    requires ServerOk(srv) && srv.pc.Wrote?
    ensures WellFormed(Expected(srv))
    ensures forall f :: f in Expected(srv) && f.Error? ==>
                        && PastTrailers(srv) && srv.returned == Some(Some(f.err))
                        && Expected(srv) == WholeTranscript(srv)
  {
    hide JoinAll;
  }

  // ----- The client's view -----

  function WantsMore(r: Receiver): bool {
    (r.pc.CReading? || r.pc.CTaken?) && r.pc.k.ForMore?
  }

  function WantsHeader(r: Receiver): bool {
    (r.pc.CReading? || r.pc.CTaken?) && r.pc.k.ForHeader?
  }

  /** The client's fields are those of the frames it accepted; a peeked frame is
      never there while a read is going on, so no read can overwrite it; and
      every successful Header returned the same metadata. */
  ghost predicate ViewInv(s: Sys) {
    var r := s.rcv;
    && WellFormed(r.accepted)
    && r.c.headers == HeadersOf(r.accepted)
    && r.c.trailers == TrailersOf(r.accepted)
    && Peeked(r.c)
    && (r.c.last.Some? ==> r.pc.CIdle?)
    && (r.c.state != InHeaders ==> r.accepted != [] || Drained(s))
    && (WantsHeader(r) ==> r.c.state == InHeaders)
    && (r.hdrs != [] ==> r.c.state != InHeaders)
    && (forall h :: h in r.hdrs ==> h == r.c.headers)
  }

  /** Steps that do not touch the receive side of the client. */
  ghost predicate LeavesClientAlone(step: Step) {
    !(step.CallHeader? || step.CallRecv? || step.ClientTakes? || step.ClientSeesCtx? || step.ClientChecks?)
  }

  lemma DrainedStays(s: Sys, step: Step)
    requires SendInv(s) && Drained(s) && Enabled(s, step)
    ensures Drained(Apply(s, step))
  {
    hide Expected, LiveInv, SetHeader, SendHeader, SetTrailer, SendMsg, AfterWrite,
         FinishFromHeaders, OnItem, BeginRecv, BeginHeader, ApplyRequest;
    if step.ServerPushes? || step.ServerCloses? {
      assert s.srv.pc.Idle?;
    }
  }

  lemma ViewStep(s: Sys, step: Step)
    requires SendInv(s) && TakenInv(s) && ViewInv(s) && Enabled(s, step)
    ensures ViewInv(Apply(s, step))
  {
    if LeavesClientAlone(step) {
      ViewStepElsewhere(s, step);
    } else if step.ClientChecks? && !s.ctx.cli && s.rcv.pc.item.Arrived? {
      ViewStepAccept(s);
    } else if step.ClientTakes? {
      ViewStepTake(s);
    } else {
      ViewStepNoFrame(s, step);
    }
  }

  lemma ViewStepTake(s: Sys)
    requires SendInv(s) && ViewInv(s) && Enabled(s, ClientTakes)
    ensures ViewInv(Apply(s, ClientTakes))
  {
    hide SendInv, WellFormed, HeadersOf, TrailersOf;
  }

  lemma ViewStepElsewhere(s: Sys, step: Step)
    requires SendInv(s) && ViewInv(s) && Enabled(s, step) && LeavesClientAlone(step)
    ensures ViewInv(Apply(s, step))
  {
    if Drained(s) {
      DrainedStays(s, step);
    }
    hide SendInv, Peeked, WellFormed, HeadersOf, TrailersOf, SetHeader, SendHeader, SetTrailer, SendMsg,
         AfterWrite, FinishFromHeaders, ApplyRequest;
  }

  lemma ViewStepNoFrame(s: Sys, step: Step)
    requires SendInv(s) && TakenInv(s) && ViewInv(s) && Enabled(s, step) && !LeavesClientAlone(step)
    requires step.ClientChecks? ==> s.ctx.cli || !s.rcv.pc.item.Arrived?
    requires !step.ClientTakes?
    ensures ViewInv(Apply(s, step))
  {
    hide SendInv, WellFormed, HeadersOf, TrailersOf;
  }

  lemma ViewStepAccept(s: Sys)
    requires s.rcv.pc.CTaken? && s.rcv.pc.item.Arrived? && !s.ctx.cli
    requires SendInv(s) && TakenInv(s) && ViewInv(s)
    ensures ViewInv(Apply(s, ClientChecks))
  {
    hide SendInv, HeadersOf, TrailersOf, WellFormed, Messages, Rank;
    var f := s.rcv.pc.item.frame;
    LiveGrammar(s);
    AppendFrame(s.rcv.accepted, f);
    if f.Headers? && s.rcv.accepted != [] {
      HeadersComeFirst(s.rcv.accepted, f);
    }
    var s' := Apply(s, ClientChecks);
    assert s'.rcv.accepted == s.rcv.accepted + [f];
  }

  lemma HeadersComeFirst(fs: seq<Frame>, f: Frame)
    requires f.Headers? && fs != []
    ensures !WellFormed(fs + [f])
  {
    var gs := fs + [f];
    var n := |fs|;
    assert !(Rank(gs[0]) < Rank(gs[n])) && !gs[n].Data?;
  }

  // ----- Outcomes of RecvMsg -----

  /** An outcome once returned binds every later one: errors from the server and
      the surplus-response error repeat; after the end or a context error there
      are no more messages. */
  ghost predicate Follows(o: Outcome, later: Outcome) {
    match o
    case Got(_) => true
    case End => later.End? || later.Cancelled?
    case Failed(_) => later == o
    case Cancelled => later.Cancelled?
  }

  ghost predicate Sticky(outs: seq<Outcome>) {
    forall i, j :: 0 <= i < j < |outs| ==> Follows(outs[i], outs[j])
  }

  /** What a past outcome still says about the present. */
  ghost predicate Backed(s: Sys, o: Outcome) {
    match o
    case Got(_) => true
    case End => s.rcv.c.last.None? && Drained(s) && !WantsMore(s.rcv)
    case Failed(e) => s.rcv.c.last.Some? && s.rcv.c.last.value.Error?
                      && TranslateContextError(s.rcv.c.last.value.err) == e
    case Cancelled => s.ctx.cli && s.rcv.c.last.None? && !WantsMore(s.rcv)
  }

  ghost predicate OutsInv(s: Sys) {
    && Sticky(s.rcv.outs)
    && forall o :: o in s.rcv.outs ==> Backed(s, o)
  }

  /** The outcome a step adds, if any. */
  ghost function Returned(s: Sys, step: Step): Option<Outcome>
    requires Enabled(s, step)
  {
    var s' := Apply(s, step);
    if |s'.rcv.outs| > |s.rcv.outs| then Some(s'.rcv.outs[|s'.rcv.outs| - 1]) else None
  }

  lemma OutsShape(s: Sys, step: Step)
    requires Enabled(s, step)
    ensures var s' := Apply(s, step);
            s'.rcv.outs == s.rcv.outs + (if Returned(s, step).Some? then [Returned(s, step).value] else [])
  {
    hide SetHeader, SendHeader, SetTrailer, SendMsg, AfterWrite, FinishFromHeaders, ApplyRequest,
         OnItem, BeginRecv, BeginHeader;
  }

  lemma BackedStep(s: Sys, step: Step, o: Outcome)
    requires SendInv(s) && TakenInv(s) && ViewInv(s) && Enabled(s, step)
    requires Backed(s, o)
    ensures Backed(Apply(s, step), o)
    ensures Returned(s, step).Some? ==> Follows(o, Returned(s, step).value)
  {
    if Drained(s) {
      DrainedStays(s, step);
    }
    hide SendInv, TakenInv, ViewInv, Backed, Follows, Apply, Returned, Drained;
    if LeavesClientAlone(step) {
      BackedElsewhere(s, step, o);
    } else if step.ClientChecks? {
      BackedCheck(s, o);
    } else {
      BackedCall(s, step, o);
    }
  }

  lemma BackedElsewhere(s: Sys, step: Step, o: Outcome)
    requires Enabled(s, step) && LeavesClientAlone(step) && Backed(s, o)
    requires Drained(s) ==> Drained(Apply(s, step))
    ensures Backed(Apply(s, step), o)
    ensures Returned(s, step).None?
  {
    hide SetHeader, SendHeader, SetTrailer, SendMsg, AfterWrite, FinishFromHeaders, ApplyRequest,
         TranslateContextError;
  }

  lemma BackedCall(s: Sys, step: Step, o: Outcome)
    requires ViewInv(s) && Enabled(s, step) && !LeavesClientAlone(step) && !step.ClientChecks? && Backed(s, o)
    requires Drained(s) ==> Drained(Apply(s, step))
    ensures Backed(Apply(s, step), o)
    ensures Returned(s, step).Some? ==> Follows(o, Returned(s, step).value)
  {
    hide WellFormed, HeadersOf, TrailersOf, TranslateContextError;
  }

  lemma BackedCheck(s: Sys, o: Outcome)
    requires TakenInv(s) && ViewInv(s) && s.rcv.pc.CTaken? && Backed(s, o)
    requires Drained(s) ==> Drained(Apply(s, ClientChecks))
    ensures Backed(Apply(s, ClientChecks), o)
    ensures Returned(s, ClientChecks).Some? ==> Follows(o, Returned(s, ClientChecks).value)
  {
    hide WellFormed, HeadersOf, TrailersOf, TranslateContextError;
  }

  lemma NewOutcomeBacked(s: Sys, step: Step)
    requires SendInv(s) && TakenInv(s) && ViewInv(s) && Enabled(s, step)
    requires Returned(s, step).Some?
    ensures Backed(Apply(s, step), Returned(s, step).value)
  {
    hide SendInv, WellFormed, HeadersOf, TrailersOf,
         SetHeader, SendHeader, SetTrailer, SendMsg, AfterWrite, FinishFromHeaders, ApplyRequest;
  }

  lemma OutsStep(s: Sys, step: Step)
    requires SendInv(s) && TakenInv(s) && ViewInv(s) && OutsInv(s) && Enabled(s, step)
    ensures OutsInv(Apply(s, step))
  {
    hide SendInv, TakenInv, ViewInv, Backed, Follows, Apply, Returned;
    var s' := Apply(s, step);
    OutsShape(s, step);
    forall o | o in s.rcv.outs
      ensures Backed(s', o) && (Returned(s, step).Some? ==> Follows(o, Returned(s, step).value))
    {
      BackedStep(s, step, o);
    }
    if Returned(s, step).Some? {
      NewOutcomeBacked(s, step);
    }
  }
}
