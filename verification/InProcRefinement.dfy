/** Runs without a cancellation refine a plain reading: in every interleaving the
    outcomes of RecvMsg are those of a client that reads the server's frames alone. */
module InProcRefinement {
  import opened Prelude
  import opened Metadata
  import opened InProcFrames
  import opened InProcClient
  import opened InProcStream
  import opened InProcSafety
  import opened InProcReceive
  import opened InProcRequests
  import opened InProcCalls
  import opened InProcTheorems

  // ----- The reference, outcome by outcome -----

  /** The frames ahead after n receives. */
  function Remaining(n: nat, ahead: seq<Frame>, unary: bool): seq<Frame> {
    if n == 0 then ahead else Remaining(n - 1, AheadAfter(ahead, unary), unary)
  }

  lemma {:induction false} OneMoreReceive(n: nat, ahead: seq<Frame>, unary: bool)
    ensures var left := Remaining(n, ahead, unary);
            && ReferenceOutcomes(n + 1, ahead, unary) == ReferenceOutcomes(n, ahead, unary) + [OutcomeOf(left, unary)]
            && Remaining(n + 1, ahead, unary) == AheadAfter(left, unary)
    decreases n
  {
    hide AheadAfter, OutcomeOf;
    if n > 0 {
      OneMoreReceive(n - 1, AheadAfter(ahead, unary), unary);
    }
  }

  lemma {:induction false} ReferenceLength(n: nat, ahead: seq<Frame>, unary: bool)
    ensures |ReferenceOutcomes(n, ahead, unary)| == n
  {
    hide AheadAfter, OutcomeOf;
    if n > 0 {
      ReferenceLength(n - 1, AheadAfter(ahead, unary), unary);
    }
  }

  lemma {:induction false} ReferencePrefix(n: nat, m: nat, ahead: seq<Frame>, unary: bool)
    requires n <= m
    ensures ReferenceOutcomes(n, ahead, unary) <= ReferenceOutcomes(m, ahead, unary)
    decreases m - n
  {
    hide AheadAfter, OutcomeOf;
    if n < m {
      OneMoreReceive(n, ahead, unary);
      ReferencePrefix(n + 1, m, ahead, unary);
    }
  }

  // ----- What the next receive has in front of it -----

  /** For a call that waits for k, or between calls: a message held for the second
      check, or a peeked frame, and then the frames to come. */
  function Front(c: Client, k: Option<ReadFor>, pending: seq<Frame>): seq<Frame> {
    if k.Some? && k.value.ForMore? then [Data(k.value.got)] + Strip(pending) else Ahead(c, pending)
  }

  /** A turn of the client agrees with the reference on what was in front of it. */
  ghost predicate Follows(t: Turn, front: seq<Frame>, rest: seq<Frame>, unary: bool) {
    match t
    case ReadAgain(c, k) => Front(c, Some(k), rest) == front
    case RecvReturns(c, o) => o == OutcomeOf(front, unary) && Front(c, None, rest) == AheadAfter(front, unary)
    case HeaderReturns(c, _) => Front(c, None, rest) == front
  }

  /** A frame that RecvMsg is sensitive to comes first in what is ahead; others vanish. */
  lemma KeepThen(f: Frame, tail: seq<Frame>)
    ensures if f.Data? || f.Error? then Keep(f) + tail == [f] + tail && ([f] + tail)[1..] == tail else Keep(f) + tail == tail
  {
  }

  lemma StripFirst(f: Frame, rest: seq<Frame>)
    ensures Strip([f] + rest) == Keep(f) + Strip(rest)
  {
    assert ([f] + rest)[1..] == rest;
  }

  lemma SecondFollows(c: Client, m: Msg, f: Frame, rest: seq<Frame>)
    requires c.last.None?
    ensures Follows(OnItemForMore(c, m, Arrived(f)), [Data(m)] + Strip([f] + rest), rest, true)
  {
    StripFirst(f, rest);
    KeepThen(f, Strip(rest));
    hide Strip, Keep;
    var front := [Data(m)] + Strip([f] + rest);
    assert front[1..] == Strip([f] + rest);
    assert f.Data? || f.Error? ==> front[1] == f && front[2..] == Strip(rest);
    KeepThen(Error(TOO_MANY), Strip(rest));
    KeepThen(f, Strip(rest));
    assert Ahead(c, rest) == [] + Strip(rest) == Strip(rest);
  }

  lemma FirstFollows(c: Client, k: ReadFor, f: Frame, rest: seq<Frame>, unary: bool)
    requires c.last.None? && !k.ForMore?
    ensures Follows(OnItem(c, k, Arrived(f), unary), Strip([f] + rest), rest, unary)
  {
    StripFirst(f, rest);
    KeepThen(f, Strip(rest));
    hide Strip;
    assert Ahead(c, rest) == [] + Strip(rest) == Strip(rest);
  }

  lemma ItemFollows(c: Client, k: ReadFor, f: Frame, rest: seq<Frame>, unary: bool)
    requires c.last.None? && (k.ForMore? ==> unary)
    ensures Follows(OnItem(c, k, Arrived(f), unary), Front(c, Some(k), [f] + rest), rest, unary)
  {
    hide Strip, Follows;
    if k.ForMore? {
      SecondFollows(c, k.got, f, rest);
    } else {
      assert [] + Strip([f] + rest) == Strip([f] + rest);
      FirstFollows(c, k, f, rest, unary);
    }
  }

  lemma EndFollows(c: Client, k: ReadFor, unary: bool)
    requires c.last.None? && (k.ForMore? ==> unary)
    ensures Follows(OnItem(c, k, ChannelClosed, unary), Front(c, Some(k), []), [], unary)
  {
    assert k.ForMore? ==> [Data(k.got)][1..] == [];
  }

  lemma CallFollows(c: Client, pending: seq<Frame>, unary: bool)
    requires Peeked(c)
    ensures Follows(BeginRecv(c, unary), Front(c, None, pending), pending, unary)
  {
    hide Strip;
    if c.last.Some? {
      var front := [c.last.value] + Strip(pending);
      assert front[1..] == Strip(pending);
    }
    assert [] + Strip(pending) == Strip(pending);
  }

  // ----- The invariant -----

  function WaitsFor(r: Receiver): Option<ReadFor> {
    match r.pc
    case CIdle => None
    case CReading(k) => Some(k)
    case CTaken(k, _) => Some(k)
  }

  /** Should the server go on to write fut, the outcomes so far are those of reading
      everything it wrote, and so is what is in front of the client. */
  ghost predicate ReadsAs(s: Sys, fut: seq<Frame>) {
    var all := Strip(s.ch.written + fut);
    && s.rcv.outs == ReferenceOutcomes(|s.rcv.outs|, all, s.unary)
    && Front(s.rcv.c, WaitsFor(s.rcv), InHand(s.rcv) + s.ch.buf + fut) == Remaining(|s.rcv.outs|, all, s.unary)
  }

  /** What the server can still write: nothing after closing. */
  ghost predicate CanFollow(s: Sys, fut: seq<Frame>) {
    s.ch.closed ==> fut == []
  }

  ghost predicate ReadInv(s: Sys) {
    !s.ctx.cli ==> forall fut :: CanFollow(s, fut) ==> ReadsAs(s, fut)
  }

  /** Resuming after a turn that follows the reference. */
  lemma ResumeReads(s: Sys, t: Turn, s': Sys, rest: seq<Frame>, fut: seq<Frame>)
    requires ReadsAs(s, fut)
    requires Follows(t, Front(s.rcv.c, WaitsFor(s.rcv), InHand(s.rcv) + s.ch.buf + fut), rest, s.unary)
    requires s'.unary == s.unary && s'.ch.written == s.ch.written
    requires InHand(s'.rcv) + s'.ch.buf + fut == rest
    requires exists r: Receiver :: r.outs == s.rcv.outs && s'.rcv == Resume(r, t)
    ensures ReadsAs(s', fut)
  {
    var all, n := Strip(s.ch.written + fut), |s.rcv.outs|;
    hide ReferenceOutcomes, Remaining, OutcomeOf, AheadAfter, Strip, InHand, Front;
    match t
    case ReadAgain(c, k) =>
      assert s'.rcv.outs == s.rcv.outs && s'.rcv.c == c && WaitsFor(s'.rcv) == Some(k);
    case HeaderReturns(c, h) =>
      assert s'.rcv.outs == s.rcv.outs && s'.rcv.c == c && WaitsFor(s'.rcv) == None;
    case RecvReturns(c, o) =>
      OneMoreReceive(n, all, s.unary);
      assert s'.rcv.outs == s.rcv.outs + [o] && s'.rcv.c == c && WaitsFor(s'.rcv) == None;
  }

  /** Looking at what was taken resumes the call with it. */
  lemma CheckIsResume(s: Sys) returns (r: Receiver)
    requires s.rcv.pc.CTaken? && !s.ctx.cli
    ensures var s' := Apply(s, ClientChecks);
            && r.outs == s.rcv.outs && s'.rcv == Resume(r, OnItem(s.rcv.c, s.rcv.pc.k, s.rcv.pc.item, s.unary))
            && InHand(s'.rcv) == [] && s'.ch == s.ch && s'.unary == s.unary
  {
    hide OnItem;
    r := if s.rcv.pc.item.Arrived? then s.rcv.(accepted := s.rcv.accepted + [s.rcv.pc.item.frame]) else s.rcv;
  }

  /** What was in hand and behind it, for the call that waits. */
  lemma TakenFollows(s: Sys, rest: seq<Frame>, fut: seq<Frame>)
    requires s.rcv.pc.CTaken? && TakenInv(s) && ViewInv(s) && MessagesInv(s) && CanFollow(s, fut)
    requires rest == s.ch.buf + fut
    ensures Follows(OnItem(s.rcv.c, s.rcv.pc.k, s.rcv.pc.item, s.unary),
                    Front(s.rcv.c, WaitsFor(s.rcv), InHand(s.rcv) + s.ch.buf + fut), rest, s.unary)
  {
    var k, item := s.rcv.pc.k, s.rcv.pc.item;
    assert s.rcv.c.last.None? && (k.ForMore? ==> s.unary);
    hide OnItem, Strip, ReferenceOutcomes, Remaining, OutcomeOf, AheadAfter, Follows, Front, MessagesInv, ViewInv;
    if item.Arrived? {
      assert InHand(s.rcv) + s.ch.buf + fut == [item.frame] + rest;
      ItemFollows(s.rcv.c, k, item.frame, rest, s.unary);
    } else {
      assert InHand(s.rcv) + s.ch.buf + fut == [] == rest;
      EndFollows(s.rcv.c, k, s.unary);
    }
  }

  lemma CheckReads(s: Sys, fut: seq<Frame>)
    requires s.rcv.pc.CTaken? && TakenInv(s) && ViewInv(s) && MessagesInv(s) && !s.ctx.cli
    requires CanFollow(s, fut) && ReadsAs(s, fut)
    ensures ReadsAs(Apply(s, ClientChecks), fut)
  {
    var s', rest := Apply(s, ClientChecks), s.ch.buf + fut;
    var r := CheckIsResume(s);
    TakenFollows(s, rest, fut);
    hide Apply, OnItem, Resume, Follows, Front, ReadsAs, TakenInv, ViewInv, MessagesInv, InHand, WaitsFor;
    assert [] + s.ch.buf + fut == rest;
    ResumeReads(s, OnItem(s.rcv.c, s.rcv.pc.k, s.rcv.pc.item, s.unary), s', rest, fut);
  }

  lemma CallReads(s: Sys, step: Step, fut: seq<Frame>)
    requires Enabled(s, step) && (step.CallRecv? || step.CallHeader?) && ViewInv(s) && ReadsAs(s, fut)
    ensures ReadsAs(Apply(s, step), fut)
  {
    CallMoves(s, step);
    hide Apply, Enabled, ViewInv;
    if step.CallRecv? {
      RecvCallReads(s, Apply(s, step), fut);
    } else {
      HeaderCallReads(s, Apply(s, step), fut);
    }
  }

  lemma CallMoves(s: Sys, step: Step)
    requires Enabled(s, step) && (step.CallRecv? || step.CallHeader?) && ViewInv(s)
    ensures var s' := Apply(s, step);
            && s.rcv.pc.CIdle? && Peeked(s.rcv.c)
            && s'.unary == s.unary && s'.ch == s.ch
            && InHand(s.rcv) == InHand(s'.rcv) == []
            && (step.CallRecv? ==> s'.rcv == Resume(s.rcv, BeginRecv(s.rcv.c, s.unary)))
            && (step.CallHeader? ==> s'.rcv.outs == s.rcv.outs && s'.rcv.c == s.rcv.c
                                     && WaitsFor(s'.rcv) in {None, Some(ForHeader)})
  {
    hide WellFormed, HeadersOf, TrailersOf, Drained;
  }

  lemma HeaderCallReads(s: Sys, s': Sys, fut: seq<Frame>)
    requires s.rcv.pc.CIdle? && ReadsAs(s, fut)
    requires s'.unary == s.unary && s'.ch == s.ch && s'.rcv.outs == s.rcv.outs && s'.rcv.c == s.rcv.c
    requires InHand(s.rcv) == InHand(s'.rcv) == [] && WaitsFor(s'.rcv) in {None, Some(ForHeader)}
    ensures ReadsAs(s', fut)
  {
    hide Strip, ReferenceOutcomes, Remaining, InHand;
  }

  lemma RecvCallReads(s: Sys, s': Sys, fut: seq<Frame>)
    requires s.rcv.pc.CIdle? && Peeked(s.rcv.c) && ReadsAs(s, fut)
    requires s'.unary == s.unary && s'.ch == s.ch && s'.rcv == Resume(s.rcv, BeginRecv(s.rcv.c, s.unary))
    requires InHand(s.rcv) == InHand(s'.rcv) == []
    ensures ReadsAs(s', fut)
  {
    var rest := s.ch.buf + fut;
    hide Strip, ReferenceOutcomes, Remaining, OutcomeOf, AheadAfter;
    assert [] + s.ch.buf + fut == rest;
    CallFollows(s.rcv.c, rest, s.unary);
    hide BeginRecv, Follows;
    ResumeReads(s, BeginRecv(s.rcv.c, s.unary), s', rest, fut);
  }

  /** Steps that neither return an outcome nor change what is ahead. */
  lemma SameReads(s: Sys, s': Sys, fut: seq<Frame>)
    requires ReadsAs(s, fut)
    requires s'.unary == s.unary && s'.ch.written == s.ch.written && s'.rcv.outs == s.rcv.outs
    requires s'.rcv.c == s.rcv.c && WaitsFor(s'.rcv) == WaitsFor(s.rcv)
    requires InHand(s'.rcv) + s'.ch.buf == InHand(s.rcv) + s.ch.buf
    ensures ReadsAs(s', fut)
  {
    hide Strip, ReferenceOutcomes, Remaining, Front, InHand, WaitsFor;
  }

  lemma TakeMoves(s: Sys)
    requires Enabled(s, ClientTakes)
    ensures var s' := Apply(s, ClientTakes);
            && s'.unary == s.unary && s'.ch.written == s.ch.written && s'.rcv.outs == s.rcv.outs
            && s'.rcv.c == s.rcv.c && WaitsFor(s'.rcv) == WaitsFor(s.rcv)
            && InHand(s'.rcv) + s'.ch.buf == InHand(s.rcv) + s.ch.buf
  {
  }

  lemma TakeReads(s: Sys, fut: seq<Frame>)
    requires Enabled(s, ClientTakes) && ReadsAs(s, fut)
    ensures ReadsAs(Apply(s, ClientTakes), fut)
  {
    hide ReadsAs, Apply, InHand, WaitsFor;
    TakeMoves(s);
    SameReads(s, Apply(s, ClientTakes), fut);
  }

  lemma PushMoves(s: Sys)
    requires Enabled(s, ServerPushes) && !s.ch.closed
    ensures var s', f := Apply(s, ServerPushes), s.srv.pc.f;
            && s'.unary == s.unary && s'.rcv == s.rcv
            && s'.ch.written == s.ch.written + [f] && s'.ch.buf == s.ch.buf + [f]
  {
  }

  lemma PushReads(s: Sys, fut: seq<Frame>)
    requires Enabled(s, ServerPushes) && !s.ch.closed && ReadsAs(s, [s.srv.pc.f] + fut)
    ensures ReadsAs(Apply(s, ServerPushes), fut)
  {
    var f, s' := s.srv.pc.f, Apply(s, ServerPushes);
    PushMoves(s);
    hide Apply, Enabled, Strip, ReferenceOutcomes, Remaining, Front, InHand, WaitsFor;
    assert s'.ch.written + fut == s.ch.written + ([f] + fut);
    assert InHand(s.rcv) + s'.ch.buf + fut == InHand(s.rcv) + s.ch.buf + ([f] + fut);
  }

  lemma ElsewhereReads(s: Sys, step: Step, fut: seq<Frame>)
    requires Enabled(s, step) && LeavesClientAlone(step) && !step.ServerPushes? && ReadsAs(s, fut)
    ensures ReadsAs(Apply(s, step), fut)
  {
    var s' := Apply(s, step);
    assert s'.rcv == s.rcv && s'.unary == s.unary && s'.ch.written == s.ch.written && s'.ch.buf == s.ch.buf by {
      hide SetHeader, SendHeader, SetTrailer, SendMsg, AfterWrite, FinishFromHeaders, ApplyRequest;
    }
    hide Apply, Enabled, ReadsAs, InHand, WaitsFor;
    SameReads(s, s', fut);
  }

  lemma ReadStep(s: Sys, step: Step)
    requires Inv(s) && ReadInv(s) && Enabled(s, step)
    ensures ReadInv(Apply(s, step))
  {
    var s' := Apply(s, step);
    ContextStays(s, step);
    if !s'.ctx.cli {
      forall fut | CanFollow(s', fut) ensures ReadsAs(s', fut) {
        StepReads(s, step, fut);
      }
    }
  }

  lemma ContextStays(s: Sys, step: Step)
    requires SendInv(s) && Enabled(s, step)
    ensures s.ctx.cli ==> Apply(s, step).ctx.cli
    ensures s.ch.closed ==> Apply(s, step).ch.closed
    ensures step.ServerPushes? ==> !s.ch.closed
  {
    hide LiveInv, ServerOk, SetHeader, SendHeader, SetTrailer, SendMsg, AfterWrite, FinishFromHeaders, ApplyRequest,
         Resume, CheckTaken;
  }

  lemma StepReads(s: Sys, step: Step, fut: seq<Frame>)
    requires Inv(s) && ReadInv(s) && Enabled(s, step)
    requires !Apply(s, step).ctx.cli && CanFollow(Apply(s, step), fut)
    ensures ReadsAs(Apply(s, step), fut)
  {
    hide SendInv, TakenInv, ViewInv, OutsInv, MessagesInv, EndInv, ReqInv, ReadsAs;
    ContextStays(s, step);
    if step.ServerPushes? {
      hide Apply, Enabled;
      assert CanFollow(s, [s.srv.pc.f] + fut);
      PushReads(s, fut);
    } else {
      assert CanFollow(s, fut) && ReadsAs(s, fut);
      if LeavesClientAlone(step) {
        ElsewhereReads(s, step, fut);
      } else if step.ClientTakes? {
        TakeReads(s, fut);
      } else if step.ClientChecks? {
        CheckReads(s, fut);
      } else {
        CallReads(s, step, fut);
      }
    }
  }

  lemma InitReads(unary: bool)
    ensures ReadInv(Init(unary))
  {
    hide Strip;
    forall fut ensures ReadsAs(Init(unary), fut) {
      assert [] + [] + fut == fut;
      assert [] + Strip(fut) == Strip(fut);
    }
  }

  lemma {:induction false} ReadReachable(s: Sys, steps: seq<Step>, s': Sys)
    requires Inv(s) && ReadInv(s) && IsRun(s, steps, s')
    ensures Inv(s') && ReadInv(s')
    decreases |steps|
  {
    hide Inv, ReadInv, Apply, Enabled;
    if steps != [] {
      InvStep(s, steps[0]);
      ReadStep(s, steps[0]);
      ReadReachable(Apply(s, steps[0]), steps[1..], s');
    }
  }

  // ----- What follows for runs -----

  /** In every uncancelled run, whatever the server goes on to write: the outcomes of
      RecvMsg are those of reading all its frames one after the other, with Header
      called any number of times. */
  lemma RunsReadTheFrames(unary: bool, steps: seq<Step>, s: Sys, fut: seq<Frame>)
    requires IsRun(Init(unary), steps, s) && !s.ctx.cli && CanFollow(s, fut)
    ensures s.rcv.outs == ReferenceOutcomes(|s.rcv.outs|, Strip(s.ch.written + fut), unary)
  {
    InitInv(unary);
    InitReads(unary);
    ReadReachable(Init(unary), steps, s);
    RunKeepsUnary(Init(unary), steps, s);
    assert ReadsAs(s, fut);
  }

  lemma {:induction false} RunKeepsUnary(s: Sys, steps: seq<Step>, s': Sys)
    requires IsRun(s, steps, s')
    ensures s'.unary == s.unary
    decreases |steps|
  {
    hide Apply, Enabled;
    if steps != [] {
      UnaryStays(s, steps[0]);
      RunKeepsUnary(Apply(s, steps[0]), steps[1..], s');
    }
  }

  /** Peek transparency over every interleaving: two uncancelled runs in which the
      server writes the same frames, or one goes on where the other stands, agree on
      the outcomes both have, wherever Header is called. */
  lemma PeekTransparentRuns(unary: bool, steps: seq<Step>, s: Sys, steps': seq<Step>, s': Sys)
    requires IsRun(Init(unary), steps, s) && IsRun(Init(unary), steps', s') && !s.ctx.cli && !s'.ctx.cli
    requires s.ch.written <= s'.ch.written && (s.ch.closed ==> s'.ch.written == s.ch.written)
    ensures s.rcv.outs <= s'.rcv.outs || s'.rcv.outs <= s.rcv.outs
  {
    var fut := s'.ch.written[|s.ch.written|..];
    assert s.ch.written + fut == s'.ch.written == s'.ch.written + [];
    hide IsRun, Strip, ReferenceOutcomes;
    RunsReadTheFrames(unary, steps, s, fut);
    RunsReadTheFrames(unary, steps', s', []);
    var all := Strip(s'.ch.written);
    if |s.rcv.outs| <= |s'.rcv.outs| {
      ReferencePrefix(|s.rcv.outs|, |s'.rcv.outs|, all, unary);
    } else {
      ReferencePrefix(|s'.rcv.outs|, |s.rcv.outs|, all, unary);
    }
  }

  // ----- Unary responses -----

  function ErrorIn(fs: seq<Frame>): Option<Err> {
    if fs != [] && fs[|fs| - 1].Error? then Some(fs[|fs| - 1].err) else None
  }

  lemma {:induction false} StripWellFormed(fs: seq<Frame>)
    requires WellFormed(fs)
    ensures Strip(fs) == DataFrames(Messages(fs)) + ErrorFrames(ErrorIn(fs))
  {
    if fs != [] {
      var n := |fs| - 1;
      var front, f := fs[..n], fs[n];
      assert fs == front + [f];
      assert front != [] ==> !front[|front| - 1].Error?;
      StripWellFormed(front);
      hide WellFormed, Strip, Messages, DataFrames;
      StripConcat(front, [f]);
      StripOne(f);
      AppendFrame(front, f);
      hide HeadersOf, TrailersOf;
      assert DataFrames(Messages(front)) + [] == DataFrames(Messages(front));
      assert Messages(front) + [] == Messages(front);
      if f.Data? {
        OneMoreData(Messages(front), f.msg);
      }
    } else {
      hide WellFormed;
    }
  }

  lemma OneMoreData(ms: seq<Msg>, m: Msg)
    ensures DataFrames(ms + [m]) == DataFrames(ms) + [Data(m)]
  {
  }

  /** What the first RecvMsg makes of ms messages and then e. */
  function Verdict(ms: seq<Msg>, e: Option<Err>): Outcome {
    if |ms| == 1 then Got(ms[0])
    else if |ms| > 1 then Failed(TOO_MANY)
    else if e.Some? then Failed(TranslateContextError(e.value))
    else End
  }

  lemma VerdictMeans(ms: seq<Msg>, e: Option<Err>)
    ensures OutcomeOf(DataFrames(ms) + ErrorFrames(e), true) == Verdict(ms, e)
  {
  }

  const SURPLUS := "method should return 1 response message but server sent >1"

  lemma ShownInVerdict(l: Calls)
    ensures |l.sends| > 1 ==> forall e :: Verdict(l.sends, e) == Failed(Status(13, SURPLUS))
    ensures l.returned.Some? && l.returned.value.Some? && l.sends == [] ==>
              var o := Verdict(l.sends, l.returned.value);
              o.Failed? && ShownAs(l.returned.value.value, o.err)
  {
    if l.returned.Some? && l.returned.value.Some? {
      Shown(l.returned.value.value);
    }
  }

  /** The first RecvMsg of a unary response, in every uncancelled interleaving: by the
      frames written so far, and once the call is over by what the handler's
      SendMsg calls were given and the handler returned. With one message the call succeeds even if
      the handler failed, with more it fails for having too many, and the handler's
      failure is reported exactly if no message was sent. */
  lemma UnaryOutcomeInRuns(steps: seq<Step>, s: Sys)
    requires IsRun(Init(true), steps, s) && !s.ctx.cli && s.rcv.outs != []
    ensures s.rcv.outs[0] == Verdict(Messages(s.ch.written), ErrorIn(s.ch.written))
    ensures var l := Made(true, steps);
            s.ch.closed ==>
              && l.returned.Some? && s.rcv.outs[0] == Verdict(l.sends, l.returned.value)
              && (|l.sends| > 1 ==> s.rcv.outs[0] == Failed(Status(13, SURPLUS)))
              && (l.sends == [] && l.returned.value.Some? ==>
                    s.rcv.outs[0].Failed? && ShownAs(l.returned.value.value, s.rcv.outs[0].err))
  {
    ShownInVerdict(Made(true, steps));
    RunsReadTheFrames(true, steps, s, []);
    Reachable(true, steps, s);
    SentAsAsked(true, steps, s);
    assert s.ch.closed ==> InProgress(s.srv) == [];
    assert s.srv.sentOk + [] == s.srv.sentOk;
    hide Made, Subseq;
    ExpectedWellFormed(s.srv);
    hide IsRun, WellFormed, Expected, TakenInv, ViewInv, OutsInv, MessagesInv, EndInv, ReqInv, Messages, Strip;
    assert s.ch.written + [] == s.ch.written;
    StripWellFormed(s.ch.written);
    VerdictMeans(Messages(s.ch.written), ErrorIn(s.ch.written));
    if s.ch.closed {
      ClosedSaysAll(s.srv);
    }
  }

  lemma ClosedSaysAll(srv: Server)
    requires ServerOk(srv) && IsClosed(srv)
    ensures srv.returned.Some?
    ensures Messages(Expected(srv)) == srv.sentOk && ErrorIn(Expected(srv)) == srv.returned.value
  {
    TranscriptContents(JoinAll(srv.hdrLog), srv.sentOk, JoinAll(srv.trlLog), srv.returned.value);
    LastIsError(JoinAll(srv.hdrLog), srv.sentOk, JoinAll(srv.trlLog), srv.returned.value);
    hide JoinAll, Messages, HeadersOf, TrailersOf, Transcript, ErrorIn;
  }

  lemma LastIsError(hdr: MD, ms: seq<Msg>, tlr: MD, e: Option<Err>)
    ensures ErrorIn(Transcript(hdr, ms, tlr, e)) == e
  {
  }
}
