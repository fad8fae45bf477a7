/** A unary in-process call: the handler's goroutine writes its frames to a
    channel of capacity one while the caller's loop reads them, and the context
    may be cancelled at any moment. */
module InProcInvoke {
  import opened Prelude
  import opened Metadata
  import opened InProcFrames

  const NO_REPLY := Status(CODE_INTERNAL, "handler returned neither error nor response message")

  /** The metadata a unary handler accumulates; the logs record what was accepted. */
  datatype Transport = Transport(hdrs: MD, hdrsSent: bool, tlrs: MD, tlrsSent: bool,
                                 hdrLog: seq<MD>, tlrLog: seq<MD>)

  /** The handler's goroutine: in the handler, with frames left to write, or over. */
  datatype HandlerPc = Running | Sending(rest: seq<Frame>) | Finished

  /** How Invoke can return. */
  datatype Result =
    | Success
    | Failure(err: Err)        // from an error frame
    | NoResponse               // io.EOF: the channel closed without a response
    | Unexpected               // a second response message
    | Interrupted              // the context's error

  datatype CallerPc = Looping(gotResponse: bool) | Returned(r: Result)

  /** The handler's side: its metadata, its position, and what it returned. */
  datatype Handler = Handler(ts: Transport, pc: HandlerPc, outcome: Option<(Option<Msg>, Option<Err>)>)

  /** The channel, with the frames taken out of it so far. */
  datatype Chan = Chan(read: seq<Frame>, buf: seq<Frame>, closed: bool)

  /** The caller's side: its position, the response, and the call options. */
  datatype Caller = Caller(pc: CallerPc, resp: Option<Msg>, hdrOpt: Option<MD>, tlrOpt: Option<MD>)

  datatype Call = Call(cli: bool, svr: bool,   // the caller's context, the handler's context
                       hnd: Handler, ch: Chan, cal: Caller)

  function Init(): Call {
    Call(false, false,
         Handler(Transport(map[], false, map[], false, [], []), Running, None),
         Chan([], [], false),
         Caller(Looping(false), None, None, None))
  }

  /** The error the caller is to see: the handler's, or one for a missing reply. */
  function CallError(v: Option<Msg>, e: Option<Err>): Option<Err> {
    if e.None? && v.None? then Some(NO_REPLY) else e
  }

  /** The frames of the call, in the order they are written. */
  function Plan(ts: Transport, v: Option<Msg>, e: Option<Err>): seq<Frame> {
    HeaderFrames(ts.hdrs)
    + BodyFrames(v, e)
    + TrailerFrames(ts.tlrs)
    + ErrorFrames(CallError(v, e))
  }

  function SetHeader(ts: Transport, md: MD): Transport {
    if ts.hdrsSent then ts else ts.(hdrs := Join(ts.hdrs, md), hdrLog := ts.hdrLog + [md])
  }

  function SendHeader(ts: Transport, md: MD): Transport {
    if ts.hdrsSent then ts else SetHeader(ts, md).(hdrsSent := true)
  }

  function SetTrailer(ts: Transport, md: MD): Transport {
    if ts.tlrsSent then ts else ts.(tlrs := Join(ts.tlrs, md), tlrLog := ts.tlrLog + [md])
  }

  datatype Step =
    | Cancel | ReachHandler
    | DoSetHeader(md: MD) | DoSendHeader(md: MD) | DoSetTrailer(md: MD)
    | HandlerReturns(v: Option<Msg>, e: Option<Err>)
    | Push | Skip | CloseChannel
    | Take | SeeCtx

  const CAPACITY := 1

  ghost predicate Enabled(c: Call, step: Step) {
    match step
    case Cancel => true
    case ReachHandler => c.cli || c.cal.pc.Returned?      // the deferred cancel of Invoke
    case DoSetHeader(_) => c.hnd.pc.Running?
    case DoSendHeader(_) => c.hnd.pc.Running?
    case DoSetTrailer(_) => c.hnd.pc.Running?
    case HandlerReturns(_, _) => c.hnd.pc.Running?
    case Push => c.hnd.pc.Sending? && c.hnd.pc.rest != [] && |c.ch.buf| < CAPACITY
    case Skip => c.hnd.pc.Sending? && c.hnd.pc.rest != [] && c.svr
    case CloseChannel => c.hnd.pc == Sending([])
    case Take => c.cal.pc.Looping? && (c.ch.buf != [] || c.ch.closed)
    case SeeCtx => c.cal.pc.Looping? && c.cli
  }

  ghost function Apply(c: Call, step: Step): Call
    requires Enabled(c, step)
  {
    var h := c.hnd;
    match step
    case Cancel => c.(cli := true)
    case ReachHandler => c.(svr := true)
    case DoSetHeader(md) => c.(hnd := h.(ts := SetHeader(h.ts, md)))
    case DoSendHeader(md) => c.(hnd := h.(ts := SendHeader(h.ts, md)))
    case DoSetTrailer(md) => c.(hnd := h.(ts := SetTrailer(h.ts, md)))
    case HandlerReturns(v, e) => c.(hnd := h.(outcome := Some((v, e)), pc := Sending(Plan(h.ts, v, e))))
    case Push =>
      c.(ch := c.ch.(buf := c.ch.buf + [h.pc.rest[0]]), hnd := h.(pc := Sending(h.pc.rest[1..])))
    case Skip => c.(hnd := h.(pc := Sending(h.pc.rest[1..])))
    case CloseChannel =>
      c.(hnd := h.(pc := Finished, ts := h.ts.(hdrsSent := true, tlrsSent := true)), ch := c.ch.(closed := true))
    case Take =>
      if c.ch.buf == [] then c.(cal := OnClosed(c.cal))
      else c.(ch := TakeOne(c.ch), cal := Consume(c.cal, c.ch.buf[0]))
    case SeeCtx => c.(cal := c.cal.(pc := Returned(Interrupted)))
  }

  function TakeOne(ch: Chan): Chan
    requires ch.buf != []
  {
    ch.(buf := ch.buf[1..], read := ch.read + [ch.buf[0]])
  }

  function OnClosed(cal: Caller): Caller
    requires cal.pc.Looping?
  {
    cal.(pc := Returned(if cal.pc.gotResponse then Success else NoResponse))
  }

  /** The caller's reaction to a frame; it does not look at its context here. */
  function Consume(cal: Caller, f: Frame): Caller
    requires cal.pc.Looping?
  {
    match f
    case Error(e) => cal.(pc := Returned(Failure(e)))
    case Data(m) => if cal.pc.gotResponse then cal.(pc := Returned(Unexpected))
                    else cal.(pc := Looping(true), resp := Some(m))
    case Headers(md) => cal.(hdrOpt := Some(md))
    case Trailers(md) => cal.(tlrOpt := Some(md))
  }

  ghost predicate IsRun(c: Call, steps: seq<Step>, c': Call)
    decreases |steps|
  {
    if steps == [] then c == c'
    else Enabled(c, steps[0]) && IsRun(Apply(c, steps[0]), steps[1..], c')
  }

  // ----- The plan -----

  /** What a list of at most one frame adds. */
  lemma OptAdd(fs: seq<Frame>, more: seq<Frame>)
    requires |more| <= 1
    ensures more == [] ==> fs + more == fs
    ensures more != [] ==>
              var f := more[0];
              && OptHeaders(fs + more) == (if f.Headers? then Some(f.md) else OptHeaders(fs))
              && OptTrailers(fs + more) == (if f.Trailers? then Some(f.tlr) else OptTrailers(fs))
              && Messages(fs + more) == Messages(fs) + (if f.Data? then [f.msg] else [])
  {
    if more != [] {
      assert more == [more[0]];
      OptAppend(fs, more[0]);
      AppendFrame(fs, more[0]);
    }
  }

  function NonEmpty(md: MD): Option<MD> {
    if |md| > 0 then Some(md) else None
  }

  function BodyFrames(v: Option<Msg>, e: Option<Err>): seq<Frame> {
    if e.None? && v.Some? then [Data(v.value)] else []
  }

  /** The message the call is to deliver, if it succeeds. */
  function Reply(v: Option<Msg>, e: Option<Err>): seq<Msg> {
    if e.None? && v.Some? then [v.value] else []
  }

  /** Read in full, the plan says exactly what the handler did. */
  lemma PlanContents(ts: Transport, v: Option<Msg>, e: Option<Err>)
    ensures var p := Plan(ts, v, e);
            && OptHeaders(p) == NonEmpty(ts.hdrs)
            && OptTrailers(p) == NonEmpty(ts.tlrs)
            && Messages(p) == Reply(v, e)
  {
    var h, d := HeaderFrames(ts.hdrs), BodyFrames(v, e);
    var t, x := TrailerFrames(ts.tlrs), ErrorFrames(CallError(v, e));
    EmptyOpts();
    hide OptHeaders, OptTrailers, Messages;
    OptAdd([], h);
    assert [] + h == h;
    OptAdd(h, d);
    OptAdd(h + d, t);
    OptAdd(h + d + t, x);
  }

  lemma EmptyOpts()
    ensures OptHeaders([]) == None && OptTrailers([]) == None && Messages([]) == []
  {
  }

  /** The error, if any, is the last frame. */
  lemma PlanShape(ts: Transport, v: Option<Msg>, e: Option<Err>)
    ensures var p := Plan(ts, v, e);
            && (forall i :: 0 <= i < |p| && p[i].Error? ==> i == |p| - 1 && CallError(v, e) == Some(p[i].err))
            && (CallError(v, e).Some? ==> p != [] && p[|p| - 1].Error?)
  {
  }

  // ----- What every step keeps -----

  ghost function ThePlan(h: Handler): seq<Frame> {
    if h.outcome.Some? then Plan(h.ts, h.outcome.value.0, h.outcome.value.1) else []
  }

  ghost function TheReply(h: Handler): seq<Msg> {
    if h.outcome.Some? then Reply(h.outcome.value.0, h.outcome.value.1) else []
  }

  ghost function Rest(h: Handler): seq<Frame> {
    if h.pc.Sending? then h.pc.rest else []
  }

  /** Every frame that entered the channel. */
  function Passed(ch: Chan): seq<Frame> {
    ch.read + ch.buf
  }

  ghost predicate LifeInv(c: Call) {
    && c.hnd.ts.hdrs == JoinAll(c.hnd.ts.hdrLog) && c.hnd.ts.tlrs == JoinAll(c.hnd.ts.tlrLog)
    && (c.hnd.pc.Running? <==> c.hnd.outcome.None?)
    && (c.ch.closed <==> c.hnd.pc.Finished?)
    && (c.svr ==> c.cli || c.cal.pc.Returned?)
    && |c.ch.buf| <= CAPACITY
    && (c.hnd.pc.Running? ==> Passed(c.ch) == [])
  }

  /** The reply enters the channel at most once. */
  ghost predicate ReplyInv(h: Handler, passed: seq<Frame>) {
    && (Messages(passed) == [] || (Messages(passed) == TheReply(h) && Messages(Rest(h)) == []))
    && (Messages(Rest(h)) == [] || Messages(Rest(h)) == TheReply(h))
  }

  ghost predicate CallerInv(cal: Caller, read: seq<Frame>) {
    match cal.pc
    case Looping(got) => Messages(read) == (if got then OptSeq(cal.resp) else []) && (got ==> cal.resp.Some?)
    case Returned(r) => r != Unexpected && (r == Success ==> cal.resp.Some? && Messages(read) == [cal.resp.value])
  }

  function OptSeq(m: Option<Msg>): seq<Msg> {
    if m.Some? then [m.value] else []
  }

  /** While the caller's context is live nothing of the plan is skipped, and the
      call returns exactly what the plan says. */
  ghost predicate LiveInv(c: Call) {
    !c.cli ==> if c.cal.pc.Looping? then Pending(c) else Exact(c)
  }

  ghost predicate Pending(c: Call) {
    && Passed(c.ch) + Rest(c.hnd) == ThePlan(c.hnd)
    && Observes(c.cal, c.ch.read)
  }

  ghost predicate Observes(cal: Caller, read: seq<Frame>) {
    && cal.hdrOpt == OptHeaders(read)
    && cal.tlrOpt == OptTrailers(read)
    && forall i :: 0 <= i < |read| ==> !read[i].Error?
  }

  ghost predicate Exact(c: Call) {
    ExactFor(c.cal, c.hnd)
  }

  ghost predicate ExactFor(cal: Caller, h: Handler) {
    && h.outcome.Some? && cal.pc.Returned?
    && cal.hdrOpt == NonEmpty(h.ts.hdrs)
    && cal.tlrOpt == NonEmpty(h.ts.tlrs)
    && var (v, e) := h.outcome.value;
       match CallError(v, e)
       case Some(err) => cal.pc.r == Failure(err)
       case None => cal.pc.r == Success && cal.resp == v
  }

  ghost predicate Inv(c: Call) {
    LifeInv(c) && ReplyInv(c.hnd, Passed(c.ch)) && CallerInv(c.cal, c.ch.read) && LiveInv(c)
  }

  lemma {:induction false} MessagesConcat(a: seq<Frame>, b: seq<Frame>)
    ensures Messages(a + b) == Messages(a) + Messages(b)
  {
    hide HeadersOf, TrailersOf;
    if b == [] {
      assert a + b == a;
    } else {
      var n := |b| - 1;
      var c, f := b[..n], b[n];
      assert b == c + [f];
      MessagesConcat(a, c);
      assert a + b == (a + c) + [f];
      AppendFrame(a + c, f);
      AppendFrame(c, f);
      hide Messages;
    }
  }

  lemma OneMessage(f: Frame)
    ensures Messages([f]) == if f.Data? then [f.msg] else []
  {
    AppendFrame([], f);
    assert [] + [f] == [f];
  }

  // The channel.

  lemma PushPasses(ch: Chan, rest: seq<Frame>)
    requires rest != []
    ensures var ch' := ch.(buf := ch.buf + [rest[0]]);
            Passed(ch') == Passed(ch) + [rest[0]] && Passed(ch') + rest[1..] == Passed(ch) + rest
  {
  }

  lemma TakePasses(ch: Chan)
    requires ch.buf != [] && |ch.buf| <= CAPACITY
    ensures Passed(TakeOne(ch)) == Passed(ch) == TakeOne(ch).read == ch.read + [ch.buf[0]]
  {
  }

  /** Dropping the first frame left, whether it was pushed or skipped. */
  lemma NextFrame(rest: seq<Frame>, reply: seq<Msg>)
    requires rest != [] && |reply| <= 1 && (Messages(rest) == [] || Messages(rest) == reply)
    ensures Messages(rest[1..]) == [] || Messages(rest[1..]) == reply
    ensures rest[0].Data? ==> Messages(rest) == reply == [rest[0].msg] && Messages(rest[1..]) == []
    ensures Messages(rest) == [] ==> Messages(rest[1..]) == []
  {
    assert rest == [rest[0]] + rest[1..];
    MessagesConcat([rest[0]], rest[1..]);
    OneMessage(rest[0]);
    hide Messages;
  }

  lemma PushReply(h: Handler, passed: seq<Frame>)
    requires ReplyInv(h, passed) && h.pc.Sending? && h.pc.rest != []
    ensures ReplyInv(h.(pc := Sending(h.pc.rest[1..])), passed + [h.pc.rest[0]])
  {
    NextFrame(h.pc.rest, TheReply(h));
    AppendFrame(passed, h.pc.rest[0]);
    hide Messages, HeadersOf, TrailersOf;
  }

  lemma SkipReply(h: Handler, passed: seq<Frame>)
    requires ReplyInv(h, passed) && h.pc.Sending? && h.pc.rest != []
    ensures ReplyInv(h.(pc := Sending(h.pc.rest[1..])), passed)
  {
    NextFrame(h.pc.rest, TheReply(h));
    hide Messages;
  }

  // The caller.

  lemma ConsumeCaller(cal: Caller, read: seq<Frame>, f: Frame)
    requires cal.pc.Looping? && CallerInv(cal, read) && |Messages(read + [f])| <= 1
    ensures CallerInv(Consume(cal, f), read + [f])
  {
    AppendFrame(read, f);
    hide Messages, HeadersOf, TrailersOf;
  }

  lemma ConsumeObserves(cal: Caller, read: seq<Frame>, f: Frame)
    requires cal.pc.Looping? && Observes(cal, read) && !f.Error?
    ensures Observes(Consume(cal, f), read + [f])
  {
    OptAppend(read, f);
    hide OptHeaders, OptTrailers, Messages;
  }

  /** A live caller that reads the error has read the whole plan. */
  lemma ErrorEndsPlan(cal: Caller, read: seq<Frame>, f: Frame, rest: seq<Frame>, h: Handler)
    requires cal.pc.Looping? && Observes(cal, read) && f.Error?
    requires h.outcome.Some? && (read + [f]) + rest == ThePlan(h)
    ensures ExactFor(Consume(cal, f), h)
  {
    var (v, e) := h.outcome.value;
    var p := ThePlan(h);
    PlanShape(h.ts, v, e);
    PlanContents(h.ts, v, e);
    hide OptHeaders, OptTrailers, Messages, Plan;
    assert p[|read|] == f;
    assert p == read + [f];
    OptAppend(read, f);
  }

  /** A live caller that sees the channel closed has read the whole plan. */
  lemma CloseEndsPlan(cal: Caller, read: seq<Frame>, h: Handler)
    requires cal.pc.Looping? && Observes(cal, read) && CallerInv(cal, read)
    requires h.outcome.Some? && read == ThePlan(h)
    ensures ExactFor(OnClosed(cal), h)
  {
    var (v, e) := h.outcome.value;
    PlanShape(h.ts, v, e);
    PlanContents(h.ts, v, e);
    hide OptHeaders, OptTrailers, Messages, Plan;
  }

  // Steps.

  lemma SetterLife(c: Call, step: Step)
    requires LifeInv(c) && Enabled(c, step) && (step.DoSetHeader? || step.DoSendHeader? || step.DoSetTrailer?)
    ensures LifeInv(Apply(c, step))
  {
    match step
    case DoSetHeader(md) => JoinAllAppend(c.hnd.ts.hdrLog, md);
    case DoSendHeader(md) => JoinAllAppend(c.hnd.ts.hdrLog, md);
    case DoSetTrailer(md) => JoinAllAppend(c.hnd.ts.tlrLog, md);
    hide JoinAll, Join, Passed;
  }

  lemma SetterStep(c: Call, step: Step)
    requires Inv(c) && Enabled(c, step) && (step.DoSetHeader? || step.DoSendHeader? || step.DoSetTrailer?)
    ensures Inv(Apply(c, step))
  {
    SetterLife(c, step);
    assert c.hnd.outcome.None?;
    hide LifeInv, JoinAll, Join, Messages, Observes, Plan, Passed, CallerInv, SetHeader, SendHeader, SetTrailer;
  }

  lemma ReturnStep(c: Call, v: Option<Msg>, e: Option<Err>)
    requires Inv(c) && Enabled(c, HandlerReturns(v, e))
    ensures Inv(Apply(c, HandlerReturns(v, e)))
  {
    PlanContents(c.hnd.ts, v, e);
    EmptyOpts();
    hide JoinAll, Plan, Observes, Messages, CallerInv, Passed;
    assert [] + Plan(c.hnd.ts, v, e) == Plan(c.hnd.ts, v, e);
  }

  lemma CloseStep(c: Call)
    requires Inv(c) && Enabled(c, CloseChannel)
    ensures Inv(Apply(c, CloseChannel))
  {
    CloseKeeps(c.hnd, Passed(c.ch), c.cal);
    CloseLife(c);
    hide LifeInv, Observes, Messages, CallerInv, ReplyInv, ThePlan, ExactFor, Passed, Rest;
  }

  lemma CloseLife(c: Call)
    requires LifeInv(c) && Enabled(c, CloseChannel)
    ensures LifeInv(Apply(c, CloseChannel)) && Passed(Apply(c, CloseChannel).ch) == Passed(c.ch)
  {
    hide JoinAll;
  }

  lemma CloseKeeps(h: Handler, passed: seq<Frame>, cal: Caller)
    requires ReplyInv(h, passed) && h.pc == Sending([])
    ensures var h' := h.(pc := Finished, ts := h.ts.(hdrsSent := true, tlrsSent := true));
            && ReplyInv(h', passed) && ThePlan(h') == ThePlan(h) && Rest(h') == Rest(h)
            && (ExactFor(cal, h) ==> ExactFor(cal, h'))
  {
    if h.outcome.Some? {
      PlanIgnoresFlags(h.ts, h.outcome.value.0, h.outcome.value.1);
    }
    hide Plan, Messages;
  }

  lemma PlanIgnoresFlags(ts: Transport, v: Option<Msg>, e: Option<Err>)
    ensures Plan(ts.(hdrsSent := true, tlrsSent := true), v, e) == Plan(ts, v, e)
  {
  }

  lemma PushStep(c: Call)
    requires Inv(c) && Enabled(c, Push)
    ensures Inv(Apply(c, Push))
  {
    PushPasses(c.ch, c.hnd.pc.rest);
    PushReply(c.hnd, Passed(c.ch));
    PushLife(c);
    PushLive(c);
    hide LifeInv, LiveInv, Messages, CallerInv, ReplyInv, Passed;
  }

  lemma PushLife(c: Call)
    requires LifeInv(c) && Enabled(c, Push)
    ensures LifeInv(Apply(c, Push))
  {
    hide JoinAll;
  }

  lemma PushLive(c: Call)
    requires LiveInv(c) && Enabled(c, Push)
    ensures LiveInv(Apply(c, Push))
  {
    PushPasses(c.ch, c.hnd.pc.rest);
    hide Plan, Observes, Passed;
  }

  lemma SkipStep(c: Call)
    requires Inv(c) && Enabled(c, Skip)
    ensures Inv(Apply(c, Skip))
  {
    SkipReply(c.hnd, Passed(c.ch));
    hide JoinAll, Plan, Observes, Messages, CallerInv, ReplyInv, Passed;
  }

  lemma MessagesOfPassed(h: Handler, passed: seq<Frame>)
    requires ReplyInv(h, passed)
    ensures |Messages(passed)| <= 1
  {
    hide Messages;
  }

  lemma TakeFrameStep(c: Call)
    requires Inv(c) && Enabled(c, Take) && c.ch.buf != []
    ensures Inv(Apply(c, Take))
  {
    TakePasses(c.ch);
    MessagesOfPassed(c.hnd, Passed(c.ch));
    ConsumeCaller(c.cal, c.ch.read, c.ch.buf[0]);
    TakeLife(c);
    TakeLive(c);
    hide LifeInv, LiveInv, Messages, CallerInv, ReplyInv, Passed, Consume;
  }

  lemma TakeLife(c: Call)
    requires LifeInv(c) && Enabled(c, Take) && c.ch.buf != []
    ensures LifeInv(Apply(c, Take))
  {
    TakePasses(c.ch);
    hide JoinAll, Passed;
  }

  lemma ConsumeKeepsLooping(cal: Caller, f: Frame)
    requires cal.pc.Looping? && (f.Data? ==> !cal.pc.gotResponse)
    ensures Consume(cal, f).pc.Looping? <==> !f.Error?
  {
  }

  lemma TakeLive(c: Call)
    requires LifeInv(c) && LiveInv(c) && Enabled(c, Take) && c.ch.buf != []
    requires CallerInv(c.cal, c.ch.read) && |Messages(c.ch.read + [c.ch.buf[0]])| <= 1
    ensures LiveInv(Apply(c, Take))
  {
    var f := c.ch.buf[0];
    TakePasses(c.ch);
    AppendFrame(c.ch.read, f);
    hide JoinAll, ThePlan, Observes, Messages, HeadersOf, TrailersOf, Passed, ExactFor, Consume;
    ConsumeKeepsLooping(c.cal, f);
    if !c.cli {
      if f.Error? {
        ErrorEndsPlan(c.cal, c.ch.read, f, Rest(c.hnd), c.hnd);
      } else {
        ConsumeObserves(c.cal, c.ch.read, f);
      }
    }
  }

  lemma CloseCaller(cal: Caller, read: seq<Frame>)
    requires cal.pc.Looping? && CallerInv(cal, read)
    ensures CallerInv(OnClosed(cal), read)
  {
    hide Messages;
  }

  lemma TakeCloseStep(c: Call)
    requires Inv(c) && Enabled(c, Take) && c.ch.buf == []
    ensures Inv(Apply(c, Take))
  {
    hide JoinAll, ThePlan, Observes, Messages, ReplyInv, ExactFor, OptSeq;
    assert Passed(c.ch) + Rest(c.hnd) == c.ch.read;
    if !c.cli {
      hide CallerInv;
      CloseEndsPlan(c.cal, c.ch.read, c.hnd);
    }
    CloseCaller(c.cal, c.ch.read);
  }

  lemma ContextStep(c: Call, step: Step)
    requires Inv(c) && Enabled(c, step) && (step.Cancel? || step.ReachHandler? || step.SeeCtx?)
    ensures Inv(Apply(c, step))
  {
    hide JoinAll, Plan, Observes, Messages, ReplyInv, ExactFor;
  }

  lemma InvStep(c: Call, step: Step)
    requires Inv(c) && Enabled(c, step)
    ensures Inv(Apply(c, step))
  {
    hide Inv, Apply;
    match step
    case HandlerReturns(v, e) => ReturnStep(c, v, e);
    case Push => PushStep(c);
    case Skip => SkipStep(c);
    case CloseChannel => CloseStep(c);
    case Take =>
      if c.ch.buf == [] {
        TakeCloseStep(c);
      } else {
        TakeFrameStep(c);
      }
    case Cancel => ContextStep(c, step);
    case ReachHandler => ContextStep(c, step);
    case SeeCtx => ContextStep(c, step);
    case _ => SetterStep(c, step);
  }

  lemma {:induction false} Reachable(c: Call, steps: seq<Step>, c': Call)
    requires Inv(c) && IsRun(c, steps, c')
    ensures Inv(c')
    decreases |steps|
  {
    hide Inv, Apply, Enabled;
    if steps != [] {
      InvStep(c, steps[0]);
      Reachable(Apply(c, steps[0]), steps[1..], c');
    }
  }

  lemma InitInv()
    ensures Inv(Init())
  {
  }

  // ----- Failures in any run -----

  ghost predicate OnlyError(h: Handler, fs: seq<Frame>) {
    forall f :: f in fs && f.Error? ==>
                  h.outcome.Some? && CallError(h.outcome.value.0, h.outcome.value.1) == Some(f.err)
  }

  /** Every error frame, and a failure that Invoke returned, is the handler's. */
  ghost predicate FailureInv(c: Call) {
    && OnlyError(c.hnd, c.ch.buf) && OnlyError(c.hnd, Rest(c.hnd))
    && (c.cal.pc.Returned? && c.cal.pc.r.Failure? ==> OnlyError(c.hnd, [Error(c.cal.pc.r.err)]))
  }

  lemma FailureStep(c: Call, step: Step)
    requires LifeInv(c) && FailureInv(c) && Enabled(c, step)
    ensures FailureInv(Apply(c, step))
  {
    hide LifeInv, FailureInv, Apply, Enabled;
    match step
    case HandlerReturns(v, e) => FailureReturns(c, v, e);
    case Take => FailureTakes(c);
    case _ => FailureKept(c, step);
  }

  lemma FailureReturns(c: Call, v: Option<Msg>, e: Option<Err>)
    requires LifeInv(c) && FailureInv(c) && Enabled(c, HandlerReturns(v, e))
    ensures FailureInv(Apply(c, HandlerReturns(v, e)))
  {
    PlanShape(c.hnd.ts, v, e);
    hide JoinAll, Passed, Plan;
    assert forall f :: f in Plan(c.hnd.ts, v, e) && f.Error? ==> CallError(v, e) == Some(f.err);
  }

  lemma FailureTakes(c: Call)
    requires FailureInv(c) && Enabled(c, Take)
    ensures FailureInv(Apply(c, Take))
  {
    if c.ch.buf != [] {
      assert c.ch.buf[0] in c.ch.buf;
    }
  }

  lemma FailureKept(c: Call, step: Step)
    requires LifeInv(c) && FailureInv(c) && Enabled(c, step) && !step.HandlerReturns? && !step.Take?
    ensures FailureInv(Apply(c, step))
  {
    hide JoinAll, Join, Passed, CallError;
  }

  lemma {:induction false} FailureReachable(c: Call, steps: seq<Step>, c': Call)
    requires Inv(c) && FailureInv(c) && IsRun(c, steps, c')
    ensures FailureInv(c')
    decreases |steps|
  {
    if steps != [] {
      assert LifeInv(c);
      hide Inv, LifeInv, FailureInv, Apply, Enabled;
      InvStep(c, steps[0]);
      FailureStep(c, steps[0]);
      FailureReachable(Apply(c, steps[0]), steps[1..], c');
    }
  }

  // ----- What the handler did, read off the steps -----

  /** The metadata of the header calls up to the first that sends headers, those of
      the trailer calls, and what the handler returned. */
  datatype Calls = Calls(headers: seq<MD>, headersSent: bool, trailers: seq<MD>,
                         returned: Option<(Option<Msg>, Option<Err>)>)

  const NONE := Calls([], false, [], None)

  function Noted(l: Calls, step: Step): Calls {
    match step
    case DoSetHeader(md) => if l.headersSent then l else l.(headers := l.headers + [md])
    case DoSendHeader(md) => if l.headersSent then l else l.(headers := l.headers + [md], headersSent := true)
    case DoSetTrailer(md) => l.(trailers := l.trailers + [md])
    case HandlerReturns(v, e) => l.(returned := Some((v, e)))
    case _ => l
  }

  function Made(steps: seq<Step>): Calls {
    if steps == [] then NONE else Noted(Made(steps[..|steps| - 1]), steps[|steps| - 1])
  }

  /** The records of the call say the same. */
  ghost predicate CallLaw(c: Call, l: Calls) {
    var h := c.hnd;
    && h.ts.hdrLog == l.headers && h.ts.tlrLog == l.trailers && h.outcome == l.returned
    && (h.pc.Running? ==> h.ts.hdrsSent == l.headersSent && !h.ts.tlrsSent)
  }

  lemma LawStep(c: Call, step: Step, l: Calls)
    requires Enabled(c, step) && CallLaw(c, l)
    ensures CallLaw(Apply(c, step), Noted(l, step))
  {
    hide Join, Plan, Consume, OnClosed, TakeOne;
  }

  lemma {:induction false} LawReachable(c: Call, before: seq<Step>, steps: seq<Step>, c': Call)
    requires CallLaw(c, Made(before)) && IsRun(c, steps, c')
    ensures CallLaw(c', Made(before + steps))
    decreases |steps|
  {
    hide CallLaw, Apply, Enabled, Noted;
    if steps == [] {
      assert before + steps == before;
    } else {
      var all := before + [steps[0]];
      assert all[..|all| - 1] == before;
      LawStep(c, steps[0], Made(before));
      LawReachable(Apply(c, steps[0]), all, steps[1..], c');
      assert before + steps == all + steps[1..];
    }
  }

  lemma CallsRecorded(steps: seq<Step>, c: Call)
    requires IsRun(Init(), steps, c)
    ensures Inv(c) && CallLaw(c, Made(steps))
  {
    InitInv();
    Reachable(Init(), steps, c);
    assert CallLaw(Init(), Made([]));
    LawReachable(Init(), [], steps, c);
    assert [] + steps == steps;
  }

  /** What was returned was returned by a step. */
  lemma {:induction false} ReturnedInSteps(steps: seq<Step>)
    ensures var r := Made(steps).returned;
            r.Some? ==> HandlerReturns(r.value.0, r.value.1) in steps
  {
    if steps != [] {
      var n := |steps| - 1;
      ReturnedInSteps(steps[..n]);
      assert steps == steps[..n] + [steps[n]];
    }
  }

  ghost predicate HasReturned(c: Call) {
    !c.hnd.pc.Running?
  }

  lemma ReturnedStays(c: Call, step: Step)
    requires Enabled(c, step) && HasReturned(c)
    ensures HasReturned(Apply(c, step)) && Apply(c, step).hnd.outcome == c.hnd.outcome && !step.HandlerReturns?
  {
    hide Join, Plan, Consume, OnClosed, TakeOne;
  }

  /** A handler returns once. */
  lemma {:induction false} ReturnsOnce(c: Call, steps: seq<Step>, c': Call, v: Option<Msg>, e: Option<Err>)
    requires IsRun(c, steps, c') && (HandlerReturns(v, e) in steps || (HasReturned(c) && c.hnd.outcome == Some((v, e))))
    ensures HasReturned(c') && c'.hnd.outcome == Some((v, e))
    decreases |steps|
  {
    if steps != [] {
      var step, c1 := steps[0], Apply(c, steps[0]);
      assert steps == [step] + steps[1..];
      hide Apply, Enabled;
      if HasReturned(c) {
        AllLater(c, steps, c');
        ReturnedStays(c, step);
      } else if step == HandlerReturns(v, e) {
        ReturnsNow(c, v, e);
      }
      ReturnsOnce(c1, steps[1..], c', v, e);
    }
  }

  lemma ReturnsNow(c: Call, v: Option<Msg>, e: Option<Err>)
    requires Enabled(c, HandlerReturns(v, e))
    ensures var c' := Apply(c, HandlerReturns(v, e)); HasReturned(c') && c'.hnd.outcome == Some((v, e))
  {
  }

  lemma {:induction false} AllLater(c: Call, steps: seq<Step>, c': Call)
    requires IsRun(c, steps, c') && HasReturned(c)
    ensures forall x :: x in steps ==> !x.HandlerReturns?
    decreases |steps|
  {
    hide Apply, Enabled, HasReturned;
    if steps != [] {
      ReturnedStays(c, steps[0]);
      AllLater(Apply(c, steps[0]), steps[1..], c');
    }
  }

  // ----- Guarantees over every run -----

  /** Under every cancellation race Invoke returns nil only if the handler returned a
      reply and no error, and then the response is a copy of that reply; it never
      reports a surplus response. */
  lemma SuccessIsGenuine(steps: seq<Step>, c: Call)
    requires IsRun(Init(), steps, c)
    ensures c.cal.pc == Returned(Success) ==> c.cal.resp.Some? && HandlerReturns(c.cal.resp, None) in steps
    ensures c.cal.pc != Returned(Unexpected)
  {
    CallsRecorded(steps, c);
    ReturnedInSteps(steps);
    MessagesConcat(c.ch.read, c.ch.buf);
    hide JoinAll, Messages, LiveInv, IsRun;
    if c.cal.pc == Returned(Success) {
      var all := Messages(Passed(c.ch));
      assert all[0] == c.cal.resp.value;
      assert all == TheReply(c.hnd);
    }
  }

  /** How the call of a handler that returned v and e is to end. */
  ghost predicate EndsAs(cal: Caller, v: Option<Msg>, e: Option<Err>) {
    if e.Some? then cal.pc == Returned(Failure(e.value))
    else if v.None? then cal.pc == Returned(Failure(Status(13, "handler returned neither error nor response message")))
    else cal.pc == Returned(Success) && cal.resp == v
  }

  /** And the error of any failed call, cancelled or not, is the handler's. */
  lemma FailureIsGenuine(steps: seq<Step>, c: Call, err: Err)
    requires IsRun(Init(), steps, c) && c.cal.pc == Returned(Failure(err))
    ensures exists v, e :: HandlerReturns(v, e) in steps && EndsAs(c.cal, v, e)
  {
    CallsRecorded(steps, c);
    InitFailure();
    hide IsRun, Made, Inv, FailureInv, EndsAs;
    FailureReachable(Init(), steps, c);
    FailureEnds(c, err);
    ReturnedInSteps(steps);
  }

  lemma InitFailure()
    ensures Inv(Init()) && FailureInv(Init())
  {
  }

  lemma FailureEnds(c: Call, err: Err)
    requires FailureInv(c) && c.cal.pc == Returned(Failure(err))
    ensures c.hnd.outcome.Some? && EndsAs(c.cal, c.hnd.outcome.value.0, c.hnd.outcome.value.1)
  {
    var f: Frame := Error(err);
    assert f in [f] && OnlyError(c.hnd, [f]);
    hide Rest;
  }

  /** If the context stays live, the handler has returned; the error is exactly its
      own, a missing reply counting as an internal error, and the response its reply;
      and the header and trailer options hold all the metadata its calls set in time,
      if there are any. */
  lemma LiveCallIsExact(steps: seq<Step>, c: Call)
    requires IsRun(Init(), steps, c) && !c.cli && c.cal.pc.Returned?
    ensures exists v, e :: HandlerReturns(v, e) in steps
    ensures forall v, e :: HandlerReturns(v, e) in steps ==> EndsAs(c.cal, v, e)
    ensures c.cal.hdrOpt == NonEmpty(JoinAll(Made(steps).headers))
    ensures c.cal.tlrOpt == NonEmpty(JoinAll(Made(steps).trailers))
  {
    CallsRecorded(steps, c);
    ReturnedInSteps(steps);
    hide JoinAll, Messages, IsRun, Made;
    assert Exact(c);
    forall v, e | HandlerReturns(v, e) in steps ensures EndsAs(c.cal, v, e) {
      ReturnsOnce(Init(), steps, c, v, e);
    }
  }

  /** Once the context is done Invoke can return its error. */
  lemma ReleasedByContext(c: Call)
    requires c.cal.pc.Looping? && c.cli
    ensures exists step :: Enabled(c, step) && Apply(c, step) == c.(cal := c.cal.(pc := Returned(Interrupted)))
  {
    assert Enabled(c, SeeCtx);
  }

  /** And no call is ever stuck: as long as Invoke has not returned or the handler's
      goroutine is not over, the handler is still running or one of the two can take
      a step, or the handler's context is about to end, which lets it go on. */
  lemma NeverStuck(steps: seq<Step>, c: Call)
    requires IsRun(Init(), steps, c) && !(c.cal.pc.Returned? && c.hnd.pc.Finished?) && !c.hnd.pc.Running?
    ensures exists step :: Enabled(c, step) && (step.Push? || step.Skip? || step.CloseChannel? || step.Take?
                                                || (step.ReachHandler? && !c.svr))
  {
    InitInv();
    hide IsRun, Inv, Enabled, LifeInv;
    Reachable(Init(), steps, c);
    LifeOf(c);
    var step := NextStep(c);
    NextEnabled(c);
    assert Enabled(c, step);
  }

  lemma LifeOf(c: Call)
    requires Inv(c)
    ensures LifeInv(c)
  {
    hide LifeInv;
  }

  function NextStep(c: Call): Step {
    if c.hnd.pc == Sending([]) then CloseChannel
    else if c.cal.pc.Looping? && (c.hnd.pc.Finished? || c.ch.buf != []) then Take
    else if c.ch.buf == [] then Push
    else if c.svr then Skip
    else ReachHandler
  }

  lemma NextEnabled(c: Call)
    requires LifeInv(c) && !(c.cal.pc.Returned? && c.hnd.pc.Finished?) && !c.hnd.pc.Running?
    ensures Enabled(c, NextStep(c))
  {
    hide JoinAll;
  }
}
