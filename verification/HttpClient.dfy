/** The client side of a GRPC-over-HTTP stream as a step system: the goroutine of
    doHttpCall reads the response and hands messages over an unbuffered channel
    to RecvMsg, and the two agree on the end through fields guarded by a lock. */
module HttpClient {
  import opened Prelude
  import opened Metadata
  import opened Framing
  import opened HttpStatus
  import opened HttpServer

  /** Errors RecvMsg can return. */
  datatype Failure =
    | ContextError
    | InvalidMessage
    | TooManyResponses
    | BodyError(err: ReadError)
    | TransportError                 // the connection failed under the reader
    | BadTrailer                     // the trailer could not be decoded
    | SetupError(text: string)       // the round trip or its headers failed
    | StatusError(stat: Stat)

  datatype Outcome = Got(m: Msg) | CleanEnd | Failed(f: Failure)

  /** What the round trip comes back with. */
  datatype Reply =
    | NoReply(text: string)
    | BadHeaders(text: string)
    | ErrorStatus(stat: Stat)        // an HTTP reply that already carries a failure
    | Streaming

  /** The call's surroundings: the reply, its body as the reader will find it,
      and how messages and trailers decode. */
  datatype Env = Env(reply: Reply, body: Body, respStream: bool,
                     decode: Bytes -> Option<Msg>, decodeTrailer: Bytes -> Option<HttpTrailer>)

  ghost predicate ValidEnv(env: Env) {
    env.reply.ErrorStatus? ==> env.reply.stat.code != CODE_OK
  }

  const NO_TRAILER := HttpTrailer(map[], CODE_OK, [], [])

  /** doHttpCall: Exiting is about to take the lock with its local error, and
      AtTrailer with a trailer in hand; the lock is held from Locked to Closed. */
  datatype ReaderPc =
    | Starting
    | Reading(i: nat)
    | Sending(i: nat)
    | Exiting(err: Option<Failure>)
    | AtTrailer(data: Bytes)
    | Locked
    | DoneSet
    | Closed
    | Finished

  /** RecvMsg. */
  datatype RecvPc =
    | Idle
    | Entering
    | Select1
    | Have(i: nat)
    | Select2(m: Msg)
    | SawClosed1
    | SawClosed2(m: Msg)
    | SawSecond

  /** The fields guarded by the lock, the state of the channel, and whether
      anything that panics has happened. */
  datatype Shared = Shared(done: bool, rErr: Option<Failure>, tr: HttpTrailer,
                           closed: bool, panicked: bool)

  /** `external` and `faulted` record cancellations from outside the stream and
      failures of the connection that no cancellation explains; `delivered` counts
      messages handed over. */
  datatype Sys = Sys(ctx: bool, external: bool, faulted: bool, rd: ReaderPc, sh: Shared,
                     delivered: nat, pc: RecvPc, outs: seq<Outcome>)

  function Init(): Sys {
    Sys(false, false, false, Starting, Shared(false, None, NO_TRAILER, false, false), 0, Idle, [])
  }

  predicate LockHeld(rd: ReaderPc) {
    rd.Locked? || rd.DoneSet? || rd.Closed?
  }

  /** readErrorIfDone, once the stream is done. */
  function EndOf(sh: Shared): Outcome {
    if sh.rErr.Some? then Failed(sh.rErr.value)
    else if sh.tr.code == CODE_OK then CleanEnd
    else Failed(StatusError(Stat(sh.tr.code, sh.tr.message, sh.tr.details)))
  }

  datatype Step =
    | Cancel
    | RoundTrip | RoundTripCancelled
    | ReadItem | ReadFails | SenderSeesCtx
    | LockForExit | LockForTrailer | SetDone | CloseChannel | Unlock
    | HandOver
    | CallRecv | CheckDone | RecvSeesCtx | RecvSeesClosed | DecodeIt | AfterClosed | AfterSecond

  ghost predicate Enabled(s: Sys, env: Env, step: Step) {
    match step
    case Cancel => true
    case RoundTrip => s.rd.Starting?
    case RoundTripCancelled => s.rd.Starting? && s.ctx
    case ReadItem => s.rd.Reading?
    case ReadFails => s.rd.Reading?
    case SenderSeesCtx => s.rd.Sending? && s.ctx
    case LockForExit => s.rd.Exiting?
    case LockForTrailer => s.rd.AtTrailer?
    case SetDone => s.rd.Locked?
    case CloseChannel => s.rd.DoneSet?
    case Unlock => s.rd.Closed?
    case HandOver => s.rd.Sending? && (s.pc.Select1? || s.pc.Select2?)
    case CallRecv => s.pc.Idle?
    case CheckDone => s.pc.Entering? && !LockHeld(s.rd)
    case RecvSeesCtx => (s.pc.Select1? || s.pc.Select2?) && s.ctx
    case RecvSeesClosed => (s.pc.Select1? || s.pc.Select2?) && s.sh.closed
    case DecodeIt => s.pc.Have?
    case AfterClosed => (s.pc.SawClosed1? || s.pc.SawClosed2?) && !LockHeld(s.rd)
    case AfterSecond => s.pc.SawSecond? && !LockHeld(s.rd)
  }

  function Return(s: Sys, o: Outcome): Sys {
    s.(pc := Idle, outs := s.outs + [o])
  }

  ghost function Apply(s: Sys, env: Env, step: Step): Sys
    requires Enabled(s, env, step)
  {
    match step
    case Cancel => s.(ctx := true, external := true)
    case RoundTrip =>
      (match env.reply
       case NoReply(e) => s.(rd := Exiting(Some(SetupError(e))))
       case BadHeaders(e) => s.(rd := Exiting(Some(SetupError(e))))
       case ErrorStatus(st) =>
         s.(rd := Exiting(None),
            sh := s.sh.(tr := HttpTrailer(map[], st.code, st.message, st.details)))
       case Streaming => s.(rd := Reading(0)))
    case RoundTripCancelled => s.(rd := Exiting(Some(ContextError)))
    case ReadItem =>
      if s.rd.i < |env.body.frames| then s.(rd := Sending(s.rd.i))
      else
        (match env.body.end
         case TrailerEnd(data) => s.(rd := AtTrailer(data))
         case Broken(e) => s.(rd := Exiting(Some(BodyError(e)))))
    case ReadFails => s.(rd := Exiting(Some(TransportError)), faulted := s.faulted || !s.ctx)
    case SenderSeesCtx => s.(rd := Exiting(Some(ContextError)))
    case LockForExit =>
      s.(rd := Locked, sh := s.sh.(rErr := if s.sh.rErr.None? then s.rd.err else s.sh.rErr))
    case LockForTrailer =>
      // the outcome of decoding replaces whatever error was there
      (match env.decodeTrailer(s.rd.data)
       case Some(t) => s.(rd := Locked, sh := s.sh.(rErr := None, tr := t))
       case None => s.(rd := Locked, sh := s.sh.(rErr := Some(BadTrailer))))
    case SetDone => s.(rd := DoneSet, sh := s.sh.(done := true))
    case CloseChannel =>
      s.(rd := Closed, sh := s.sh.(closed := true, panicked := s.sh.panicked || s.sh.closed))
    case Unlock => s.(rd := Finished)
    case HandOver =>
      s.(rd := Reading(s.rd.i + 1), delivered := s.delivered + 1,
         sh := s.sh.(panicked := s.sh.panicked || s.sh.closed),
         pc := if s.pc.Select1? then Have(s.rd.i) else SawSecond)
    case CallRecv => s.(pc := Entering)
    case CheckDone => if s.sh.done then Return(s, EndOf(s.sh)) else s.(pc := Select1)
    case RecvSeesCtx => Return(s, Failed(ContextError))
    case RecvSeesClosed => s.(pc := if s.pc.Select1? then SawClosed1 else SawClosed2(s.pc.m))
    case DecodeIt =>
      var o := if s.pc.i < |env.body.frames| then env.decode(env.body.frames[s.pc.i]) else None;
      if o.None? then Return(s, Failed(InvalidMessage))
      else if env.respStream then Return(s, Got(o.value))
      else s.(pc := Select2(o.value))
    case AfterClosed =>
      if !s.sh.done then s.(sh := s.sh.(panicked := true))
      else if s.pc.SawClosed2? && EndOf(s.sh) == CleanEnd then Return(s, Got(s.pc.m))
      else Return(s, EndOf(s.sh))
    case AfterSecond =>
      if s.sh.rErr.None? then
        Return(s.(sh := s.sh.(rErr := Some(TooManyResponses), done := true), ctx := true),
               Failed(TooManyResponses))
      else Return(s, Failed(s.sh.rErr.value))
  }

  ghost predicate IsRun(s: Sys, env: Env, steps: seq<Step>, s': Sys)
    decreases |steps|
  {
    if steps == [] then s == s'
    else Enabled(s, env, steps[0]) && IsRun(Apply(s, env, steps[0]), env, steps[1..], s')
  }

  // ----- The two sides agree -----

  ghost predicate ReaderOver(rd: ReaderPc) {
    rd.DoneSet? || rd.Closed? || rd.Finished?
  }

  /** Frames are handed over one by one, in order, and all of them before the
      trailer is looked at. */
  ghost predicate OrderInv(s: Sys, env: Env) {
    && s.delivered <= |env.body.frames|
    && (s.rd.Starting? ==> s.delivered == 0)
    && (s.rd.Reading? || s.rd.Sending? ==> s.rd.i == s.delivered)
    && (s.rd.Sending? ==> s.rd.i < |env.body.frames|)
    && (s.rd.AtTrailer? ==> s.delivered == |env.body.frames| && env.body.end == TrailerEnd(s.rd.data))
    && (s.pc.Have? ==> s.pc.i + 1 == s.delivered)
  }

  /** The channel is closed only after done was set, under the lock. */
  ghost predicate CloseInv(s: Sys) {
    && !s.sh.panicked
    && (s.sh.closed <==> s.rd.Closed? || s.rd.Finished?)
    && (ReaderOver(s.rd) ==> s.sh.done)
    && (s.pc.SawClosed1? || s.pc.SawClosed2? ==> s.sh.closed)
  }

  /** The reader took the trailer: all frames were delivered and it decoded to t. */
  ghost predicate TookTrailer(s: Sys, env: Env, t: HttpTrailer) {
    && s.delivered == |env.body.frames|
    && env.body.end.TrailerEnd?
    && env.decodeTrailer(env.body.end.data) == Some(t)
  }

  /** No error on record once the reader is past its lock means a decoded trailer,
      or a reply that failed before any body. */
  ghost predicate EndInv(s: Sys, env: Env) {
    && (s.sh.done || s.rd.Locked? ==> s.sh.rErr.Some? || LockHeld(s.rd) || s.rd.Finished?)
    && ((LockHeld(s.rd) || s.rd.Finished?) && s.sh.rErr.None? ==>
          || TookTrailer(s, env, s.sh.tr)
          || (env.reply.ErrorStatus? && s.sh.tr.code == env.reply.stat.code))
    && (s.rd.Exiting? && s.rd.err.None? ==> env.reply.ErrorStatus? && s.sh.tr.code == env.reply.stat.code)
  }

  /** The stream's own context changes only after a surplus response, which also
      ends it. */
  ghost predicate CtxInv(s: Sys) {
    s.ctx && !s.external ==> s.sh.done
  }

  ghost predicate Inv(s: Sys, env: Env) {
    OrderInv(s, env) && CloseInv(s) && EndInv(s, env) && CtxInv(s)
  }

  lemma OrderStep(s: Sys, env: Env, step: Step)
    requires OrderInv(s, env) && Enabled(s, env, step)
    ensures OrderInv(Apply(s, env, step), env)
  {
    hide EndOf;
  }

  lemma CloseStep(s: Sys, env: Env, step: Step)
    requires CloseInv(s) && Enabled(s, env, step)
    ensures CloseInv(Apply(s, env, step))
  {
    hide EndOf;
    if IsRecvStep(step) {
      CloseRecvStep(s, env, step);
    } else {
      CloseReaderStep(s, env, step);
    }
    hide Apply, Enabled, CloseInv, IsRecvStep;
  }

  lemma CloseRecvStep(s: Sys, env: Env, step: Step)
    requires CloseInv(s) && Enabled(s, env, step) && IsRecvStep(step)
    ensures CloseInv(Apply(s, env, step))
  {
    hide EndOf;
  }

  lemma CloseReaderStep(s: Sys, env: Env, step: Step)
    requires CloseInv(s) && Enabled(s, env, step) && !IsRecvStep(step)
    ensures CloseInv(Apply(s, env, step))
  {
    hide EndOf;
  }

  /** Steps of RecvMsg alone. */
  predicate IsRecvStep(step: Step) {
    step.CallRecv? || step.CheckDone? || step.RecvSeesCtx? || step.RecvSeesClosed? || step.DecodeIt?
    || step.AfterClosed? || step.AfterSecond?
  }

  lemma EndStep(s: Sys, env: Env, step: Step)
    requires OrderInv(s, env) && CloseInv(s) && EndInv(s, env) && Enabled(s, env, step)
    ensures EndInv(Apply(s, env, step), env)
  {
    if IsRecvStep(step) {
      EndRecvStep(s, env, step);
    } else if step.LockForExit? || step.LockForTrailer? {
      EndLockStep(s, env, step);
    } else {
      EndReaderStep(s, env, step);
    }
  }

  lemma EndRecvStep(s: Sys, env: Env, step: Step)
    requires CloseInv(s) && EndInv(s, env) && Enabled(s, env, step) && IsRecvStep(step)
    ensures EndInv(Apply(s, env, step), env)
  {
    hide EndOf;
  }

  lemma EndLockStep(s: Sys, env: Env, step: Step)
    requires OrderInv(s, env) && EndInv(s, env) && Enabled(s, env, step)
    requires step.LockForExit? || step.LockForTrailer?
    ensures EndInv(Apply(s, env, step), env)
  {
  }

  lemma EndReaderStep(s: Sys, env: Env, step: Step)
    requires EndInv(s, env) && Enabled(s, env, step)
    requires !IsRecvStep(step) && !step.LockForExit? && !step.LockForTrailer?
    ensures EndInv(Apply(s, env, step), env)
  {
  }

  lemma CtxStep(s: Sys, env: Env, step: Step)
    requires CtxInv(s) && Enabled(s, env, step)
    ensures CtxInv(Apply(s, env, step))
  {
    hide EndOf;
  }

  lemma InvStep(s: Sys, env: Env, step: Step)
    requires Inv(s, env) && Enabled(s, env, step)
    ensures Inv(Apply(s, env, step), env)
  {
    hide OrderInv, CloseInv, EndInv, CtxInv, Apply, Enabled;
    OrderStep(s, env, step);
    CloseStep(s, env, step);
    EndStep(s, env, step);
    CtxStep(s, env, step);
  }

  /** A clean end means the reader took an OK trailer after delivering everything. */
  lemma CleanEndMeans(s: Sys, env: Env)
    requires Inv(s, env) && ValidEnv(env) && s.sh.done && EndOf(s.sh) == CleanEnd
    ensures TookTrailer(s, env, s.sh.tr) && s.sh.tr.code == CODE_OK
  {
  }

  // ----- Streaming responses -----

  /** What RecvMsg makes of one frame of a streaming response. */
  function FrameOutcome(env: Env, i: nat): Outcome {
    if i < |env.body.frames| && env.decode(env.body.frames[i]).Some?
    then Got(env.decode(env.body.frames[i]).value)
    else Failed(InvalidMessage)
  }

  /** The outcomes that stand for frames: messages and undecodable ones. */
  function PerFrame(outs: seq<Outcome>): seq<Outcome> {
    if outs == [] then []
    else
      var n := |outs| - 1;
      PerFrame(outs[..n])
      + (if outs[n].Got? || outs[n] == Failed(InvalidMessage) then [outs[n]] else [])
  }

  lemma PerFrameAppend(outs: seq<Outcome>, o: Outcome)
    ensures PerFrame(outs + [o])
         == PerFrame(outs) + (if o.Got? || o == Failed(InvalidMessage) then [o] else [])
  {
    assert (outs + [o])[..|outs|] == outs;
  }

  function InHand(pc: RecvPc): nat {
    if pc.Have? then 1 else 0
  }

  /** Undecodable messages and statuses in trailers are not kept as the stream's
      error. */
  predicate Kept(e: Option<Failure>) {
    e.Some? ==> !e.value.InvalidMessage? && !e.value.StatusError?
  }

  ghost predicate ErrorKinds(s: Sys) {
    Kept(s.sh.rErr) && (s.rd.Exiting? ==> Kept(s.rd.err))
  }

  /** The outcomes so far account for the first k frames. */
  ghost predicate FramesOk(env: Env, outs: seq<Outcome>, k: int) {
    && |PerFrame(outs)| == k
    && (forall i :: 0 <= i < k ==> PerFrame(outs)[i] == FrameOutcome(env, i))
  }

  lemma FramesNext(env: Env, outs: seq<Outcome>, k: nat)
    requires FramesOk(env, outs, k)
    ensures FramesOk(env, outs + [FrameOutcome(env, k)], k + 1)
  {
    PerFrameAppend(outs, FrameOutcome(env, k));
    hide PerFrame;
  }

  lemma FramesSame(env: Env, outs: seq<Outcome>, o: Outcome, k: int)
    requires FramesOk(env, outs, k) && !o.Got? && o != Failed(InvalidMessage)
    ensures FramesOk(env, outs + [o], k)
  {
    PerFrameAppend(outs, o);
    hide PerFrame, FrameOutcome;
    assert PerFrame(outs) + [] == PerFrame(outs);
  }

  ghost predicate StreamInv(s: Sys, env: Env) {
    && ErrorKinds(s)
    && (s.pc.Idle? || s.pc.Entering? || s.pc.Select1? || s.pc.Have? || s.pc.SawClosed1?)
    && (s.sh.done ==> ReaderOver(s.rd))
    && FramesOk(env, s.outs, s.delivered - InHand(s.pc))
    && (CleanEnd in s.outs ==> SawCleanEnd(s, env) && (s.pc.Idle? || s.pc.Entering?))
  }

  ghost predicate SawCleanEnd(s: Sys, env: Env) {
    s.rd.Finished? && s.sh.rErr.None? && TookTrailer(s, env, s.sh.tr) && s.sh.tr.code == CODE_OK
  }

  lemma StreamQuietStep(s: Sys, env: Env, step: Step)
    requires Inv(s, env) && StreamInv(s, env) && Enabled(s, env, step)
    requires env.respStream && |Apply(s, env, step).outs| == |s.outs|
    ensures StreamInv(Apply(s, env, step), env)
  {
    if IsRecvStep(step) {
      StreamQuietRecv(s, env, step);
    } else {
      StreamQuietReader(s, env, step);
    }
  }

  lemma StreamQuietRecv(s: Sys, env: Env, step: Step)
    requires Enabled(s, env, step) && IsRecvStep(step) && env.respStream
    requires |Apply(s, env, step).outs| == |s.outs|
    requires CloseInv(s) && StreamInv(s, env)
    ensures StreamInv(Apply(s, env, step), env)
  {
    hide FramesOk, EndOf;
  }

  lemma StreamQuietReader(s: Sys, env: Env, step: Step)
    requires Enabled(s, env, step) && !IsRecvStep(step)
    requires OrderInv(s, env) && StreamInv(s, env)
    ensures StreamInv(Apply(s, env, step), env)
  {
    if step.Cancel? {
      hide FramesOk, TookTrailer;
      assert SawCleanEnd(s, env) ==> SawCleanEnd(Apply(s, env, step), env) by {
        assert TookTrailer(s, env, s.sh.tr) == TookTrailer(Apply(s, env, step), env, s.sh.tr) by {
          CancelKeepsTrailer(s, env);
        }
      }
    } else {
      assert CleanEnd !in s.outs;
      hide FramesOk, TookTrailer, SawCleanEnd;
      StreamReaderMoves(s, env, step);
    }
  }

  lemma CancelKeepsTrailer(s: Sys, env: Env)
    ensures TookTrailer(s, env, s.sh.tr) == TookTrailer(Apply(s, env, Cancel), env, s.sh.tr)
  {
  }

  lemma StreamReaderMoves(s: Sys, env: Env, step: Step)
    requires Enabled(s, env, step) && !IsRecvStep(step) && !step.Cancel?
    requires OrderInv(s, env) && StreamInv(s, env) && CleanEnd !in s.outs
    ensures StreamInv(Apply(s, env, step), env)
  {
    StreamReaderErrors(s, env, step);
    StreamReaderPlace(s, env, step);
    StreamReaderDone(s, env, step);
    hide FramesOk, ErrorKinds, SawCleanEnd, OrderInv, Apply, Enabled, ReaderOver;
  }

  lemma StreamReaderPlace(s: Sys, env: Env, step: Step)
    requires Enabled(s, env, step) && !IsRecvStep(step) && !s.pc.Select2?
    ensures var s' := Apply(s, env, step);
            && s'.outs == s.outs
            && s'.delivered - InHand(s'.pc) == s.delivered - InHand(s.pc)
            && (s'.pc == s.pc || s'.pc.Have?)
  {
  }

  lemma StreamReaderDone(s: Sys, env: Env, step: Step)
    requires Enabled(s, env, step) && !IsRecvStep(step) && (s.sh.done ==> ReaderOver(s.rd))
    ensures var s' := Apply(s, env, step);
            s'.sh.done ==> ReaderOver(s'.rd)
  {
  }

  lemma StreamReaderErrors(s: Sys, env: Env, step: Step)
    requires Enabled(s, env, step) && !IsRecvStep(step) && ErrorKinds(s)
    ensures ErrorKinds(Apply(s, env, step))
  {
  }

  lemma StreamReturnStep(s: Sys, env: Env, step: Step)
    requires Inv(s, env) && ValidEnv(env) && env.respStream && StreamInv(s, env) && Enabled(s, env, step)
    requires |Apply(s, env, step).outs| != |s.outs|
    ensures StreamInv(Apply(s, env, step), env)
  {
    if step.DecodeIt? {
      StreamDecodeStep(s, env);
    } else {
      assert step.RecvSeesCtx? || ((step.CheckDone? || step.AfterClosed?) && s.sh.done && !LockHeld(s.rd));
      var o := if step.RecvSeesCtx? then Failed(ContextError) else EndOf(s.sh);
      assert Apply(s, env, step) == Return(s, o);
      assert !s.pc.Have?;
      if o == CleanEnd {
        CleanEndMeans(s, env);
      }
      StreamEndStep(s, env, o);
    }
  }

  lemma StreamDecodeStep(s: Sys, env: Env)
    requires OrderInv(s, env) && env.respStream && StreamInv(s, env) && s.pc.Have?
    ensures StreamInv(Apply(s, env, DecodeIt), env)
  {
    FramesNext(env, s.outs, s.pc.i);
    hide FramesOk, SawCleanEnd;
    assert Apply(s, env, DecodeIt) == Return(s, FrameOutcome(env, s.pc.i));
    StreamReturns(s, env, FrameOutcome(env, s.pc.i), s.delivered);
  }

  lemma StreamEndStep(s: Sys, env: Env, o: Outcome)
    requires StreamInv(s, env) && !s.pc.Have?
    requires !o.Got? && o != Failed(InvalidMessage)
    requires o == CleanEnd ==> SawCleanEnd(s, env)
    ensures StreamInv(Return(s, o), env)
  {
    FramesSame(env, s.outs, o, s.delivered);
    hide FramesOk, SawCleanEnd;
    StreamReturns(s, env, o, s.delivered);
  }

  lemma StreamReturns(s: Sys, env: Env, o: Outcome, k: int)
    requires StreamInv(s, env) && FramesOk(env, s.outs + [o], k) && k == s.delivered
    requires o == CleanEnd ==> SawCleanEnd(s, env)
    ensures StreamInv(Return(s, o), env)
  {
    hide FramesOk;
    assert CleanEnd in s.outs + [o] ==> CleanEnd in s.outs || o == CleanEnd;
  }

  lemma {:induction false} StreamReachable(env: Env, s: Sys, steps: seq<Step>, s': Sys)
    requires Inv(s, env) && ValidEnv(env) && env.respStream && StreamInv(s, env) && IsRun(s, env, steps, s')
    ensures Inv(s', env) && StreamInv(s', env)
    decreases |steps|
  {
    hide Inv, StreamInv, Apply, Enabled;
    if steps != [] {
      InvStep(s, env, steps[0]);
      if |Apply(s, env, steps[0]).outs| == |s.outs| {
        StreamQuietStep(s, env, steps[0]);
      } else {
        StreamReturnStep(s, env, steps[0]);
      }
      StreamReachable(env, Apply(s, env, steps[0]), steps[1..], s');
    }
  }

  lemma InitInv(env: Env)
    ensures Inv(Init(), env) && StreamInv(Init(), env)
  {
  }

  lemma {:induction false} Reachable(env: Env, s: Sys, steps: seq<Step>, s': Sys)
    requires Inv(s, env) && IsRun(s, env, steps, s')
    ensures Inv(s', env)
    decreases |steps|
  {
    hide Inv, Apply, Enabled;
    if steps != [] {
      InvStep(s, env, steps[0]);
      Reachable(env, Apply(s, env, steps[0]), steps[1..], s');
    }
  }

  /** In every interleaving of RecvMsg, doHttpCall and cancellation: the channel
      is closed at most once and never sent on afterwards, and neither of the
      panics for a closed channel without done can happen. */
  lemma NeverPanics(env: Env, steps: seq<Step>, s: Sys)
    requires IsRun(Init(), env, steps, s)
    ensures !s.sh.panicked
    ensures (s.pc.SawClosed1? || s.pc.SawClosed2?) ==> s.sh.done
    ensures s.sh.closed ==> s.sh.done
  {
    InitInv(env);
    Reachable(env, Init(), steps, s);
  }

  /** Streaming responses: the messages and decoding failures returned are, in
      order, those of a prefix of the body's frames; and once the end of the
      stream was returned, of all of them, the body ending in an OK trailer. */
  lemma StreamDeliversInOrder(env: Env, steps: seq<Step>, s: Sys)
    requires IsRun(Init(), env, steps, s) && ValidEnv(env) && env.respStream
    ensures |PerFrame(s.outs)| <= |env.body.frames|
    ensures forall i :: 0 <= i < |PerFrame(s.outs)| ==> PerFrame(s.outs)[i] == FrameOutcome(env, i)
    ensures CleanEnd in s.outs ==>
              && |PerFrame(s.outs)| == |env.body.frames|
              && TookTrailer(s, env, s.sh.tr) && s.sh.tr.code == CODE_OK
  {
    InitInv(env);
    StreamReachable(env, Init(), steps, s);
  }

  // ----- Undisturbed streaming calls -----

  /** How the stream ends if nothing disturbs it. */
  function EndOutcome(env: Env): Outcome {
    match env.body.end
    case Broken(e) => Failed(BodyError(e))
    case TrailerEnd(data) =>
      match env.decodeTrailer(data)
      case None => Failed(BadTrailer)
      case Some(t) =>
        if t.code == CODE_OK then CleanEnd else Failed(StatusError(Stat(t.code, t.message, t.details)))
  }

  /** The outcome of the i-th RecvMsg of an undisturbed streaming call. */
  function Reference(env: Env, i: nat): Outcome {
    if i < |env.body.frames| then FrameOutcome(env, i) else EndOutcome(env)
  }

  ghost predicate ReaderOnTrack(s: Sys, env: Env) {
    var n := |env.body.frames|;
    match s.rd
    case Starting => s.sh.rErr.None? && !s.sh.done
    case Reading(_) => s.sh.rErr.None? && !s.sh.done
    case Sending(_) => s.sh.rErr.None? && !s.sh.done
    case Exiting(err) =>
      && s.sh.rErr.None? && !s.sh.done && s.delivered == n
      && env.body.end.Broken? && err == Some(BodyError(env.body.end.err))
    case AtTrailer(_) => s.sh.rErr.None? && !s.sh.done
    case _ => s.delivered == n && EndOf(s.sh) == EndOutcome(env)
  }

  /** As many outcomes as frames taken, or all frames and then the end over and over. */
  ghost predicate CountOnTrack(s: Sys, env: Env) {
    if |s.outs| <= |env.body.frames| then |s.outs| == s.delivered - InHand(s.pc)
    else s.delivered == |env.body.frames| && InHand(s.pc) == 0
  }

  ghost predicate OutsOnTrack(outs: seq<Outcome>, env: Env) {
    forall i :: 0 <= i < |outs| ==> outs[i] == Reference(env, i)
  }

  ghost predicate Disturbed(s: Sys) {
    s.external || s.faulted
  }

  ghost predicate OnTrack(s: Sys, env: Env) {
    !Disturbed(s) ==>
      && !s.ctx && ReaderOnTrack(s, env) && CountOnTrack(s, env) && OutsOnTrack(s.outs, env)
  }

  lemma OnTrackReader(s: Sys, env: Env, step: Step)
    requires Enabled(s, env, step) && !IsRecvStep(step) && env.reply.Streaming?
    requires OrderInv(s, env) && StreamInv(s, env) && OnTrack(s, env) && !Disturbed(Apply(s, env, step))
    ensures OnTrack(Apply(s, env, step), env)
  {
    assert !Disturbed(s);
    StreamReaderPlace(s, env, step);
    ReaderTrack(s, env, step);
    assert step.HandOver? ==> s.delivered < |env.body.frames|;
    hide OutsOnTrack, StreamInv, ReaderOnTrack;
  }

  lemma ReaderTrack(s: Sys, env: Env, step: Step)
    requires Enabled(s, env, step) && !IsRecvStep(step) && env.reply.Streaming?
    requires OrderInv(s, env) && ReaderOnTrack(s, env) && !s.ctx && !Disturbed(Apply(s, env, step))
    ensures ReaderOnTrack(Apply(s, env, step), env) && !Apply(s, env, step).ctx
  {
  }

  lemma OnTrackRecv(s: Sys, env: Env, step: Step)
    requires Enabled(s, env, step) && IsRecvStep(step) && env.respStream
    requires OrderInv(s, env) && CloseInv(s) && StreamInv(s, env) && OnTrack(s, env) && !Disturbed(s)
    ensures OnTrack(Apply(s, env, step), env)
  {
    hide FramesOk, SawCleanEnd, FrameOutcome, EndOutcome;
    if step.DecodeIt? {
      assert Apply(s, env, step) == Return(s, FrameOutcome(env, s.pc.i)) by {
        DecodeReturns(s, env);
      }
    } else if step.CheckDone? || step.AfterClosed? {
      assert s.sh.done ==> EndOf(s.sh) == EndOutcome(env) && s.delivered == |env.body.frames|;
    }
    hide EndOf;
  }

  lemma DecodeReturns(s: Sys, env: Env)
    requires OrderInv(s, env) && s.pc.Have? && env.respStream
    ensures Apply(s, env, DecodeIt) == Return(s, FrameOutcome(env, s.pc.i))
  {
  }

  lemma {:induction false} OnTrackReachable(env: Env, s: Sys, steps: seq<Step>, s': Sys)
    requires Inv(s, env) && ValidEnv(env) && env.respStream && env.reply.Streaming?
    requires StreamInv(s, env) && OnTrack(s, env) && IsRun(s, env, steps, s')
    ensures OnTrack(s', env)
    decreases |steps|
  {
    if steps != [] {
      var step := steps[0];
      var s1 := Apply(s, env, step);
      InvStep(s, env, step);
      if |s1.outs| == |s.outs| {
        StreamQuietStep(s, env, step);
      } else {
        StreamReturnStep(s, env, step);
      }
      OnTrackStep(s, env, step);
      hide Inv, StreamInv, Apply, Enabled, OnTrack;
      OnTrackReachable(env, s1, steps[1..], s');
    }
  }

  lemma OnTrackStep(s: Sys, env: Env, step: Step)
    requires Inv(s, env) && env.respStream && env.reply.Streaming? && Enabled(s, env, step)
    requires StreamInv(s, env) && OnTrack(s, env)
    ensures OnTrack(Apply(s, env, step), env)
  {
    hide StreamInv, EndInv, CtxInv, ReaderOnTrack, CountOnTrack, OutsOnTrack, OrderInv, CloseInv;
    if !Disturbed(Apply(s, env, step)) {
      if IsRecvStep(step) {
        OnTrackRecv(s, env, step);
      } else {
        OnTrackReader(s, env, step);
      }
    }
  }

  /** The concurrent client refines a plain reading of the body: in every
      interleaving that no cancellation and no connection failure disturbs, the
      i-th RecvMsg of a streaming response returns the i-th message of the body,
      and once there are no more, how the body ended, for ever. */
  lemma StreamRefinesBody(env: Env, steps: seq<Step>, s: Sys)
    requires IsRun(Init(), env, steps, s) && env.respStream && env.reply.Streaming?
    requires !s.external && !s.faulted
    ensures forall i :: 0 <= i < |s.outs| ==> s.outs[i] == Reference(env, i)
  {
    InitInv(env);
    OnTrackReachable(env, Init(), steps, s);
  }

  /** And once it is over, the trailer is the one in the body. */
  lemma TrailerTaken(env: Env, steps: seq<Step>, s: Sys)
    requires IsRun(Init(), env, steps, s) && env.respStream && env.reply.Streaming?
    requires !s.external && !s.faulted && s.sh.done
    requires EndOutcome(env) == CleanEnd || (EndOutcome(env).Failed? && EndOutcome(env).f.StatusError?)
    ensures TookTrailer(s, env, s.sh.tr)
  {
    InitInv(env);
    OnTrackReachable(env, Init(), steps, s);
    StreamReachable(env, Init(), steps, s);
    hide FramesOk, CountOnTrack, OutsOnTrack, IsRun, EndOutcome, TookTrailer, SawCleanEnd;
    assert ReaderOnTrack(s, env) && ReaderOver(s.rd) && EndOf(s.sh) == EndOutcome(env);
    assert s.sh.rErr.None?;
  }
}
