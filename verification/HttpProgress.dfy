/** Progress of a GRPC-over-HTTP stream: how long its two goroutines can go on, and
    when they wait for somebody else. */
module HttpProgress {
  import opened Prelude
  import opened Framing
  import opened HttpStatus
  import opened HttpServer
  import opened HttpClient

  // ----- How much there is left to do -----

  /** Steps doHttpCall still has to take, at most, for n frames. */
  function ReaderWork(rd: ReaderPc, n: nat): nat {
    match rd
    case Starting => 2 * n + 6
    case Reading(i) => if i <= n then 2 * (n - i) + 5 else 5
    case Sending(i) => if i <= n then 2 * (n - i) + 4 else 4
    case Exiting(_) => 4
    case AtTrailer(_) => 4
    case Locked => 3
    case DoneSet => 2
    case Closed => 1
    case Finished => 0
  }

  /** Steps until RecvMsg returns, at most. */
  function RecvWork(pc: RecvPc): nat {
    match pc
    case Idle => 0
    case Entering => 5
    case Select1 => 4
    case Have(_) => 3
    case Select2(_) => 2
    case SawClosed1 => 1
    case SawClosed2(_) => 1
    case SawSecond => 1
  }

  /** Steps of doHttpCall; a hand-over is also one of RecvMsg. */
  predicate IsReaderStep(step: Step) {
    !IsRecvStep(step) && !step.Cancel?
  }

  /** Neither a new call nor a cancellation. */
  predicate IsProgress(step: Step) {
    !step.CallRecv? && !step.Cancel?
  }

  ghost function Work(s: Sys, env: Env): nat {
    ReaderWork(s.rd, |env.body.frames|) + RecvWork(s.pc)
  }

  lemma ReaderStepWork(s: Sys, env: Env, step: Step)
    requires OrderInv(s, env) && Enabled(s, env, step) && !IsRecvStep(step)
    ensures var s', n := Apply(s, env, step), |env.body.frames|;
            && (step.Cancel? ==> s'.rd == s.rd)
            && (IsReaderStep(step) ==> ReaderWork(s'.rd, n) < ReaderWork(s.rd, n))
            && RecvWork(s'.pc) <= RecvWork(s.pc)
  {
  }

  ghost predicate RecvLowers(s: Sys, step: Step, s': Sys) {
    && s'.rd == s.rd
    && (step.CallRecv? ==> RecvWork(s'.pc) == 5)
    && (!step.CallRecv? ==> RecvWork(s'.pc) < RecvWork(s.pc))
  }

  predicate BeforeMessage(step: Step) {
    step.CallRecv? || step.CheckDone? || step.RecvSeesCtx? || step.RecvSeesClosed?
  }

  lemma SelectLowers(s: Sys, env: Env, step: Step)
    requires Enabled(s, env, step) && BeforeMessage(step)
    ensures RecvLowers(s, step, Apply(s, env, step))
  {
    hide EndOf;
  }

  lemma MessageLowers(s: Sys, env: Env, step: Step)
    requires Enabled(s, env, step) && IsRecvStep(step) && !BeforeMessage(step)
    requires (s.pc.SawClosed1? || s.pc.SawClosed2?) ==> s.sh.done
    ensures RecvLowers(s, step, Apply(s, env, step))
  {
    hide EndOf;
  }

  lemma RecvStepWork(s: Sys, env: Env, step: Step)
    requires Enabled(s, env, step) && IsRecvStep(step)
    requires (s.pc.SawClosed1? || s.pc.SawClosed2?) ==> s.sh.done
    ensures RecvLowers(s, step, Apply(s, env, step))
  {
    hide Apply, Enabled, RecvLowers;
    if BeforeMessage(step) {
      SelectLowers(s, env, step);
    } else {
      MessageLowers(s, env, step);
    }
  }

  lemma ClosedIsDone(s: Sys)
    requires CloseInv(s) && (s.pc.SawClosed1? || s.pc.SawClosed2?)
    ensures s.sh.done
  {
  }

  lemma StepWork(s: Sys, env: Env, step: Step)
    requires Inv(s, env) && Enabled(s, env, step)
    ensures var s' := Apply(s, env, step);
            && (IsProgress(step) ==> Work(s', env) < Work(s, env))
            && (step.Cancel? ==> Work(s', env) <= Work(s, env))
            && (step.CallRecv? ==> Work(s', env) == Work(s, env) + 5)
            && ReaderWork(s'.rd, |env.body.frames|) <= ReaderWork(s.rd, |env.body.frames|)
  {
    if IsRecvStep(step) {
      if s.pc.SawClosed1? || s.pc.SawClosed2? {
        ClosedIsDone(s);
      }
      assert step.CallRecv? ==> s.pc.Idle?;
      hide Inv, Apply, Enabled, ReaderWork;
      RecvStepWork(s, env, step);
    } else {
      hide Apply, Enabled, ReaderWork, RecvWork;
      ReaderStepWork(s, env, step);
    }
  }

  function Count(b: bool): nat { if b then 1 else 0 }

  function ProgressSteps(steps: seq<Step>): nat {
    if steps == [] then 0 else Count(IsProgress(steps[0])) + ProgressSteps(steps[1..])
  }

  function Calls(steps: seq<Step>): nat {
    if steps == [] then 0 else Count(steps[0].CallRecv?) + Calls(steps[1..])
  }

  function ReaderSteps(steps: seq<Step>): nat {
    if steps == [] then 0 else Count(IsReaderStep(steps[0])) + ReaderSteps(steps[1..])
  }

  lemma {:induction false} RunWork(s: Sys, env: Env, steps: seq<Step>, s': Sys)
    requires Inv(s, env) && IsRun(s, env, steps, s')
    ensures Inv(s', env)
    ensures ProgressSteps(steps) + Work(s', env) <= Work(s, env) + 5 * Calls(steps)
    ensures ReaderSteps(steps) + ReaderWork(s'.rd, |env.body.frames|) <= ReaderWork(s.rd, |env.body.frames|)
    decreases |steps|
  {
    hide Inv, Apply, Enabled, Work, ReaderWork, IsProgress, IsReaderStep;
    if steps != [] {
      InvStep(s, env, steps[0]);
      StepWork(s, env, steps[0]);
      StepKinds(s, env, steps[0]);
      RunWork(Apply(s, env, steps[0]), env, steps[1..], s');
    }
  }

  lemma StepKinds(s: Sys, env: Env, step: Step)
    requires Inv(s, env) && Enabled(s, env, step)
    ensures IsProgress(step) || step.Cancel? || step.CallRecv?
    ensures IsProgress(step) ==> !step.CallRecv?
    ensures IsReaderStep(step) ==>
              ReaderWork(Apply(s, env, step).rd, |env.body.frames|) < ReaderWork(s.rd, |env.body.frames|)
  {
    if IsReaderStep(step) {
      ReaderStepWork(s, env, step);
    }
  }

  /** No stream goes on for ever by itself: in every run the steps of its goroutines
      are bounded by the length of the body and the number of RecvMsg calls. */
  lemma RunsAreBounded(env: Env, steps: seq<Step>, s: Sys)
    requires IsRun(Init(), env, steps, s)
    ensures ProgressSteps(steps) + Work(s, env) <= 2 * |env.body.frames| + 6 + 5 * Calls(steps)
  {
    InitInv(env);
    RunWork(Init(), env, steps, s);
    hide IsRun;
  }

  // ----- When something can happen -----

  /** Some goroutine can take a step, as long as RecvMsg is pending or the reader has
      something to do: it waits only for a caller, with a message in hand and the
      context live. */
  lemma NeverStuck(env: Env, steps: seq<Step>, s: Sys)
    requires IsRun(Init(), env, steps, s)
    ensures (exists step :: IsProgress(step) && Enabled(s, env, step))
       <==> !(s.pc.Idle? && (s.rd.Finished? || (s.rd.Sending? && !s.ctx)))
  {
    InitInv(env);
    RunWork(Init(), env, steps, s);
    hide IsRun, OrderInv, EndInv, CtxInv;
    if s.pc.Idle? && (s.rd.Finished? || (s.rd.Sending? && !s.ctx)) {
    } else if s.rd.Finished? || (s.rd.Sending? && !s.ctx) {
      RecvCanMove(s, env);
    } else {
      ReaderCanMove(s, env);
      var step :| IsReaderStep(step) && !step.HandOver? && Enabled(s, env, step);
      assert IsProgress(step);
    }
  }

  lemma ReaderCanMove(s: Sys, env: Env)
    requires !s.rd.Finished? && !(s.rd.Sending? && !s.ctx)
    ensures exists step :: IsReaderStep(step) && !step.HandOver? && Enabled(s, env, step)
  {
    var step := match s.rd
      case Starting => RoundTrip
      case Reading(_) => ReadItem
      case Sending(_) => SenderSeesCtx
      case Exiting(_) => LockForExit
      case AtTrailer(_) => LockForTrailer
      case Locked => SetDone
      case DoneSet => CloseChannel
      case _ => Unlock;
    assert IsReaderStep(step) && !step.HandOver? && Enabled(s, env, step);
  }

  lemma RecvCanMove(s: Sys, env: Env)
    requires CloseInv(s) && !s.pc.Idle? && (s.rd.Finished? || s.rd.Sending?)
    ensures exists step :: IsProgress(step) && Enabled(s, env, step)
  {
    var step := match s.pc
      case Entering => CheckDone
      case Have(_) => DecodeIt
      case SawSecond => AfterSecond
      case SawClosed1 => AfterClosed
      case SawClosed2(_) => AfterClosed
      case _ => if s.rd.Finished? then RecvSeesClosed else HandOver;
    assert IsProgress(step) && Enabled(s, env, step);
  }

  // ----- After a surplus response or a cancellation -----

  /** The error for a surplus response comes with a cancellation of the stream's own. */
  ghost predicate SurplusInv(s: Sys) {
    && (s.sh.rErr == Some(TooManyResponses) ==> s.ctx)
    && (Failed(TooManyResponses) in s.outs ==> s.ctx)
    && (s.rd.Exiting? ==> s.rd.err != Some(TooManyResponses))
    && (s.sh.done && !ReaderOver(s.rd) ==> s.ctx)
  }

  lemma SurplusStep(s: Sys, env: Env, step: Step)
    requires SurplusInv(s) && Enabled(s, env, step)
    ensures SurplusInv(Apply(s, env, step))
    ensures s.ctx ==> Apply(s, env, step).ctx
  {
    if IsRecvStep(step) {
      SurplusRecvStep(s, env, step);
    } else {
      SurplusReaderStep(s, env, step);
    }
    hide SurplusInv, Apply, Enabled;
  }

  lemma SurplusRecvStep(s: Sys, env: Env, step: Step)
    requires SurplusInv(s) && Enabled(s, env, step) && IsRecvStep(step)
    ensures SurplusInv(Apply(s, env, step))
    ensures s.ctx ==> Apply(s, env, step).ctx
  {
  }

  lemma SurplusReaderStep(s: Sys, env: Env, step: Step)
    requires SurplusInv(s) && Enabled(s, env, step) && !IsRecvStep(step)
    ensures SurplusInv(Apply(s, env, step))
    ensures s.ctx ==> Apply(s, env, step).ctx
  {
    hide EndOf;
  }

  lemma {:induction false} SurplusReachable(s: Sys, env: Env, steps: seq<Step>, s': Sys)
    requires SurplusInv(s) && IsRun(s, env, steps, s')
    ensures SurplusInv(s') && (s.ctx ==> s'.ctx)
    decreases |steps|
  {
    hide SurplusInv, Apply, Enabled;
    if steps != [] {
      SurplusStep(s, env, steps[0]);
      SurplusReachable(Apply(s, env, steps[0]), env, steps[1..], s');
    }
  }

  /** Once the context is done, as it is when RecvMsg has reported a surplus response,
      doHttpCall needs nobody any more: whatever else happens, it can take a step of
      its own until it is finished, and takes at most 2n + 6 for n frames. */
  lemma GivesUp(env: Env, before: seq<Step>, s: Sys, steps: seq<Step>, s': Sys)
    requires IsRun(Init(), env, before, s) && IsRun(s, env, steps, s')
    requires s.ctx || Failed(TooManyResponses) in s.outs
    ensures s'.ctx
    ensures ReaderSteps(steps) + ReaderWork(s'.rd, |env.body.frames|) <= 2 * |env.body.frames| + 6
    ensures s'.rd.Finished? || exists step :: IsReaderStep(step) && !step.HandOver? && Enabled(s', env, step)
  {
    InitInv(env);
    RunWork(Init(), env, before, s);
    RunWork(s, env, steps, s');
    SurplusReachable(Init(), env, before, s);
    SurplusReachable(s, env, steps, s');
    hide IsRun, Inv, Enabled;
    if !s'.rd.Finished? {
      ReaderCanMove(s', env);
    }
  }

  // ----- A caller that keeps receiving -----

  ghost predicate NoCancel(steps: seq<Step>) {
    forall i :: 0 <= i < |steps| ==> !steps[i].Cancel?
  }

  /** How far RecvMsg is from taking what the reader sends. */
  function Distance(pc: RecvPc): nat {
    match pc
    case Select1 => 0
    case Select2(_) => 0
    case Entering => 1
    case Idle => 2
    case _ => 3
  }

  /** A step that brings doHttpCall closer to its end, or RecvMsg closer to it. */
  ghost function NextStep(s: Sys): Step {
    match s.rd
    case Starting => RoundTrip
    case Reading(_) => ReadItem
    case Exiting(_) => LockForExit
    case AtTrailer(_) => LockForTrailer
    case Locked => SetDone
    case DoneSet => CloseChannel
    case Closed => Unlock
    case Finished => Cancel
    case Sending(_) =>
      if s.ctx then SenderSeesCtx
      else match s.pc
        case Idle => CallRecv
        case Entering => CheckDone
        case Have(_) => DecodeIt
        case SawSecond => AfterSecond
        case _ => HandOver
  }

  ghost predicate Closer(s: Sys, env: Env, s': Sys) {
    var n := |env.body.frames|;
    || ReaderWork(s'.rd, n) < ReaderWork(s.rd, n)
    || (s'.rd == s.rd && !s.ctx && (s'.ctx || Distance(s'.pc) < Distance(s.pc)))
  }

  lemma Advances(s: Sys, env: Env)
    requires OrderInv(s, env) && CloseInv(s) && SurplusInv(s) && !s.rd.Finished?
    ensures Enabled(s, env, NextStep(s)) && !NextStep(s).Cancel?
    ensures Closer(s, env, Apply(s, env, NextStep(s)))
  {
    if s.rd.Sending? && !s.ctx && !s.pc.Select1? && !s.pc.Select2? {
      RecvAdvances(s, env);
    } else {
      assert IsReaderStep(NextStep(s)) && Enabled(s, env, NextStep(s));
      hide CloseInv, SurplusInv, OrderInv, NextStep, Apply, Enabled, ReaderWork;
      ReaderStepWork(s, env, NextStep(s));
    }
  }

  lemma RecvAdvances(s: Sys, env: Env)
    requires CloseInv(s) && SurplusInv(s) && s.rd.Sending? && !s.ctx && !s.pc.Select1? && !s.pc.Select2?
    ensures Enabled(s, env, NextStep(s)) && !NextStep(s).Cancel?
    ensures Closer(s, env, Apply(s, env, NextStep(s)))
  {
    hide EndOf, ReaderWork;
  }

  /** From every point of every run the stream can be brought to its end without a
      cancellation, if only the caller keeps calling RecvMsg. */
  lemma {:induction false} CanFinish(env: Env, s: Sys) returns (steps: seq<Step>, s': Sys)
    requires Inv(s, env) && SurplusInv(s)
    ensures IsRun(s, env, steps, s') && NoCancel(steps) && s'.rd.Finished?
    decreases ReaderWork(s.rd, |env.body.frames|), Count(!s.ctx), Distance(s.pc)
  {
    steps, s' := [], s;
    assert IsRun(s, env, steps, s');
    if !s.rd.Finished? {
      Advances(s, env);
      var step := NextStep(s);
      hide Inv, SurplusInv, Apply, Enabled, NextStep, ReaderWork, Distance;
      InvStep(s, env, step);
      SurplusStep(s, env, step);
      var rest, end := CanFinish(env, Apply(s, env, step));
      steps, s' := [step] + rest, end;
      assert steps[1..] == rest;
    }
  }

  lemma AlwaysCanFinish(env: Env, before: seq<Step>, s: Sys) returns (steps: seq<Step>, s': Sys)
    requires IsRun(Init(), env, before, s)
    ensures IsRun(s, env, steps, s') && NoCancel(steps) && s'.rd.Finished?
  {
    InitInv(env);
    RunWork(Init(), env, before, s);
    SurplusReachable(Init(), env, before, s);
    hide IsRun, Inv, SurplusInv, NoCancel;
    steps, s' := CanFinish(env, s);
  }
}
