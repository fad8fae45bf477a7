/** Calls over HTTP that expect a single response: when RecvMsg can succeed. */
module HttpUnary {
  import opened Prelude
  import opened Framing
  import opened HttpStatus
  import opened HttpServer
  import opened HttpClient

  ghost predicate Decodes(env: Env, i: nat) {
    i < |env.body.frames| && env.decode(env.body.frames[i]).Some?
  }

  /** None of the first k frames decodes. */
  ghost predicate Undecodable(env: Env, k: int) {
    forall i :: 0 <= i < k ==> !Decodes(env, i)
  }

  /** The body's last frame is m, the only one that decodes, and an OK trailer follows. */
  ghost predicate SingleResponse(env: Env, m: Msg) {
    var n := |env.body.frames|;
    && n > 0 && Undecodable(env, n - 1)
    && env.decode(env.body.frames[n - 1]) == Some(m)
    && EndOutcome(env) == CleanEnd
  }

  function Msgs(outs: seq<Outcome>): seq<Msg> {
    if outs == [] then []
    else
      var n := |outs| - 1;
      Msgs(outs[..n]) + (if outs[n].Got? then [outs[n].m] else [])
  }

  lemma MsgsAppend(outs: seq<Outcome>, o: Outcome)
    ensures Msgs(outs + [o]) == Msgs(outs) + (if o.Got? then [o.m] else [])
  {
    assert (outs + [o])[..|outs|] == outs;
  }

  /** Where RecvMsg stands in the search for its one message. */
  ghost predicate PcOk(s: Sys, env: Env) {
    match s.pc
    case Idle => s.sh.done || Undecodable(env, s.delivered)
    case Entering => s.sh.done || Undecodable(env, s.delivered)
    case Select1 => Undecodable(env, s.delivered)
    case SawClosed1 => Undecodable(env, s.delivered)
    case Have(i) => Undecodable(env, s.delivered - 1)
    case Select2(m) => TookResponse(s, env, m)
    case SawClosed2(m) => TookResponse(s, env, m)
    case SawSecond => true
  }

  ghost predicate TookResponse(s: Sys, env: Env, m: Msg) {
    && s.delivered > 0 && Undecodable(env, s.delivered - 1)
    && s.delivered <= |env.body.frames| && env.decode(env.body.frames[s.delivered - 1]) == Some(m)
  }

  ghost predicate ResponseInv(s: Sys, env: Env) {
    && (s.sh.rErr.Some? ==> s.sh.done || s.rd.Locked?)
    && (Msgs(s.outs) != [] ==> s.sh.done && (s.pc.Idle? || s.pc.Entering?))
    && |Msgs(s.outs)| <= 1
    && (forall m :: m in Msgs(s.outs) ==> SingleResponse(env, m))
  }

  /** Without outside cancellation. */
  ghost predicate UnaryInv(s: Sys, env: Env) {
    !s.external ==> PcOk(s, env) && ResponseInv(s, env)
  }

  /** Apart from the hand-over, the reader moves neither RecvMsg nor what was delivered. */
  lemma ReaderKeepsPlace(s: Sys, env: Env, step: Step)
    requires Enabled(s, env, step) && !IsRecvStep(step) && !step.HandOver?
    ensures var s' := Apply(s, env, step);
            s'.pc == s.pc && s'.delivered == s.delivered && (s.sh.done ==> s'.sh.done)
  {
  }

  lemma PcReaderStep(s: Sys, env: Env, step: Step)
    requires Enabled(s, env, step) && !IsRecvStep(step)
    requires OrderInv(s, env) && PcOk(s, env)
    ensures PcOk(Apply(s, env, step), env)
  {
    if step.HandOver? {
      hide Undecodable;
    } else {
      ReaderKeepsPlace(s, env, step);
      hide Undecodable, Apply, Enabled, OrderInv, IsRecvStep;
    }
  }

  lemma PcRecvStep(s: Sys, env: Env, step: Step)
    requires Enabled(s, env, step) && IsRecvStep(step) && !env.respStream && !s.external
    requires OrderInv(s, env) && CloseInv(s) && CtxInv(s) && PcOk(s, env) && ResponseInv(s, env)
    ensures PcOk(Apply(s, env, step), env)
  {
    if step.DecodeIt? {
      assert env.decode(env.body.frames[s.pc.i]).None? ==> Undecodable(env, s.delivered);
    }
    hide Undecodable, EndOf, Msgs;
  }

  lemma ResponseReaderStep(s: Sys, env: Env, step: Step)
    requires Enabled(s, env, step) && !IsRecvStep(step) && ResponseInv(s, env)
    ensures ResponseInv(Apply(s, env, step), env)
  {
    hide Msgs, SingleResponse, EndOf;
  }

  /** A clean end, or the response of a single-response call. */
  predicate Succeeds(env: Env, o: Outcome) {
    o == CleanEnd || (!env.respStream && o.Got?)
  }

  lemma NewOutcome(s: Sys, env: Env, step: Step)
    requires Enabled(s, env, step) && |Apply(s, env, step).outs| > |s.outs|
    ensures var s' := Apply(s, env, step);
            && |s'.outs| == |s.outs| + 1 && s'.outs[..|s.outs|] == s.outs
            && (Succeeds(env, s'.outs[|s.outs|]) ==> s.sh.done && EndOf(s.sh) == CleanEnd)
  {
    OneNewOutcome(s, env, step);
    EndIsNoMessage(s.sh);
    hide EndOf;
  }

  lemma OneNewOutcome(s: Sys, env: Env, step: Step)
    requires Enabled(s, env, step) && |Apply(s, env, step).outs| > |s.outs|
    ensures var s' := Apply(s, env, step);
            |s'.outs| == |s.outs| + 1 && s'.outs[..|s.outs|] == s.outs
  {
    hide EndOf;
  }

  lemma EndIsNoMessage(sh: Shared)
    ensures !EndOf(sh).Got?
  {
  }

  lemma OutsGrow(s: Sys, env: Env, step: Step)
    requires Enabled(s, env, step)
    ensures var s' := Apply(s, env, step);
            |s'.outs| > |s.outs| || s'.outs == s.outs
  {
    hide EndOf;
  }

  /** A successful return: everything was delivered and the trailer was OK. */
  lemma SuccessIsSingle(s: Sys, env: Env)
    requires Inv(s, env) && ValidEnv(env) && PcOk(s, env) && s.pc.SawClosed2? && EndOf(s.sh) == CleanEnd
    ensures SingleResponse(env, s.pc.m)
  {
    CleanEndMeans(s, env);
  }

  lemma ResponseRecvStep(s: Sys, env: Env, step: Step)
    requires Enabled(s, env, step) && IsRecvStep(step) && !env.respStream && !s.external
    requires Inv(s, env) && ValidEnv(env) && PcOk(s, env) && ResponseInv(s, env)
    ensures ResponseInv(Apply(s, env, step), env)
  {
    hide Apply, Enabled, OrderInv, EndInv, CtxInv, CloseInv, PcOk, ResponseInv, EndOf, IsRecvStep, Succeeds;
    var s' := Apply(s, env, step);
    OutsGrow(s, env, step);
    if |s'.outs| == |s.outs| {
      ResponseQuietStep(s, env, step);
    } else {
      NewOutcome(s, env, step);
      var o := s'.outs[|s.outs|];
      assert s'.outs == s.outs + [o];
      MsgsAppend(s.outs, o);
      if step.AfterClosed? && s.pc.SawClosed2? && EndOf(s.sh) == CleanEnd {
        SuccessIsSingle(s, env);
      }
      ResponseReturnStep(s, env, step, o);
    }
  }

  lemma ResponseQuietStep(s: Sys, env: Env, step: Step)
    requires Enabled(s, env, step) && IsRecvStep(step) && |Apply(s, env, step).outs| == |s.outs|
    requires CloseInv(s) && ResponseInv(s, env)
    ensures ResponseInv(Apply(s, env, step), env)
  {
    hide Msgs, SingleResponse, EndOf;
  }

  lemma ResponseReturnStep(s: Sys, env: Env, step: Step, o: Outcome)
    requires Enabled(s, env, step) && IsRecvStep(step) && !env.respStream
    requires CloseInv(s) && ResponseInv(s, env)
    requires Apply(s, env, step).outs == s.outs + [o]
    requires Msgs(s.outs + [o]) == Msgs(s.outs) + (if o.Got? then [o.m] else [])
    requires step.AfterClosed? && s.pc.SawClosed2? && EndOf(s.sh) == CleanEnd ==> SingleResponse(env, s.pc.m)
    ensures ResponseInv(Apply(s, env, step), env)
  {
    hide Msgs, SingleResponse;
    var s' := Apply(s, env, step);
    assert s'.outs[|s.outs|] == o;
    if o.Got? {
      assert step.AfterClosed? && s.pc.SawClosed2? && o.m == s.pc.m;
      assert Msgs(s'.outs) == [o.m];
    } else {
      assert Msgs(s.outs) + [] == Msgs(s.outs);
    }
  }

  lemma UnaryStep(s: Sys, env: Env, step: Step)
    requires Inv(s, env) && ValidEnv(env) && !env.respStream && UnaryInv(s, env) && Enabled(s, env, step)
    ensures UnaryInv(Apply(s, env, step), env)
  {
    hide PcOk, ResponseInv, OrderInv, CloseInv, EndInv, CtxInv;
    if step.Cancel? || s.external {
      ExternalStays(s, env, step);
    } else if IsRecvStep(step) {
      PcRecvStep(s, env, step);
      ResponseRecvStep(s, env, step);
    } else {
      PcReaderStep(s, env, step);
      ResponseReaderStep(s, env, step);
    }
  }

  lemma ExternalStays(s: Sys, env: Env, step: Step)
    requires Enabled(s, env, step) && (step.Cancel? || s.external)
    ensures Apply(s, env, step).external
  {
    hide EndOf;
  }

  lemma {:induction false} UnaryReachable(env: Env, s: Sys, steps: seq<Step>, s': Sys)
    requires Inv(s, env) && ValidEnv(env) && !env.respStream && UnaryInv(s, env) && IsRun(s, env, steps, s')
    ensures UnaryInv(s', env)
    decreases |steps|
  {
    hide Inv, UnaryInv, Apply, Enabled;
    if steps != [] {
      InvStep(s, env, steps[0]);
      UnaryStep(s, env, steps[0]);
      UnaryReachable(env, Apply(s, env, steps[0]), steps[1..], s');
    }
  }

  /** Unary-response discipline: without outside cancellation RecvMsg returns nil
      at most once, and only if the body's last frame is the only one that
      decodes and an OK trailer follows it. */
  lemma SuccessMeansSingle(env: Env, steps: seq<Step>, s: Sys)
    requires IsRun(Init(), env, steps, s) && ValidEnv(env) && !env.respStream && !s.external
    ensures |Msgs(s.outs)| <= 1
    ensures forall m :: m in Msgs(s.outs) ==> SingleResponse(env, m)
  {
    InitInv(env);
    UnaryReachable(env, Init(), steps, s);
  }

  /** So if every frame decodes, success means the body holds exactly one message. */
  lemma SuccessMeansOneMessage(env: Env, steps: seq<Step>, s: Sys)
    requires IsRun(Init(), env, steps, s) && ValidEnv(env) && !env.respStream && !s.external
    requires forall i :: 0 <= i < |env.body.frames| ==> Decodes(env, i)
    ensures forall m :: m in Msgs(s.outs) ==>
                          |env.body.frames| == 1 && env.decode(env.body.frames[0]) == Some(m) && EndOutcome(env) == CleanEnd
  {
    SuccessMeansSingle(env, steps, s);
    assert |env.body.frames| > 1 ==> Decodes(env, 0);
  }

  // ----- Undisturbed calls: exactly when they succeed -----

  /** The first frame that decodes, or the number of frames if none does. */
  ghost function FirstDecodable(env: Env, from: nat): (d: nat)
    requires from <= |env.body.frames|
    ensures from <= d <= |env.body.frames|
    ensures forall i :: from <= i < d ==> !Decodes(env, i)
    ensures d < |env.body.frames| ==> Decodes(env, d)
    decreases |env.body.frames| - from
  {
    if from == |env.body.frames| || Decodes(env, from) then from else FirstDecodable(env, from + 1)
  }

  /** What the first RecvMsg calls return, up to the one that finds a message d. */
  ghost predicate Expected(env: Env, d: nat, i: nat, o: Outcome)
    requires d < |env.body.frames| ==> Decodes(env, d)
  {
    var n := |env.body.frames|;
    if i < d then o == Failed(InvalidMessage)
    else if d >= n then o == EndOutcome(env)
    else if d + 1 < n then
      || o == Failed(TooManyResponses)
      || (d + 2 == n && o == EndOutcome(env) && o.Failed? && !o.f.StatusError?)
    else if EndOutcome(env) == CleanEnd then o == Got(env.decode(env.body.frames[d]).value)
    else o == EndOutcome(env)
  }

  ghost predicate Position(s: Sys, env: Env, d: nat) {
    match s.pc
    case Select2(m) => |s.outs| == d && s.delivered == d + 1 && Decodes(env, d) && env.decode(env.body.frames[d]) == Some(m)
    case SawClosed2(m) => |s.outs| == d && s.delivered == d + 1 && Decodes(env, d) && env.decode(env.body.frames[d]) == Some(m)
    case SawSecond => |s.outs| == d && s.delivered == d + 2
    case _ => |s.outs| == s.delivered - InHand(s.pc)
  }

  ghost predicate Track(s: Sys, env: Env, d: nat)
    requires d < |env.body.frames| ==> Decodes(env, d)
  {
    !Disturbed(s) ==>
      && (forall i :: 0 <= i < |s.outs| && i <= d ==> Expected(env, d, i, s.outs[i]))
      && (|s.outs| <= d ==> !s.ctx && ReaderOnTrack(s, env) && Position(s, env, d))
  }

  ghost predicate IsFirst(env: Env, d: nat) {
    && d <= |env.body.frames| && Undecodable(env, d)
    && (d < |env.body.frames| ==> Decodes(env, d))
  }

  lemma TrackReader(s: Sys, env: Env, step: Step, d: nat)
    requires Enabled(s, env, step) && !IsRecvStep(step) && env.reply.Streaming? && IsFirst(env, d)
    requires OrderInv(s, env) && Track(s, env, d) && !Disturbed(Apply(s, env, step))
    ensures Track(Apply(s, env, step), env, d)
  {
    var s' := Apply(s, env, step);
    assert !Disturbed(s) && s'.outs == s.outs;
    if |s.outs| <= d {
      ReaderTrack(s, env, step);
      ReaderPosition(s, env, step, d);
    }
    hide Expected, ReaderOnTrack, Position, OrderInv;
  }

  lemma ReaderPosition(s: Sys, env: Env, step: Step, d: nat)
    requires Enabled(s, env, step) && !IsRecvStep(step) && OrderInv(s, env)
    requires Position(s, env, d) && |s.outs| <= d
    ensures Position(Apply(s, env, step), env, d)
  {
  }

  lemma TrackRecv(s: Sys, env: Env, step: Step, d: nat)
    requires ErrorKinds(s)
    requires Enabled(s, env, step) && IsRecvStep(step) && !env.respStream && IsFirst(env, d)
    requires OrderInv(s, env) && CloseInv(s) && Track(s, env, d) && !Disturbed(s)
    ensures Track(Apply(s, env, step), env, d)
  {
    var s' := Apply(s, env, step);
    if |s.outs| <= d {
      if |s'.outs| == |s.outs| {
        RecvQuiet(s, env, step, d);
      } else {
        RecvReturns(s, env, step, d);
      }
    } else {
      LaterOutcomes(s, env, step);
    }
    hide Expected, ReaderOnTrack, Position, OrderInv, CloseInv, IsFirst;
  }

  lemma LaterOutcomes(s: Sys, env: Env, step: Step)
    requires Enabled(s, env, step) && IsRecvStep(step)
    ensures s.outs <= Apply(s, env, step).outs
  {
    hide EndOf;
  }

  lemma RecvQuiet(s: Sys, env: Env, step: Step, d: nat)
    requires Enabled(s, env, step) && IsRecvStep(step) && !env.respStream && IsFirst(env, d)
    requires OrderInv(s, env) && CloseInv(s) && !s.ctx && ReaderOnTrack(s, env) && Position(s, env, d)
    requires |s.outs| <= d && |Apply(s, env, step).outs| == |s.outs|
    ensures var s' := Apply(s, env, step);
            s'.outs == s.outs && !s'.ctx && ReaderOnTrack(s', env) && Position(s', env, d)
  {
    hide EndOf, EndOutcome;
    if step.DecodeIt? {
      assert s.pc.i == |s.outs| && Decodes(env, s.pc.i);
      assert s.pc.i >= d;
    }
  }

  /** No run keeps a status, or a message that does not decode, as the stream's error. */
  lemma KindsStep(s: Sys, env: Env, step: Step)
    requires Enabled(s, env, step) && ErrorKinds(s)
    ensures ErrorKinds(Apply(s, env, step))
  {
    if IsRecvStep(step) {
      KindsRecvStep(s, env, step);
    } else {
      KindsReaderStep(s, env, step);
    }
    hide Apply, Enabled, ErrorKinds, IsRecvStep;
  }

  lemma KindsRecvStep(s: Sys, env: Env, step: Step)
    requires Enabled(s, env, step) && ErrorKinds(s) && IsRecvStep(step)
    ensures ErrorKinds(Apply(s, env, step))
  {
    hide EndOf;
  }

  lemma KindsReaderStep(s: Sys, env: Env, step: Step)
    requires Enabled(s, env, step) && ErrorKinds(s) && !IsRecvStep(step)
    ensures ErrorKinds(Apply(s, env, step))
  {
    hide EndOf;
  }

  lemma ErrorEnds(sh: Shared)
    ensures sh.rErr.Some? ==> EndOf(sh) == Failed(sh.rErr.value)
  {
  }

  lemma RecvReturns(s: Sys, env: Env, step: Step, d: nat)
    requires ErrorKinds(s)
    requires Enabled(s, env, step) && IsRecvStep(step) && !env.respStream && IsFirst(env, d)
    requires OrderInv(s, env) && CloseInv(s) && !s.ctx && ReaderOnTrack(s, env) && Position(s, env, d)
    requires |s.outs| <= d && |Apply(s, env, step).outs| != |s.outs|
    ensures var s' := Apply(s, env, step);
            && |s'.outs| == |s.outs| + 1 && s'.outs[..|s.outs|] == s.outs
            && Expected(env, d, |s.outs|, s'.outs[|s.outs|])
            && (|s'.outs| <= d ==> !s'.ctx && ReaderOnTrack(s', env) && Position(s', env, d))
  {
    ErrorEnds(s.sh);
    hide EndOf, EndOutcome;
  }

  lemma TrackStep(s: Sys, env: Env, step: Step, d: nat)
    requires ErrorKinds(s)
    requires IsFirst(env, d) && Inv(s, env) && !env.respStream && env.reply.Streaming?
    requires Enabled(s, env, step) && Track(s, env, d)
    ensures Track(Apply(s, env, step), env, d)
  {
    hide Enabled, Apply, Expected, ReaderOnTrack, Position, OrderInv, CloseInv, EndInv, CtxInv;
    if Disturbed(s) {
      DisturbedStays(s, env, step);
    }
    if !Disturbed(Apply(s, env, step)) {
      if IsRecvStep(step) {
        TrackRecv(s, env, step, d);
      } else {
        TrackReader(s, env, step, d);
      }
    }
  }

  lemma DisturbedStays(s: Sys, env: Env, step: Step)
    requires Enabled(s, env, step) && Disturbed(s)
    ensures Disturbed(Apply(s, env, step))
  {
    hide EndOf;
  }

  lemma {:induction false} TrackReachable(env: Env, s: Sys, steps: seq<Step>, s': Sys, d: nat)
    requires Inv(s, env) && !env.respStream && env.reply.Streaming? && IsFirst(env, d)
    requires Track(s, env, d) && ErrorKinds(s) && IsRun(s, env, steps, s')
    ensures Track(s', env, d)
    decreases |steps|
  {
    hide Inv, Apply, Enabled, Track, IsRecvStep, ErrorKinds;
    if steps != [] {
      InvStep(s, env, steps[0]);
      KindsStep(s, env, steps[0]);
      TrackStep(s, env, steps[0], d);
      TrackReachable(env, Apply(s, env, steps[0]), steps[1..], s', d);
    }
  }

  /** A single-response call that nothing disturbs, in every interleaving: each
      undecodable frame is reported, and the call that finds the first decodable
      frame succeeds if and only if that frame is the last and an OK trailer
      follows; a failure in the trailer or a second message turns it into an
      error. */
  lemma UndisturbedOutcome(env: Env, steps: seq<Step>, s: Sys)
    requires IsRun(Init(), env, steps, s) && !env.respStream && env.reply.Streaming?
    requires !s.external && !s.faulted
    ensures var d := FirstDecodable(env, 0);
            forall i :: 0 <= i < |s.outs| && i <= d ==> Expected(env, d, i, s.outs[i])
  {
    InitInv(env);
    TrackReachable(env, Init(), steps, s, FirstDecodable(env, 0));
  }

  // ----- Every run, disturbed or not -----

  /** The body ends in a trailer that says OK. */
  ghost predicate EndsWell(env: Env) {
    && env.body.end.TrailerEnd?
    && env.decodeTrailer(env.body.end.data).Some?
    && env.decodeTrailer(env.body.end.data).value.code == CODE_OK
  }

  lemma SuccessNeedsEnd(s: Sys, env: Env, step: Step)
    requires Inv(s, env) && ValidEnv(env) && Enabled(s, env, step)
    requires |Apply(s, env, step).outs| > |s.outs|
    ensures var s' := Apply(s, env, step);
            && s'.outs[..|s.outs|] == s.outs && |s'.outs| == |s.outs| + 1
            && (Succeeds(env, s'.outs[|s.outs|]) ==> EndsWell(env))
  {
    NewOutcome(s, env, step);
    if s.sh.done && EndOf(s.sh) == CleanEnd {
      CleanEndMeans(s, env);
    }
    hide Inv, Apply, Enabled, EndOf, Succeeds;
  }

  lemma {:induction false} SuccessReachable(env: Env, s: Sys, steps: seq<Step>, s': Sys)
    requires Inv(s, env) && ValidEnv(env) && IsRun(s, env, steps, s')
    requires forall o :: o in s.outs && Succeeds(env, o) ==> EndsWell(env)
    ensures forall o :: o in s'.outs && Succeeds(env, o) ==> EndsWell(env)
    decreases |steps|
  {
    hide Inv, Apply, Enabled, Succeeds, EndsWell;
    if steps != [] {
      var s1 := Apply(s, env, steps[0]);
      InvStep(s, env, steps[0]);
      OutsGrow(s, env, steps[0]);
      if |s1.outs| > |s.outs| {
        SuccessNeedsEnd(s, env, steps[0]);
        assert s1.outs == s.outs + [s1.outs[|s.outs|]];
      }
      SuccessReachable(env, s1, steps[1..], s');
    }
  }

  /** In every interleaving, with any cancellation and any failure of the connection,
      a clean end of a stream or the response of a single-response call is reported
      only if the body ends in a trailer that says OK. */
  lemma SuccessMeansEnd(env: Env, steps: seq<Step>, s: Sys)
    requires IsRun(Init(), env, steps, s) && ValidEnv(env)
    ensures forall o :: o in s.outs && Succeeds(env, o) ==> EndsWell(env)
  {
    InitInv(env);
    SuccessReachable(env, Init(), steps, s);
  }
}
