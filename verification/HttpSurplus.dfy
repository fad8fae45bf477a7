/** What follows the error for a surplus response over HTTP: when it lasts, and when
    the trailer replaces it. */
module HttpSurplus {
  import opened Prelude
  import opened Framing
  import opened HttpStatus
  import opened HttpServer
  import opened HttpClient
  import opened HttpUnary
  import opened HttpWitnesses

  const SURPLUS := Failed(TooManyResponses)

  /** The surplus message is the body's last, and a trailer follows it. */
  ghost predicate TrailerBehind(env: Env, d: nat) {
    |env.body.frames| == d + 2 && env.body.end.TrailerEnd?
  }

  /** The surplus error up to some point, and from there how the body ended. */
  ghost predicate ReplacedOnce(env: Env, d: nat, outs: seq<Outcome>) {
    exists k :: ReplacedAt(env, d, outs, k)
  }

  ghost predicate ReplacedAt(env: Env, d: nat, outs: seq<Outcome>, k: nat) {
    && d < k <= |outs|
    && (forall j :: d <= j < k ==> outs[j] == SURPLUS)
    && (forall j :: k <= j < |outs| ==> outs[j] == EndOutcome(env))
  }

  lemma NotYet(env: Env, d: nat, outs: seq<Outcome>)
    requires AllSurplus(d, outs) && d < |outs|
    ensures ReplacedOnce(env, d, outs)
  {
    hide EndOutcome;
    assert ReplacedAt(env, d, outs, |outs|);
  }

  lemma OneMoreEnd(env: Env, d: nat, outs: seq<Outcome>)
    requires ReplacedOnce(env, d, outs)
    ensures ReplacedOnce(env, d, outs + [EndOutcome(env)])
  {
    hide EndOutcome;
    var k :| ReplacedAt(env, d, outs, k);
    assert ReplacedAt(env, d, outs + [EndOutcome(env)], k);
  }

  ghost predicate AllSurplus(d: nat, outs: seq<Outcome>) {
    forall j :: d <= j < |outs| ==> outs[j] == SURPLUS
  }

  /** The stream is over for RecvMsg, with the surplus error on record or replaced by
      a trailer that the reader took afterwards. */
  ghost predicate AfterSurplus(s: Sys, env: Env, d: nat) {
    && s.sh.done && s.ctx && (s.pc.Idle? || s.pc.Entering?) && s.delivered == d + 2
    && (if s.sh.rErr == Some(TooManyResponses) then AllSurplus(d, s.outs)
        else
          && TrailerBehind(env, d) && (LockHeld(s.rd) || s.rd.Finished?)
          && EndOf(s.sh) == EndOutcome(env) && ReplacedOnce(env, d, s.outs))
  }

  ghost predicate Surplus(s: Sys, d: nat) {
    !Disturbed(s) && |s.outs| > d && s.outs[d] == SURPLUS
  }

  lemma EndIsNotSurplus(env: Env)
    ensures EndOutcome(env) != SURPLUS
  {
  }

  /** The error is first returned by the check for a second message. */
  lemma SurplusBegins(s: Sys, env: Env, step: Step, d: nat)
    requires Enabled(s, env, step) && !env.respStream
    requires ReaderOnTrack(s, env) && Position(s, env, d) && |s.outs| <= d
    requires |Apply(s, env, step).outs| > |s.outs| && Surplus(Apply(s, env, step), d)
    ensures AfterSurplus(Apply(s, env, step), env, d)
  {
    NewOutcome(s, env, step);
    EndIsNotSurplus(env);
    var s' := Apply(s, env, step);
    assert |s.outs| == d && s'.outs[d] == SURPLUS;
    hide EndOutcome;
    assert step.AfterSecond? && s.sh.rErr.None?;
  }

  lemma SurplusReader(s: Sys, env: Env, step: Step, d: nat)
    requires Enabled(s, env, step) && !IsRecvStep(step)
    requires OrderInv(s, env) && AfterSurplus(s, env, d) && s.outs != [] && |s.outs| > d
    ensures AfterSurplus(Apply(s, env, step), env, d)
  {
    hide ReplacedOnce, AllSurplus;
    if step.LockForTrailer? {
      assert s.sh.rErr == Some(TooManyResponses);
      NotYet(env, d, s.outs);
    } else {
      hide EndOutcome;
    }
  }

  lemma SurplusRecv(s: Sys, env: Env, step: Step, d: nat)
    requires Enabled(s, env, step) && IsRecvStep(step) && AfterSurplus(s, env, d) && |s.outs| > d
    ensures AfterSurplus(Apply(s, env, step), env, d)
  {
    hide EndOutcome, ReplacedOnce;
    if step.CheckDone? {
      hide Enabled;
      OneMoreEndIf(s, env, d);
    }
  }

  lemma OneMoreEndIf(s: Sys, env: Env, d: nat)
    requires s.sh.done && !LockHeld(s.rd) && AfterSurplus(s, env, d) && |s.outs| > d && s.pc.Entering?
    ensures Apply(s, env, CheckDone) == Return(s, EndOf(s.sh))
    ensures AfterSurplus(Return(s, EndOf(s.sh)), env, d)
  {
    hide EndOutcome, ReplacedOnce;
    if s.sh.rErr != Some(TooManyResponses) {
      OneMoreEnd(env, d, s.outs);
    }
  }

  lemma SurplusStep(s: Sys, env: Env, step: Step, d: nat)
    requires IsFirst(env, d) && Inv(s, env) && !env.respStream && Enabled(s, env, step)
    requires Track(s, env, d) && (Surplus(s, d) ==> AfterSurplus(s, env, d))
    requires Surplus(Apply(s, env, step), d)
    ensures AfterSurplus(Apply(s, env, step), env, d)
  {
    hide Apply, Enabled, OrderInv, CloseInv, EndInv, CtxInv, ReaderOnTrack, Position, Expected, AfterSurplus;
    var s' := Apply(s, env, step);
    if Disturbed(s) {
      DisturbedStays(s, env, step);
    } else {
      OutsGrow(s, env, step);
      if |s.outs| > d {
        OutsKept(s, env, step);
        if IsRecvStep(step) {
          SurplusRecv(s, env, step, d);
        } else {
          SurplusReader(s, env, step, d);
        }
      } else {
        SurplusBegins(s, env, step, d);
      }
    }
  }

  lemma OutsKept(s: Sys, env: Env, step: Step)
    requires Enabled(s, env, step)
    ensures s.outs <= Apply(s, env, step).outs
  {
    if |Apply(s, env, step).outs| > |s.outs| {
      NewOutcome(s, env, step);
    } else {
      OutsGrow(s, env, step);
    }
    hide Apply, Enabled;
  }

  lemma {:induction false} SurplusReachable(env: Env, s: Sys, steps: seq<Step>, s': Sys, d: nat)
    requires IsFirst(env, d) && Inv(s, env) && !env.respStream && env.reply.Streaming?
    requires Track(s, env, d) && ErrorKinds(s) && (Surplus(s, d) ==> AfterSurplus(s, env, d))
    requires IsRun(s, env, steps, s')
    ensures Surplus(s', d) ==> AfterSurplus(s', env, d)
    decreases |steps|
  {
    hide Inv, Apply, Enabled, Track, ErrorKinds, Surplus, AfterSurplus;
    if steps != [] {
      var s1 := Apply(s, env, steps[0]);
      InvStep(s, env, steps[0]);
      KindsStep(s, env, steps[0]);
      TrackStep(s, env, steps[0], d);
      if Surplus(s1, d) {
        SurplusStep(s, env, steps[0], d);
      }
      SurplusReachable(env, s1, steps[1..], s', d);
    }
  }

  /** In every interleaving that nothing outside disturbs: once the error for a surplus
      response was returned (d is the first frame that decodes), every later RecvMsg
      returns it too, unless the surplus message was the last one and a trailer
      follows; then it is returned until the reader takes that trailer, and from
      there on what the trailer says. */
  lemma AfterSurplusError(env: Env, steps: seq<Step>, s: Sys, d: nat)
    requires IsRun(Init(), env, steps, s) && !env.respStream && env.reply.Streaming?
    requires d == FirstDecodable(env, 0) && Surplus(s, d)
    ensures if TrailerBehind(env, d) then ReplacedOnce(env, d, s.outs) else AllSurplus(d, s.outs)
  {
    InitInv(env);
    SurplusReachable(env, Init(), steps, s, d);
    hide IsRun, Inv, Track, ReplacedOnce, AllSurplus, EndOutcome, EndOf;
    if s.sh.rErr == Some(TooManyResponses) {
      NotYet(env, d, s.outs);
    }
  }

  // ----- And the trailer can always get its turn -----

  /** Every frame before the first decodable one was reported. */
  ghost function Reported(i: nat): Sys {
    Init().(rd := Reading(i), delivered := i, outs := Reports(i))
  }

  function Reports(n: nat): (r: seq<Outcome>)
    ensures |r| == n
  {
    if n == 0 then [] else Reports(n - 1) + [Failed(InvalidMessage)]
  }

  lemma {:induction false} ReportAll(env: Env, d: nat, i: nat) returns (steps: seq<Step>)
    requires env.reply.Streaming? && !env.respStream && d < |env.body.frames| && Undecodable(env, d) && i <= d
    ensures IsRun(Init(), env, steps, Reported(i))
  {
    if i == 0 {
      var s;
      steps, s := StartRun(env);
      steps, s := Then(env, steps, s, RoundTrip);
      assert s == Reported(0);
    } else {
      steps := ReportAll(env, d, i - 1);
      steps := ReportOne(env, i - 1, steps);
    }
  }

  lemma ReportOne(env: Env, i: nat, before: seq<Step>) returns (steps: seq<Step>)
    requires i < |env.body.frames| && !Decodes(env, i) && IsRun(Init(), env, before, Reported(i))
    ensures IsRun(Init(), env, steps, Reported(i + 1))
  {
    hide IsRun, EndOf;
    var s := Reported(i);
    steps, s := Taken(env, i, before, s);
    steps, s := Then(env, steps, s, DecodeIt);
    assert s == Reported(i + 1);
  }

  /** RecvMsg is called and takes the next frame. */
  lemma Taken(env: Env, i: nat, before: seq<Step>, s: Sys) returns (steps: seq<Step>, s': Sys)
    requires i < |env.body.frames| && IsRun(Init(), env, before, s)
    requires s.rd == Reading(i) && s.delivered == i && s.pc.Idle? && s.sh == Init().sh
    ensures IsRun(Init(), env, steps, s')
    ensures s' == s.(rd := Reading(i + 1), delivered := i + 1, pc := Have(i))
  {
    hide IsRun, EndOf;
    steps, s' := Then(env, before, s, ReadItem);
    steps, s' := Then(env, steps, s', CallRecv);
    steps, s' := Then(env, steps, s', CheckDone);
    steps, s' := Then(env, steps, s', HandOver);
  }

  /** The surplus message is met. */
  lemma MeetSurplus(env: Env, d: nat, before: seq<Step>) returns (steps: seq<Step>, s: Sys)
    requires d + 1 < |env.body.frames| && Decodes(env, d) && !env.respStream
    requires IsRun(Init(), env, before, Reported(d))
    ensures IsRun(Init(), env, steps, s)
    ensures s == Reported(d).(rd := Reading(d + 2), delivered := d + 2, ctx := true,
                              outs := Reported(d).outs + [SURPLUS],
                              sh := Init().sh.(rErr := Some(TooManyResponses), done := true))
  {
    hide IsRun, EndOf;
    steps, s := Taken(env, d, before, Reported(d));
    steps, s := Then(env, steps, s, DecodeIt);
    var m := env.decode(env.body.frames[d]).value;
    assert s == Reported(d).(rd := Reading(d + 1), delivered := d + 1, pc := Select2(m));
    steps, s := Then(env, steps, s, ReadItem);
    steps, s := Then(env, steps, s, HandOver);
    steps, s := Then(env, steps, s, AfterSecond);
  }

  /** The reader takes the trailer, whatever it decodes to. */
  lemma TakeTrailer(env: Env, before: seq<Step>, s: Sys) returns (steps: seq<Step>, s': Sys)
    requires IsRun(Init(), env, before, s)
    requires s.rd == Reading(|env.body.frames|) && env.body.end.TrailerEnd? && !s.sh.closed
    ensures IsRun(Init(), env, steps, s')
    ensures s'.rd.Finished? && s'.sh.done && EndOf(s'.sh) == EndOutcome(env)
    ensures s'.pc == s.pc && s'.outs == s.outs && s'.external == s.external && s'.faulted == s.faulted
  {
    hide IsRun;
    steps, s' := LockTrailer(env, before, s);
    hide EndOf, EndOutcome;
    var locked := s';
    steps, s' := Then(env, steps, s', SetDone);
    SameEnd(locked.sh, s'.sh);
    steps, s' := Then(env, steps, s', CloseChannel);
    SameEnd(locked.sh, s'.sh);
    steps, s' := Then(env, steps, s', Unlock);
  }

  lemma LockTrailer(env: Env, before: seq<Step>, s: Sys) returns (steps: seq<Step>, s': Sys)
    requires IsRun(Init(), env, before, s)
    requires s.rd == Reading(|env.body.frames|) && env.body.end.TrailerEnd? && !s.sh.closed
    ensures IsRun(Init(), env, steps, s')
    ensures s'.rd.Locked? && EndOf(s'.sh) == EndOutcome(env) && !s'.sh.closed
    ensures s'.pc == s.pc && s'.outs == s.outs && s'.external == s.external && s'.faulted == s.faulted
  {
    hide IsRun;
    steps, s' := Then(env, before, s, ReadItem);
    steps, s' := Then(env, steps, s', LockForTrailer);
  }

  lemma SameEnd(a: Shared, b: Shared)
    requires a.rErr == b.rErr && a.tr == b.tr
    ensures EndOf(a) == EndOf(b)
  {
  }

  lemma ReplacingRun(env: Env, d: nat) returns (steps: seq<Step>, s: Sys)
    requires env.reply.Streaming? && !env.respStream && Undecodable(env, d) && Decodes(env, d) && TrailerBehind(env, d)
    ensures IsRun(Init(), env, steps, s) && Surplus(s, d)
    ensures |s.outs| == d + 2 && s.outs[d + 1] == EndOutcome(env)
  {
    hide IsRun;
    steps := ReportAll(env, d, d);
    steps, s := MeetSurplus(env, d, steps);
    steps, s := TakeTrailer(env, steps, s);
    hide EndOf, EndOutcome;
    steps, s := Then(env, steps, s, CallRecv);
    steps, s := Then(env, steps, s, CheckDone);
  }

  /** Some undisturbed run returns the surplus error and later something else. */
  ghost predicate CanBeReplaced(env: Env, d: nat) {
    exists steps, s :: IsRun(Init(), env, steps, s) && Surplus(s, d) && !AllSurplus(d, s.outs)
  }

  /** The error for a surplus response can be replaced exactly when the body ends with
      the surplus message and a trailer. */
  lemma ReplacedExactlyWhen(env: Env, d: nat)
    requires env.reply.Streaming? && !env.respStream
    requires d == FirstDecodable(env, 0) && d < |env.body.frames|
    ensures CanBeReplaced(env, d) <==> TrailerBehind(env, d)
  {
    hide IsRun, AllSurplus, ReplacedOnce, Surplus;
    if CanBeReplaced(env, d) {
      var steps, s :| IsRun(Init(), env, steps, s) && Surplus(s, d) && !AllSurplus(d, s.outs);
      AfterSurplusError(env, steps, s, d);
    }
    if TrailerBehind(env, d) {
      var steps, s := ReplacingRun(env, d);
      NotAllSurplus(env, d, s.outs);
    }
  }

  lemma NotAllSurplus(env: Env, d: nat, outs: seq<Outcome>)
    requires |outs| == d + 2 && outs[d + 1] == EndOutcome(env)
    ensures !AllSurplus(d, outs)
  {
    EndIsNotSurplus(env);
    hide EndOutcome;
  }
}
