/** Concrete runs of a single-response call over HTTP that show what its
    discipline does not promise. */
module HttpWitnesses {
  import opened Prelude
  import opened Framing
  import opened HttpStatus
  import opened HttpServer
  import opened HttpClient
  import opened HttpUnary

  function DecodeText(b: Bytes): Option<Msg> {
    if b == [] then None else Some("ok")
  }

  function DecodeOk(b: Bytes): Option<HttpTrailer> {
    Some(HttpTrailer(map[], CODE_OK, OK_TEXT, []))
  }

  /** Two frames and an OK trailer. */
  function TwoFrames(first: Bytes): Env {
    Env(Streaming, Body([first, [1]], TrailerEnd([2])), false, DecodeText, DecodeOk)
  }

  lemma {:induction false} Extend(s: Sys, env: Env, steps: seq<Step>, mid: Sys, step: Step)
    requires IsRun(s, env, steps, mid) && Enabled(mid, env, step)
    ensures IsRun(s, env, steps + [step], Apply(mid, env, step))
    decreases |steps|
  {
    hide Apply, Enabled;
    if steps == [] {
      assert [step][1..] == [];
      assert steps + [step] == [step];
      assert IsRun(Apply(mid, env, step), env, [], Apply(mid, env, step));
    } else {
      assert (steps + [step])[1..] == steps[1..] + [step];
      Extend(Apply(s, env, steps[0]), env, steps[1..], mid, step);
    }
  }

  lemma Then(env: Env, steps: seq<Step>, s: Sys, step: Step) returns (steps': seq<Step>, s': Sys)
    requires IsRun(Init(), env, steps, s) && Enabled(s, env, step)
    ensures s' == Apply(s, env, step)
    ensures steps' == steps + [step] && IsRun(Init(), env, steps', s')
  {
    Extend(Init(), env, steps, s, step);
    steps', s' := steps + [step], Apply(s, env, step);
  }

  lemma StartRun(env: Env) returns (steps: seq<Step>, s: Sys)
    ensures steps == [] && s == Init() && IsRun(Init(), env, steps, s)
  {
    steps, s := [], Init();
  }

  /** The client takes the first frame. */
  lemma FirstTaken(first: Bytes) returns (steps: seq<Step>, s: Sys)
    ensures IsRun(Init(), TwoFrames(first), steps, s)
    ensures s == Init().(rd := Reading(1), delivered := 1, pc := Have(0))
  {
    var env := TwoFrames(first);
    hide IsRun;
    steps, s := StartRun(env);
    steps, s := Then(env, steps, s, RoundTrip);
    steps, s := Then(env, steps, s, ReadItem);
    steps, s := Then(env, steps, s, CallRecv);
    steps, s := Then(env, steps, s, CheckDone);
    steps, s := Then(env, steps, s, HandOver);
  }

  /** The reader meets the trailer and ends the stream. */
  lemma TrailerTaken(env: Env, before: seq<Step>, s: Sys) returns (steps: seq<Step>, s': Sys)
    requires IsRun(Init(), env, before, s)
    requires s.rd == Reading(|env.body.frames|) && env.body.end.TrailerEnd?
    requires env.decodeTrailer(env.body.end.data).Some? && !s.sh.closed
    ensures IsRun(Init(), env, steps, s')
    ensures s' == s.(rd := Finished,
                     sh := s.sh.(rErr := None, tr := env.decodeTrailer(env.body.end.data).value,
                                 done := true, closed := true))
  {
    hide IsRun;
    steps, s' := Then(env, before, s, ReadItem);
    steps, s' := Then(env, steps, s', LockForTrailer);
    steps, s' := Then(env, steps, s', SetDone);
    steps, s' := Then(env, steps, s', CloseChannel);
    steps, s' := Then(env, steps, s', Unlock);
  }

  /** Having reported the first frame as undecodable, the client takes the second. */
  lemma SecondTaken() returns (steps: seq<Step>, s: Sys)
    ensures IsRun(Init(), TwoFrames([]), steps, s)
    ensures s == Init().(rd := Reading(2), delivered := 2, pc := Have(1), outs := [Failed(InvalidMessage)])
  {
    var env := TwoFrames([]);
    steps, s := FirstTaken([]);
    hide IsRun, EndOf;
    steps, s := Then(env, steps, s, DecodeIt);
    assert s == Init().(rd := Reading(1), delivered := 1, outs := [Failed(InvalidMessage)]);
    steps, s := Then(env, steps, s, CallRecv);
    steps, s := Then(env, steps, s, CheckDone);
    steps, s := Then(env, steps, s, ReadItem);
    steps, s := Then(env, steps, s, HandOver);
  }

  /** The response in hand is returned once the channel closes after an OK trailer. */
  lemma ResponseReturned(env: Env, before: seq<Step>, s: Sys) returns (steps: seq<Step>, s': Sys)
    requires IsRun(Init(), env, before, s)
    requires s.pc.Select2? && s.rd.Finished? && s.sh.closed && s.sh.done && EndOf(s.sh) == CleanEnd
    ensures IsRun(Init(), env, steps, s')
    ensures s' == s.(pc := Idle, outs := s.outs + [Got(s.pc.m)])
  {
    hide IsRun, EndOf;
    steps, s' := Then(env, before, s, RecvSeesClosed);
    steps, s' := Then(env, steps, s', AfterClosed);
  }

  /** A body of two messages of which the first does not decode: the second
      RecvMsg succeeds although the server sent more than one response. */
  lemma SuccessAfterUndecodable() returns (steps: seq<Step>, s: Sys)
    ensures IsRun(Init(), TwoFrames([]), steps, s) && !s.external && !s.faulted
    ensures s.outs == [Failed(InvalidMessage), Got("ok")]
  {
    var env := TwoFrames([]);
    steps, s := SecondTaken();
    hide IsRun;
    steps, s := Then(env, steps, s, DecodeIt);
    assert s.pc == Select2("ok");
    steps, s := TrailerTaken(env, steps, s);
    steps, s := ResponseReturned(env, steps, s);
  }

  /** A second message ends the call with an error. */
  lemma SurplusSeen() returns (steps: seq<Step>, s: Sys)
    ensures IsRun(Init(), TwoFrames([1]), steps, s)
    ensures s == Init().(rd := Reading(2), delivered := 2, outs := [Failed(TooManyResponses)], ctx := true,
                         sh := Init().sh.(rErr := Some(TooManyResponses), done := true))
  {
    var env := TwoFrames([1]);
    steps, s := FirstTaken([1]);
    hide IsRun, EndOf;
    steps, s := Then(env, steps, s, DecodeIt);
    assert s == Init().(rd := Reading(1), delivered := 1, pc := Select2("ok"));
    steps, s := Then(env, steps, s, ReadItem);
    steps, s := Then(env, steps, s, HandOver);
    steps, s := Then(env, steps, s, AfterSecond);
  }

  /** That error can be replaced: the reader, its context cancelled, still takes
      the trailer, and the next RecvMsg reports a clean end. */
  lemma SurplusErrorReplaced() returns (steps: seq<Step>, s: Sys)
    ensures IsRun(Init(), TwoFrames([1]), steps, s) && !s.external && !s.faulted
    ensures s.outs == [Failed(TooManyResponses), CleanEnd]
  {
    var env := TwoFrames([1]);
    steps, s := SurplusSeen();
    hide IsRun;
    steps, s := TrailerTaken(env, steps, s);
    steps, s := Then(env, steps, s, CallRecv);
    steps, s := Then(env, steps, s, CheckDone);
  }
}
