/** Every outcome of a GRPC-over-HTTP stream has its cause: what RecvMsg can return in
    any run, with any cancellation and failure of the connection. */
module HttpErrors {
  import opened Prelude
  import opened Framing
  import opened HttpStatus
  import opened HttpServer
  import opened HttpClient

  /** A frame among the first k whose decoding comes out as r. */
  ghost predicate SomeFrame(env: Env, k: nat, r: Option<Msg>) {
    exists i :: 0 <= i < k && i < |env.body.frames| && env.decode(env.body.frames[i]) == r
  }

  /** Everything before the body's end was delivered. */
  ghost predicate AtEnd(s: Sys, env: Env) {
    s.delivered == |env.body.frames|
  }

  function StatOf(t: HttpTrailer): Stat {
    Stat(t.code, t.message, t.details)
  }

  /** The cause of a failure; `cut` says whether the connection failed. */
  ghost predicate Caused(s: Sys, env: Env, cut: bool, f: Failure) {
    match f
    case ContextError => s.ctx
    case TransportError => cut
    case SetupError(e) => env.reply == NoReply(e) || env.reply == BadHeaders(e)
    case BodyError(e) => AtEnd(s, env) && env.body.end == Broken(e)
    case BadTrailer => AtEnd(s, env) && env.body.end.TrailerEnd? && env.decodeTrailer(env.body.end.data) == None
    case InvalidMessage => SomeFrame(env, s.delivered, None)
    case TooManyResponses => !env.respStream && s.delivered >= 2
    case StatusError(st) =>
      && st.code != CODE_OK
      && (env.reply == ErrorStatus(st) || exists t :: TookTrailer(s, env, t) && StatOf(t) == st)
  }

  ghost predicate Genuine(s: Sys, env: Env, cut: bool, o: Outcome) {
    match o
    case Got(m) => SomeFrame(env, s.delivered, Some(m))
    case CleanEnd => exists t :: TookTrailer(s, env, t) && t.code == CODE_OK
    case Failed(f) => Caused(s, env, cut, f)
  }

  // ----- Causes last -----

  ghost predicate GoesOn(s: Sys, s': Sys, env: Env, cut: bool, cut': bool) {
    && (s.ctx ==> s'.ctx) && (cut ==> cut')
    && s.delivered <= s'.delivered <= |env.body.frames|
  }

  lemma GenuineLasts(s: Sys, s': Sys, env: Env, cut: bool, cut': bool, o: Outcome)
    requires GoesOn(s, s', env, cut, cut') && Genuine(s, env, cut, o)
    ensures Genuine(s', env, cut', o)
  {
    if o.Got? {
      var i :| 0 <= i < s.delivered && i < |env.body.frames| && env.decode(env.body.frames[i]) == Some(o.m);
      assert 0 <= i < s'.delivered;
    } else if o.CleanEnd? {
      var t :| TookTrailer(s, env, t) && t.code == CODE_OK;
      assert TookTrailer(s', env, t);
    } else {
      CausedLasts(s, s', env, cut, cut', o.f);
    }
  }

  lemma CausedLasts(s: Sys, s': Sys, env: Env, cut: bool, cut': bool, f: Failure)
    requires GoesOn(s, s', env, cut, cut') && Caused(s, env, cut, f)
    ensures Caused(s', env, cut', f)
  {
    if f.InvalidMessage? {
      var i :| 0 <= i < s.delivered && i < |env.body.frames| && env.decode(env.body.frames[i]) == None;
      assert 0 <= i < s'.delivered;
    } else if f.StatusError? && env.reply != ErrorStatus(f.stat) {
      var t :| TookTrailer(s, env, t) && StatOf(t) == f.stat;
      assert TookTrailer(s', env, t);
    }
  }

  // ----- What is on record has its cause -----

  ghost predicate TrailerFrom(s: Sys, env: Env) {
    || s.sh.tr == NO_TRAILER
    || (env.reply.ErrorStatus? && StatOf(s.sh.tr) == env.reply.stat)
    || TookTrailer(s, env, s.sh.tr)
  }

  /** The response RecvMsg holds while it checks for a second one. */
  ghost predicate HeldFrom(s: Sys, env: Env) {
    match s.pc
    case Select2(m) => SomeFrame(env, s.delivered, Some(m)) && !env.respStream && s.delivered >= 1
    case SawClosed2(m) => SomeFrame(env, s.delivered, Some(m))
    case SawSecond => !env.respStream && s.delivered >= 2
    case _ => true
  }

  ghost predicate ErrorFrom(s: Sys, env: Env, cut: bool) {
    s.sh.rErr.Some? ==> Caused(s, env, cut, s.sh.rErr.value)
  }

  ghost predicate ExitFrom(s: Sys, env: Env, cut: bool) {
    s.rd.Exiting? && s.rd.err.Some? ==> Caused(s, env, cut, s.rd.err.value)
  }

  ghost predicate RecordInv(s: Sys, env: Env, cut: bool) {
    ErrorFrom(s, env, cut) && ExitFrom(s, env, cut) && TrailerFrom(s, env) && HeldFrom(s, env)
  }

  ghost predicate OutsInv(s: Sys, env: Env, cut: bool) {
    forall o :: o in s.outs ==> Genuine(s, env, cut, o)
  }

  ghost function Cuts(cut: bool, step: Step): bool {
    cut || step.ReadFails?
  }

  lemma StepGoesOn(s: Sys, env: Env, step: Step, cut: bool)
    requires Enabled(s, env, step) && OrderInv(s, env) && OrderInv(Apply(s, env, step), env)
    ensures GoesOn(s, Apply(s, env, step), env, cut, Cuts(cut, step))
  {
    hide EndOf;
  }

  /** What the end of the stream reads as has its cause. */
  lemma EndIsGenuine(s: Sys, env: Env, cut: bool)
    requires Inv(s, env) && ValidEnv(env) && s.sh.done && RecordInv(s, env, cut)
    ensures Genuine(s, env, cut, EndOf(s.sh))
  {
    if EndOf(s.sh) == CleanEnd {
      CleanEndMeans(s, env);
    } else if s.sh.rErr.None? {
      hide Inv, HeldFrom;
    }
  }

  // The error on record.

  lemma ErrorStep(s: Sys, env: Env, step: Step, cut: bool)
    requires Enabled(s, env, step) && OrderInv(s, env) && RecordInv(s, env, cut)
    requires GoesOn(s, Apply(s, env, step), env, cut, Cuts(cut, step))
    ensures ErrorFrom(Apply(s, env, step), env, Cuts(cut, step))
  {
    var s' := Apply(s, env, step);
    if s.sh.rErr.Some? {
      CausedLasts(s, s', env, cut, Cuts(cut, step), s.sh.rErr.value);
    }
    if step.LockForExit? || step.LockForTrailer? || step.AfterSecond? {
      hide SomeFrame, TookTrailer, EndOf;
    } else {
      ErrorKept(s, env, step);
      hide Apply, Enabled, OrderInv, Caused;
    }
  }

  lemma ErrorKept(s: Sys, env: Env, step: Step)
    requires Enabled(s, env, step) && !step.LockForExit? && !step.LockForTrailer? && !step.AfterSecond?
    ensures Apply(s, env, step).sh.rErr == s.sh.rErr
  {
    hide EndOf;
  }

  // The error doHttpCall is about to record.

  lemma ExitStep(s: Sys, env: Env, step: Step, cut: bool)
    requires Enabled(s, env, step) && OrderInv(s, env) && RecordInv(s, env, cut)
    requires GoesOn(s, Apply(s, env, step), env, cut, Cuts(cut, step))
    ensures ExitFrom(Apply(s, env, step), env, Cuts(cut, step))
  {
    var s' := Apply(s, env, step);
    if s'.rd.Exiting? && !s.rd.Exiting? {
      NewExit(s, env, step, cut);
    } else if s'.rd.Exiting? {
      ExitKept(s, env, step);
      hide Apply, Enabled, OrderInv, Caused, ErrorFrom, TrailerFrom, HeldFrom;
      if s.rd.err.Some? {
        CausedLasts(s, s', env, cut, Cuts(cut, step), s.rd.err.value);
      }
    }
  }

  lemma ExitKept(s: Sys, env: Env, step: Step)
    requires Enabled(s, env, step) && s.rd.Exiting? && Apply(s, env, step).rd.Exiting?
    ensures Apply(s, env, step).rd == s.rd
  {
    hide EndOf;
  }

  lemma NewExit(s: Sys, env: Env, step: Step, cut: bool)
    requires Enabled(s, env, step) && OrderInv(s, env) && Apply(s, env, step).rd.Exiting? && !s.rd.Exiting?
    ensures ExitFrom(Apply(s, env, step), env, Cuts(cut, step))
  {
    hide SomeFrame, TookTrailer, EndOf;
  }

  // The trailer.

  lemma TrailerStep(s: Sys, env: Env, step: Step, cut: bool)
    requires Enabled(s, env, step) && OrderInv(s, env) && TrailerFrom(s, env)
    requires GoesOn(s, Apply(s, env, step), env, cut, Cuts(cut, step))
    ensures TrailerFrom(Apply(s, env, step), env)
  {
    if !step.RoundTrip? && !step.LockForTrailer? {
      TrailerKept(s, env, step);
      hide Apply, Enabled, OrderInv;
    }
  }

  lemma TrailerKept(s: Sys, env: Env, step: Step)
    requires Enabled(s, env, step) && !step.RoundTrip? && !step.LockForTrailer?
    ensures Apply(s, env, step).sh.tr == s.sh.tr
  {
    hide EndOf;
  }

  // The response in RecvMsg's hands.

  lemma HeldStep(s: Sys, env: Env, step: Step)
    requires Enabled(s, env, step) && OrderInv(s, env) && HeldFrom(s, env)
    requires s.delivered <= Apply(s, env, step).delivered
    ensures HeldFrom(Apply(s, env, step), env)
  {
    if step.DecodeIt? {
      var r := env.decode(env.body.frames[s.pc.i]);
      assert 0 <= s.pc.i < s.delivered && SomeFrame(env, s.delivered, r);
    }
    hide SomeFrame, EndOf;
  }

  // Steps.

  lemma RecordStep(s: Sys, env: Env, step: Step, cut: bool)
    requires Enabled(s, env, step) && OrderInv(s, env) && RecordInv(s, env, cut)
    requires OrderInv(Apply(s, env, step), env)
    ensures RecordInv(Apply(s, env, step), env, Cuts(cut, step))
  {
    StepGoesOn(s, env, step, cut);
    hide OrderInv, ErrorFrom, ExitFrom, TrailerFrom, HeldFrom, Apply, Enabled, Cuts;
    ErrorStep(s, env, step, cut);
    ExitStep(s, env, step, cut);
    TrailerStep(s, env, step, cut);
    HeldStep(s, env, step);
  }

  // What RecvMsg returns.

  lemma DecodingReturns(s: Sys, env: Env, cut: bool)
    requires OrderInv(s, env) && Enabled(s, env, DecodeIt)
    ensures forall o :: o in Apply(s, env, DecodeIt).outs && o !in s.outs ==> Genuine(s, env, cut, o)
  {
    var r := env.decode(env.body.frames[s.pc.i]);
    assert 0 <= s.pc.i < s.delivered && SomeFrame(env, s.delivered, r);
    hide SomeFrame, TookTrailer;
  }

  lemma SecondReturns(s: Sys, env: Env, cut: bool)
    requires Enabled(s, env, AfterSecond) && RecordInv(s, env, cut)
    ensures forall o :: o in Apply(s, env, AfterSecond).outs && o !in s.outs ==> Genuine(s, env, cut, o)
  {
    hide SomeFrame, TookTrailer, TrailerFrom, ExitFrom;
  }

  /** The other ways in which RecvMsg returns. */
  lemma OtherReturns(s: Sys, env: Env, step: Step, cut: bool)
    requires Inv(s, env) && ValidEnv(env) && Enabled(s, env, step) && RecordInv(s, env, cut) && IsRecvStep(step)
    requires !step.DecodeIt? && !step.AfterSecond?
    ensures forall o :: o in Apply(s, env, step).outs && o !in s.outs ==> Genuine(s, env, cut, o)
  {
    if s.sh.done {
      EndIsGenuine(s, env, cut);
    }
    hide EndOf, Inv, TrailerFrom, TookTrailer, SomeFrame, ErrorFrom, ExitFrom;
  }

  lemma NewIsGenuine(s: Sys, env: Env, step: Step, cut: bool)
    requires Inv(s, env) && ValidEnv(env) && Enabled(s, env, step) && RecordInv(s, env, cut)
    ensures forall o :: o in Apply(s, env, step).outs && o !in s.outs ==> Genuine(s, env, cut, o)
  {
    if !IsRecvStep(step) {
      ReaderReturnsNothing(s, env, step);
    } else {
      assert OrderInv(s, env);
      hide Inv, OrderInv, RecordInv, Apply, Enabled, Genuine;
      match step {
        case DecodeIt => DecodingReturns(s, env, cut);
        case AfterSecond => SecondReturns(s, env, cut);
        case _ => OtherReturns(s, env, step, cut);
      }
    }
  }

  lemma ReaderReturnsNothing(s: Sys, env: Env, step: Step)
    requires Enabled(s, env, step) && !IsRecvStep(step)
    ensures Apply(s, env, step).outs == s.outs
  {
  }

  lemma OutsStep(s: Sys, env: Env, step: Step, cut: bool)
    requires Enabled(s, env, step) && Inv(s, env) && Inv(Apply(s, env, step), env) && ValidEnv(env)
    requires RecordInv(s, env, cut) && OutsInv(s, env, cut)
    ensures OutsInv(Apply(s, env, step), env, Cuts(cut, step))
  {
    var s' := Apply(s, env, step);
    NewIsGenuine(s, env, step, cut);
    StepGoesOn(s, env, step, cut);
    hide Inv, ValidEnv, RecordInv, Apply, Enabled, Genuine, GoesOn, Cuts;
    forall o | o in s'.outs ensures Genuine(s', env, Cuts(cut, step), o) {
      assert Genuine(s, env, cut, o);
      GenuineLasts(s, s', env, cut, Cuts(cut, step), o);
    }
  }

  lemma OrderOf(s: Sys, env: Env)
    requires Inv(s, env)
    ensures OrderInv(s, env)
  {
    hide OrderInv;
  }

  lemma {:induction false} GenuineReachable(env: Env, s: Sys, before: seq<Step>, steps: seq<Step>, s': Sys)
    requires Inv(s, env) && ValidEnv(env) && IsRun(s, env, steps, s')
    requires RecordInv(s, env, ReadFails in before) && OutsInv(s, env, ReadFails in before)
    ensures OutsInv(s', env, ReadFails in before + steps)
    decreases |steps|
  {
    if steps == [] {
      assert before + steps == before;
    } else {
      assert OrderInv(s, env);
      hide Inv, OrderInv, ValidEnv, RecordInv, OutsInv, Apply, Enabled;
      var step, s1 := steps[0], Apply(s, env, steps[0]);
      InvStep(s, env, step);
      assert OrderInv(s1, env) by {
        OrderOf(s1, env);
      }
      RecordStep(s, env, step, ReadFails in before);
      OutsStep(s, env, step, ReadFails in before);
      GenuineReachable(env, s1, before + [step], steps[1..], s');
      assert before + steps == before + [step] + steps[1..];
    }
  }

  /** Every outcome of every RecvMsg, in any run: a message is one of those handed over
      so far; the end needs an OK trailer behind all of them; an error of the context a
      context that is done; one of the connection a read that failed; and all others
      what their names say. */
  lemma OutcomesAreGenuine(env: Env, steps: seq<Step>, s: Sys)
    requires IsRun(Init(), env, steps, s) && ValidEnv(env)
    ensures forall o :: o in s.outs ==> Genuine(s, env, ReadFails in steps, o)
  {
    InitInv(env);
    hide IsRun, Genuine;
    GenuineReachable(env, Init(), [], steps, s);
    assert [] + steps == steps;
  }

  /** And the end of the context releases a RecvMsg that waits for a message. */
  lemma ReleasedByContext(s: Sys, env: Env)
    requires (s.pc.Select1? || s.pc.Select2?) && s.ctx
    ensures exists step :: Enabled(s, env, step) && Apply(s, env, step) == Return(s, Failed(ContextError))
  {
    assert Enabled(s, env, RecvSeesCtx);
  }

  // ----- Calls that get no reply -----

  ghost predicate SetupOnly(s: Sys, e: string) {
    !Disturbed(s) ==>
      && !s.ctx && (s.pc.Idle? || s.pc.Entering? || s.pc.Select1? || s.pc.SawClosed1?)
      && (s.rd.Starting? || s.rd == Exiting(Some(SetupError(e))) || LockHeld(s.rd) || s.rd.Finished?)
      && s.sh.rErr == (if s.rd.Starting? || s.rd.Exiting? then None else Some(SetupError(e)))
      && (s.sh.done ==> ReaderOver(s.rd))
      && forall o :: o in s.outs ==> o == Failed(SetupError(e))
  }

  lemma SetupStep(s: Sys, env: Env, step: Step, e: string)
    requires env.reply == NoReply(e) || env.reply == BadHeaders(e)
    requires CloseInv(s) && SetupOnly(s, e) && Enabled(s, env, step)
    ensures SetupOnly(Apply(s, env, step), e)
  {
  }

  lemma {:induction false} SetupReachable(env: Env, s: Sys, steps: seq<Step>, s': Sys, e: string)
    requires env.reply == NoReply(e) || env.reply == BadHeaders(e)
    requires Inv(s, env) && SetupOnly(s, e) && IsRun(s, env, steps, s')
    ensures SetupOnly(s', e)
    decreases |steps|
  {
    hide OrderInv, CloseInv, EndInv, CtxInv, SetupOnly, Apply, Enabled;
    if steps != [] {
      InvStep(s, env, steps[0]);
      SetupStep(s, env, steps[0], e);
      SetupReachable(env, Apply(s, env, steps[0]), steps[1..], s', e);
    }
  }

  /** Undisturbed, every RecvMsg of a call without a reply, or with headers that cannot
      be read, returns the error for that. */
  lemma SetupFails(env: Env, steps: seq<Step>, s: Sys, e: string)
    requires env.reply == NoReply(e) || env.reply == BadHeaders(e)
    requires IsRun(Init(), env, steps, s) && !Disturbed(s)
    ensures forall o :: o in s.outs ==> o == Failed(SetupError(e))
  {
    InitInv(env);
    SetupReachable(env, Init(), steps, s, e);
  }
}
