/** The request direction of an in-process stream: what every interleaving keeps
    between the client's sends and the handler's receives. */
module InProcRequests {
  import opened Prelude
  import opened InProcStream
  import opened InProcSafety

  function ReqInHand(q: Requests): seq<Msg> {
    if q.rpc.RTaken? && q.rpc.item.ReqArrived? then [q.rpc.item.m] else []
  }

  function SendInFlight(q: Requests): seq<Msg> {
    if q.qpc.QWrote? then [q.qpc.m] else []
  }

  /** The messages the handler's RecvMsg returned. */
  function Received(outs: seq<SrvOutcome>): seq<Msg> {
    if outs == [] then []
    else
      var n := |outs| - 1;
      Received(outs[..n]) + (if outs[n].ReqGot? then [outs[n].m] else [])
  }

  lemma ReceivedAppend(outs: seq<SrvOutcome>, o: SrvOutcome)
    ensures Received(outs + [o]) == Received(outs) + (if o.ReqGot? then [o.m] else [])
  {
    assert (outs + [o])[..|outs|] == outs;
  }

  ghost predicate ReqInv(s: Sys) {
    var q := s.req;
    // a queue of capacity one, never misused
    && q.pushed == q.taken + q.buf && |q.buf| <= CAPACITY && !q.panicked
    && q.sendClosed == q.closed
    && (!q.qpc.QIdle? ==> !q.closed)
    // what was taken was received, up to the one in hand, while the server's context is live
    && q.received == Received(q.outs)
    && q.received <= q.taken
    && (!s.ctx.svr ==> q.taken == q.received + ReqInHand(q))
    && (q.rpc.RTaken? && q.rpc.item.ReqClosed? ==> q.closed && q.buf == [])
    // what SendMsg reported as sent was pushed, and nothing else while the client's context is live
    && q.sentOk <= q.pushed
    && (!s.ctx.cli ==> q.pushed == q.sentOk + SendInFlight(q))
    // the end the handler saw is the end of everything
    && (ReqEnd in q.outs ==> q.closed && q.received == q.pushed && q.buf == [] && ReqInHand(q) == [])
    && (forall i, j :: 0 <= i < j < |q.outs| && q.outs[i].ReqEnd? ==> !q.outs[j].ReqGot?)
  }

  ghost predicate IsRequestStep(step: Step) {
    step.CallClientSend? || step.CallCloseSend? || step.ReqPushes? || step.ReqSeesCtx? || step.ReqSeesDone?
    || step.ReqChecks? || step.CallServerRecv? || step.ServerTakes? || step.ServerSeesCtx? || step.ServerChecksTaken?
  }

  lemma ReqStep(s: Sys, step: Step)
    requires ReqInv(s) && Enabled(s, step)
    ensures ReqInv(Apply(s, step))
  {
    if !IsRequestStep(step) {
      ReqElsewhere(s, step);
    } else if step.ServerSeesCtx? || step.ServerChecksTaken? {
      ReqOutcome(s, step);
    } else {
      ReqOwnStep(s, step);
    }
  }

  lemma ReqElsewhere(s: Sys, step: Step)
    requires ReqInv(s) && Enabled(s, step) && !IsRequestStep(step)
    ensures ReqInv(Apply(s, step))
  {
    hide SetHeader, SendHeader, SetTrailer, SendMsg, AfterWrite, FinishFromHeaders, Resume, CheckTaken, Received;
    var s' := Apply(s, step);
    assert s'.req == s.req;
  }

  lemma ReqOwnStep(s: Sys, step: Step)
    requires ReqInv(s) && Enabled(s, step) && IsRequestStep(step)
    requires !step.ServerSeesCtx? && !step.ServerChecksTaken?
    ensures ReqInv(Apply(s, step))
  {
    hide ReqInv, Apply, Enabled;
    if step.CallServerRecv? || step.ServerTakes? {
      ReqTakeStep(s, step);
    } else if step.ReqPushes? || step.ReqChecks? {
      ReqPushStep(s, step);
    } else {
      ReqCallStep(s, step);
    }
  }

  lemma ReqTakeStep(s: Sys, step: Step)
    requires ReqInv(s) && Enabled(s, step) && (step.CallServerRecv? || step.ServerTakes?)
    ensures ReqInv(Apply(s, step))
  {
    hide Received;
  }

  lemma ReqPushStep(s: Sys, step: Step)
    requires ReqInv(s) && Enabled(s, step) && (step.ReqPushes? || step.ReqChecks?)
    ensures ReqInv(Apply(s, step))
  {
    hide Received;
  }

  lemma ReqCallStep(s: Sys, step: Step)
    requires ReqInv(s) && Enabled(s, step)
    requires step.CallClientSend? || step.CallCloseSend? || step.ReqSeesCtx? || step.ReqSeesDone?
    ensures ReqInv(Apply(s, step))
  {
    hide Received;
  }

  lemma ReqOutcome(s: Sys, step: Step)
    requires ReqInv(s) && Enabled(s, step) && (step.ServerSeesCtx? || step.ServerChecksTaken?)
    ensures ReqInv(Apply(s, step))
  {
    hide Received;
    var q, q' := s.req, Apply(s, step).req;
    ReceivedAppend(q.outs, q'.outs[|q.outs|]);
    assert q'.outs == q.outs + [q'.outs[|q.outs|]];
  }
}
