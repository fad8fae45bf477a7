/** Concrete runs that show what an in-process stream does not promise. */
module InProcWitnesses {
  import opened Prelude
  import opened Metadata
  import opened InProcFrames
  import opened InProcClient
  import opened InProcStream
  import opened InProcTheorems
  import opened InProcProgress

  lemma {:induction false} Extend(s: Sys, steps: seq<Step>, mid: Sys, step: Step)
    requires IsRun(s, steps, mid) && Enabled(mid, step)
    ensures IsRun(s, steps + [step], Apply(mid, step))
    decreases |steps|
  {
    hide Apply, Enabled;
    if steps == [] {
      assert [step][1..] == [];
      assert steps + [step] == [step];
      assert IsRun(Apply(mid, step), [], Apply(mid, step));
    } else {
      assert (steps + [step])[1..] == steps[1..] + [step];
      Extend(Apply(s, steps[0]), steps[1..], mid, step);
    }
  }

  const HDR: MD := map["k" := ["v"]]

  lemma HdrFacts()
    ensures Join(map[], HDR) == HDR && |HDR| > 0
  {
    assert "k" in HDR;
    assert Values(map[], "k") + Values(HDR, "k") == ["v"];
  }

  lemma HeadersOut() returns (steps: seq<Step>, s: Sys)
    ensures IsRun(Init(false), steps, s)
    ensures s == Init(false).(
                   srv := Init(false).srv.(headers := HDR, hdrLog := [HDR],
                                           pc := Wrote(Headers(HDR), ForMsgHeaders(Some("a")))),
                   ch := Chan([Headers(HDR)], false, false, [Headers(HDR)], []))
  {
    HdrFacts();
    hide Join, IsRun, ApplyRequest;
    steps, s := StartRun(false);
    steps, s := Then(steps, s, CallSetHeader(HDR));
    steps, s := Then(steps, s, CallSendMsg(Some("a")));
    steps, s := Then(steps, s, ServerPushes);
  }

  /** Cancellation in the middle of the implicit headers: the frame went out, but
      SendMsg reported the context error and left the headers unsent in its books. */
  lemma HeadersOutButNotBooked() returns (steps: seq<Step>, s: Sys)
    ensures IsRun(Init(false), steps, s)
    ensures s == Init(false).(
                   ctx := Ctx(true, true, false),
                   srv := Init(false).srv.(headers := HDR, hdrLog := [HDR], errored := 1),
                   ch := Chan([Headers(HDR)], false, false, [Headers(HDR)], []))
  {
    steps, s := HeadersOut();
    hide Join, IsRun, ApplyRequest;
    steps, s := Then(steps, s, Cancel);
    steps, s := Then(steps, s, ReachServer);
    steps, s := Then(steps, s, ServerChecks);
  }

  lemma StartRun(unary: bool) returns (steps: seq<Step>, s: Sys)
    ensures steps == [] && s == Init(unary) && IsRun(Init(unary), steps, s)
  {
    steps, s := [], Init(unary);
  }

  lemma Then(steps: seq<Step>, s: Sys, step: Step) returns (steps': seq<Step>, s': Sys)
    requires IsRun(Init(s.unary), steps, s) && Enabled(s, step)
    ensures s' == Apply(s, step) && s'.unary == s.unary
    ensures steps' == steps + [step] && IsRun(Init(s'.unary), steps', s')
  {
    UnaryStays(s, step);
    Extend(Init(s.unary), steps, s, step);
    steps', s' := steps + [step], Apply(s, step);
  }

  /** The client takes that frame, so that there is room for another. */
  lemma HeadersTaken() returns (steps: seq<Step>, s: Sys)
    ensures IsRun(Init(false), steps, s)
    ensures s.ctx == Ctx(true, true, false) && !s.unary
    ensures s.srv == Init(false).srv.(headers := HDR, hdrLog := [HDR], errored := 1)
    ensures s.ch == Chan([], false, false, [Headers(HDR)], [Headers(HDR)])
  {
    steps, s := HeadersOutButNotBooked();
    hide Join, IsRun, ApplyRequest;
    steps, s := Then(steps, s, Step.CallRecv);
    steps, s := Then(steps, s, ClientTakes);
  }

  /** After a cancellation the server can write its headers twice: the grammar
      holds for the frames the client accepts, not for those written. */
  lemma HeadersWrittenTwice() returns (steps: seq<Step>, s: Sys)
    ensures IsRun(Init(false), steps, s)
    ensures s.ch.written == [Headers(HDR), Headers(HDR)] && !WellFormed(s.ch.written)
  {
    steps, s := HeadersTaken();
    hide Join, IsRun, ApplyRequest;
    HdrFacts();
    steps, s := Then(steps, s, HandlerReturns(None));
    steps, s := Then(steps, s, FinishLocks);
    steps, s := Then(steps, s, ServerPushes);
    assert Rank(s.ch.written[0]) == Rank(s.ch.written[1]) == 0;
  }

  /** The server sends one more message of a unary-response call. */
  lemma SendOne(before: seq<Step>, s: Sys, m: Msg) returns (steps: seq<Step>, s': Sys)
    requires IsRun(Init(true), before, s) && s.unary
    requires s.ctx == Ctx(false, false, false) && !s.ch.closed && s.ch.buf == []
    requires s.srv.pc.Idle? && (s.srv.state == InMessages || (s.srv.state == InHeaders && s.srv.headers == map[]))
    ensures IsRun(Init(true), steps, s')
    ensures s' == s.(srv := s.srv.(state := InMessages, headers := s'.srv.headers, sentOk := s.srv.sentOk + [m]),
                     ch := s.ch.(buf := [Data(m)], written := s.ch.written + [Data(m)]))
  {
    hide IsRun, ApplyRequest;
    steps, s' := Then(before, s, CallSendMsg(Some(m)));
    steps, s' := Then(steps, s', ServerPushes);
    steps, s' := Then(steps, s', ServerChecks);
  }

  /** The client, already reading, takes the message. */
  lemma TakeOne(before: seq<Step>, s: Sys, m: Msg) returns (steps: seq<Step>, s': Sys)
    requires IsRun(Init(true), before, s) && s.unary && !s.ctx.cli
    requires s.ch.buf == [Data(m)] && s.rcv.pc.CReading?
    ensures IsRun(Init(true), steps, s')
    ensures var r := s.rcv.(accepted := s.rcv.accepted + [Data(m)]);
            s' == s.(ch := s.ch.(buf := [], read := s.ch.read + [Data(m)]),
                     rcv := Resume(r, OnItem(r.c, r.pc.k, Arrived(Data(m)), true)))
  {
    hide IsRun, ApplyRequest, OnItem;
    steps, s' := Then(before, s, ClientTakes);
    steps, s' := Then(steps, s', ClientChecks);
  }

  /** Two messages reach a client that expects one. */
  lemma SurplusResponse() returns (steps: seq<Step>, s: Sys)
    ensures IsRun(Init(true), steps, s)
    ensures s.ctx == Ctx(false, false, false) && s.unary
    ensures s.srv.pc.Idle? && s.srv.state == InMessages && s.srv.returned.None? && !s.srv.finishing
    ensures !s.ch.closed && s.ch.buf == []
    ensures s.rcv.pc.CIdle? && s.rcv.c.last == Some(Error(TOO_MANY)) && s.rcv.outs == [Failed(TOO_MANY)]
  {
    hide IsRun;
    steps, s := StartRun(true);
    steps, s := Then(steps, s, Step.CallRecv);
    steps, s := SendOne(steps, s, "a");
    steps, s := TakeOne(steps, s, "a");
    steps, s := SendOne(steps, s, "b");
    steps, s := TakeOne(steps, s, "b");
  }

  /** A unary-response call that got a surplus response never reads again, and
      nothing cancels its context: with one more message and a failing return the
      handler's goroutine is stuck in finish. */
  lemma SurplusResponseBlocks() returns (steps: seq<Step>, s: Sys)
    ensures IsRun(Init(true), steps, s)
    ensures s.srv.returned.Some? && s.srv.pc.Writing? && Blocked(s)
    ensures forall more, s' :: IsRun(s, more, s') && NoCancel(more) ==> !s'.ch.closed
  {
    steps, s := SurplusResponse();
    steps, s := SendOne(steps, s, "c");
    steps, s := ThenFail(steps, s);
    Reachable(true, steps, s);
    hide Inv, IsRun, Blocked;
    forall more, s' | IsRun(s, more, s') && NoCancel(more)
      ensures !s'.ch.closed
    {
      BlockedForever(s, more, s');
    }
  }

  lemma ThenFail(before: seq<Step>, s: Sys) returns (steps: seq<Step>, s': Sys)
    requires IsRun(Init(true), before, s) && s.unary
    requires !s.ctx.cli && |s.ch.buf| == 1 && HoldsError(s.rcv.c)
    requires s.srv.pc.Idle? && s.srv.state == InMessages && s.srv.returned.None? && !s.srv.finishing
    ensures IsRun(Init(true), steps, s') && Blocked(s') && s'.srv.returned.Some? && s'.srv.pc.Writing?
  {
    hide IsRun, ApplyRequest;
    steps, s' := Then(before, s, HandlerReturns(Some(Plain("boom"))));
    steps, s' := Then(steps, s', FinishLocks);
  }
}
