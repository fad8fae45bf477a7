# grpchan: a verified model of its transports and interceptors

grpchan lets gRPC services be called without a gRPC server: inside one process over Go channels
(`inprocgrpc`), and over plain HTTP 1.1 (`httpgrpc`). It also wraps channels and registries with
interceptors (`intercept.go`). This project models those parts in Dafny and proves what they promise, for
every input, every run and every interleaving. `dafny verify dfyconfig.toml` checks all of it.

## How it is organised

**In-process streams.** `InProcStream` is a step system: the handler's goroutine, the client's calls, two channels
of capacity one and three nested contexts whose cancellation races with every channel operation. `InProcSafety`
(sending side), `InProcReceive` (receiving side) and `InProcRequests` hold the invariants, `InProcCalls` what its
callers asked for, read off the steps of a run, `InProcTheorems` what follows for every run, `InProcRefinement`
that uncancelled runs are a plain reading of the server's frames, `InProcWritten` what is written in any run,
`InProcRepeats` when headers can be written twice, `InProcProgress` and `InProcFinish` when a call ends, and
`InProcWitnesses` runs that show what is *not* promised. `InProcServer` and `InProcClient` are the two stream
objects themselves, with their fields and loops; `InProcFrames` is the grammar `headers? data* trailers? error?`.
`InProcInvoke` is the unary call with its own goroutine, channel and cancellation races.

**GRPC over HTTP.** `Framing` and `HttpIo` are the size-prefixed framing, as functions on byte strings and as
readers and writers over a source and a sink that can fail; `Sse` is the event-stream framing. `HttpServer` is the
stream object and the trailer a handler's run produces. `HttpClient` is the client stream as a step system
(`doHttpCall`, `RecvMsg`, cancellation and connection failures interleaved), `HttpUnary` its single-response
discipline, `HttpSurplus` what follows the error for a surplus response, `HttpErrors` where every outcome comes
from, `HttpProgress` how long its goroutines go on, `HttpReply` what it makes of the headers of the reply,
`HttpWitnesses` runs that show limits, and `HttpEndToEnd` puts both sides together. `HttpRequest` is the request
direction.

**Text encodings.** `HeaderMetadata` and `HeaderRoundTrip` (metadata as headers, trailers under a prefix, binary
values), `Base64` (section 5 of RFC 4648), `StatusHeader`, `StatusMetadata`, `Decimal` and `Timeout`.

**Interceptors.** `InterceptClient` and `InterceptServer`.

`Prelude`, `Metadata` and `HttpStatus` are shared. A handler is any sequence of calls; a message is identified with
its contents, so that cloning and copying give equal values. Codecs are total functions with the law
`unmarshal(marshal(m)) == Some(m)`, and a trailer with a field off its default does not serialize to nothing.
Contexts are monotone, and a `select` with several ready cases may take any of them. A cancellation may happen at any
step; that also stands for deadlines and for the clean-up of abandoned streams.

## What turned out not to hold

* After a cancellation the server may write its headers frame twice (`InProcWitnesses.HeadersWrittenTwice`). From any
  point of any run it can come to that exactly if it has happened, or no call has put the headers on record as sent, or
  `finish` is about to write them after a call that did so but reported an error (`InProcRepeats.RepeatsExactlyWhen`);
  between two calls, once they went out: exactly if they are not on record as sent and the call is not over
  (`InProcRepeats.RepeatsBetweenCalls`). In every run the frames written are `headers* data* trailers? error?`
  (`InProcWritten.WrittenFrames`), and headers repeat only in a cancelled run (`InProcWritten.TwiceOnlyIfReported`).
  What the client accepts always obeys the grammar (`InProcTheorems.FrameSafety`).
* In process, a single response followed by a server error is a success. `InProcRefinement.UnaryOutcomeInRuns` says
  for every uncancelled interleaving exactly what the first RecvMsg returns; the handler's failure is reported exactly
  if no message was sent. Over HTTP the failure takes precedence (`HttpUnary.UndisturbedOutcome`).
* In process, a client that got a surplus response never reads again and nothing cancels the call, so a server with
  more to send than one frame stays blocked in `finish` (`InProcWitnesses.SurplusResponseBlocks`);
  `InProcFinish.CanFinishExactlyWhen` has the exact condition.
* Over HTTP, a first response that does not decode is reported, and a second one then still succeeds
  (`HttpWitnesses.SuccessAfterUndecodable`); `HttpUnary.UndisturbedOutcome` has the exact outcomes.
* Over HTTP, the error for a surplus response can be replaced by a clean end (`HttpWitnesses.SurplusErrorReplaced`),
  exactly when the surplus message is the body's last and a trailer follows it (`HttpSurplus.ReplacedExactlyWhen`).
* An empty trailer would be read as a message (`Framing.FrameRoundTrip`); trailers of finished calls are never empty
  (`HttpEndToEnd.TrailerNotEmpty`).
* A request body cut off between two frames cannot be told from a complete one (`HttpRequest.CutRequests`).
* A metadata key without values does not survive headers, and a trailer key `bin` survives only with empty values
  (`HeaderRoundTrip.RecoveredExactlyWhen`).
* A handler's own metadata can add details to a status; it is unchanged exactly when they do not and it was not OK
  (`StatusHeader.UnchangedExactlyWhen`). A handler that returns no error but sets the metadata `x-grpc-status` can be
  seen to have failed (`StatusMetadata.SuccessReadAsFailure`); it is seen to succeed exactly when the first value
  there names no failure (`StatusMetadata.SuccessExactlyWhen`).
* On a stream over HTTP that metadata, set before the headers go out, hides everything the handler sends: every RecvMsg
  returns the failure it names (`HttpEndToEnd.MessageHidden`). The client gets what was sent exactly if the first value
  set there names no failure, or names the one the handler returned without sending a message or setting a trailer
  (`HttpEndToEnd.DeliveredExactlyWhen`).
* Flattening makes no difference to a client interceptor exactly when it passes on the ClientConn it was given
  (`InterceptClient.FlattensExactlyWhen`), and none to streams over a base exactly when that is no ClientConn
  (`InterceptClient.FlattensStreamsExactlyWhen`). Nested server registries run their interceptors in the opposite
  order to a flattened one (`InterceptServer.NestedOrder`); the two always give the same result exactly if there is one
  interceptor at most (`InterceptServer.AgreesExactlyWhen`, `InterceptServer.OrdersDiffer`).
* An event-stream body that lacks only its last line feed, or everything after the trailer's event line, is not noticed
  as cut off (`Sse.UnnoticedCuts`); every other cut is (`Sse.EventTruncation`).

## Model

| member | source | states |
|---|---|---|
| Metadata.Append | inprocgrpc/in_process.go:567-572 | the setters' loop, in any map order, is the per-key concatenation |
| Metadata.JoinAllValues | inprocgrpc/in_process.go:567-572 | accumulated metadata hold under each key every value of every call, in order |
| Metadata.JoinAllKeys | inprocgrpc/in_process.go:567-572 | a key is present exactly when some call mentioned it |
| InProcFrames.TranscriptWellFormed | inprocgrpc/in_process.go:46-97 | what one call sends is headers? data* trailers? error? |
| InProcFrames.TranscriptContents | inprocgrpc/in_process.go:593-621 | reading a transcript back gives exactly the headers, messages and trailers put in |
| InProcServer.Responses.WriteMessage | inprocgrpc/in_process.go:897-911 | a write reports an error exactly if the context is done, whether or not the frame went in |
| InProcServer.ServerStream.SetHeader | inprocgrpc/in_process.go:553-577 | headers accumulate until sent, and are refused afterwards; SendHeader fails only if the context ended under a frame |
| InProcServer.ServerStream.SendHeadersLocked | inprocgrpc/in_process.go:579-591 | the headers frame goes out once and only if there are any; a failed write leaves the state alone |
| InProcServer.ServerStream.TrySetTrailer | inprocgrpc/in_process.go:623-640 | trailers accumulate until the call is over |
| InProcServer.ServerStream.SendMsg | inprocgrpc/in_process.go:646-670 | headers first, then the message; nil refused after the headers; end of stream once done or closed; in a live context the channel holds exactly what was sent |
| InProcServer.ServerStream.Finish | inprocgrpc/in_process.go:593-621 | the channel is always closed, and in a live context holds the whole transcript |
| InProcClient.RecvMeaning | inprocgrpc/in_process.go:793-863 | RecvMsg, peeked frame or not, does what a plain reading of the frames ahead does |
| InProcClient.HeaderMeaning | inprocgrpc/in_process.go:711-748 | Header leaves what RecvMsg will see untouched and never overwrites a peeked frame |
| InProcClient.OutcomesMeaning | inprocgrpc/in_process.go:711-863 | the outcomes of any sequence of calls are those of the receives alone on the frames ahead |
| InProcClient.PeekTransparent | inprocgrpc/in_process.go:711-748 | on any list of frames read alone, Header calls inserted or removed anywhere change no RecvMsg outcome |
| InProcClient.MoreIsOneReceive | inprocgrpc/in_process.go:872-880 | the check for a surplus response is one streaming receive, reinterpreted |
| InProcClient.MoreIsOneItem | inprocgrpc/in_process.go:872-895 | it makes of every item, a cancellation included, what a streaming receive does, a message becoming the error and anything else letting the first message through |
| InProcClient.UnaryOutcome | inprocgrpc/in_process.go:793-880 | on the frames of a whole call read alone, the first RecvMsg of a unary response; a failure after one message is not reported |
| InProcClient.UnaryFailureMasked | inprocgrpc/in_process.go:874-879 | one message, then an error: a success |
| InProcClient.ClientStream.Header | inprocgrpc/in_process.go:711-748 | the method on the object's fields is the specification's Header |
| InProcClient.ClientStream.RecvMsg | inprocgrpc/in_process.go:793-797 | likewise RecvMsg |
| InProcClient.ClientStream.RecvMsgLocked | inprocgrpc/in_process.go:799-863 | likewise the receive loop |
| InProcClient.ClientStream.EnsureNoMoreLocked | inprocgrpc/in_process.go:872-880 | likewise the check for a surplus response |
| InProcSafety.SendStep | inprocgrpc/in_process.go:561-670 | every step keeps the sending side consistent: what a live server wrote is a prefix of its transcript |
| InProcReceive.LiveGrammar | inprocgrpc/in_process.go:882-895 | while the client is live, the frames accepted and those under way are the prefix of a transcript |
| InProcReceive.OutsStep | inprocgrpc/in_process.go:799-880 | every step keeps the outcomes backed by frames the client holds, and sticky |
| InProcRequests.ReqStep | inprocgrpc/in_process.go:757-791 | every step keeps the request channel in order and closed at most once |
| InProcCalls.ServerRecords | inprocgrpc/in_process.go:553-670 | every step keeps the records of the server stream those of the calls made: messages sent, metadata set in time, the error returned |
| InProcCalls.RequestRecords | inprocgrpc/in_process.go:757-791 | every step keeps the messages pushed in order among those the client was asked to send, and exactly those while nobody gives up |
| InProcTheorems.InvStep | inprocgrpc/in_process.go:367-472 | every step of the whole system keeps the whole invariant |
| InProcTheorems.FrameSafety | inprocgrpc/in_process.go:561-911 | in every interleaving the frames the client accepts are a prefix of those written and of the grammar |
| InProcTheorems.SentAsAsked | inprocgrpc/in_process.go:553-670 | in every run the messages whose SendMsg returned nil are in order among those SendMsg was given, and all but the one under way without a cancellation; metadata are in time until a call that sends headers |
| InProcTheorems.Shown | internal/misc.go:58-72 | how an error the handler returned reads on the client: context errors as the statuses 4 and 1 with their texts, any other as it is |
| InProcTheorems.EndIsComplete | inprocgrpc/in_process.go:593-670 | once a streaming RecvMsg reported the end or the handler's error: no write was dropped, the messages are those the handler's SendMsg calls were given, headers and trailers those its calls set in time, and the handler returned what the outcome says, context errors as their statuses |
| InProcTheorems.OutcomesStick | inprocgrpc/in_process.go:799-880 | an error repeats for ever and no message follows an end |
| InProcTheorems.HeadersAgree | inprocgrpc/in_process.go:711-748 | all successful Headers return the same metadata; a peeked frame implies the state is past headers |
| InProcTheorems.HeadersComplete | inprocgrpc/in_process.go:711-748 | without cancellation that is all the metadata the handler's calls set before headers were sent |
| InProcTheorems.UnaryAtMostOne | inprocgrpc/in_process.go:793-880 | a unary response yields at most one message, the first accepted |
| InProcTheorems.ChannelsNeverMisused | inprocgrpc/in_process.go:593-621 | no channel is written or closed after closing, or holds more than one frame |
| InProcTheorems.RequestsInOrder | inprocgrpc/in_process.go:672-684 | the handler receives, in order, messages the client's SendMsg was given, and exactly the first of them while neither side has given up; its end means CloseSend was called and every message whose SendMsg returned nil was received |
| InProcTheorems.ServerContextOutlives | inprocgrpc/in_process.go:405-445 | until finish is over, the server's context is done only if the client's is |
| InProcRefinement.StepReads | inprocgrpc/in_process.go:711-880 | every step of an uncancelled run keeps the client's outcomes, and what is in front of it, those of reading the frames one after the other |
| InProcRefinement.RunsReadTheFrames | inprocgrpc/in_process.go:793-880 | in every uncancelled interleaving, whatever the server goes on to write, the outcomes of RecvMsg are those of a plain reading of its frames |
| InProcRefinement.PeekTransparentRuns | inprocgrpc/in_process.go:711-748 | uncancelled runs in which the server writes the same frames agree on their outcomes, wherever Header is called |
| InProcRefinement.UnaryOutcomeInRuns | inprocgrpc/in_process.go:872-880 | the first outcome of a unary response in every uncancelled interleaving, by the messages SendMsg was given and what the handler returned |
| InProcWritten.WrittenFrames | inprocgrpc/in_process.go:579-621 | in every run the frames written are headers* data* trailers? error?, and obey the grammar if and only if headers were written once at most |
| InProcWritten.TwiceOnlyIfReported | inprocgrpc/in_process.go:579-591 | headers repeat only in a cancelled run in which a call reported the context's error for a headers frame that went in |
| InProcWritten.LiveWritten | inprocgrpc/in_process.go:579-621 | without a cancellation the frames written obey the grammar |
| InProcRepeats.RepeatStep | inprocgrpc/in_process.go:579-621 | once headers cannot be written a second time any more, no step makes it possible again |
| InProcRepeats.RepeatsExactlyWhen | inprocgrpc/in_process.go:579-621 | from any point of any run some continuation has written headers twice if and only if they were, or are not on record as sent, or finish is about to write them after they went out |
| InProcRepeats.RepeatsBetweenCalls | inprocgrpc/in_process.go:579-591 | between calls, headers having gone out once: if and only if the stream's state is still the one before headers and finish has not begun |
| InProcProgress.SendNeverStuck | inprocgrpc/in_process.go:772-791 | once the handler has returned, a client blocked in SendMsg can get out, whoever holds the lock |
| InProcProgress.ClientReleased | inprocgrpc/in_process.go:882-895 | the end of the context releases a client that waits: RecvMsg reports it, the check for a surplus response lets the message through |
| InProcProgress.ServerReleased | inprocgrpc/in_process.go:897-911 | and a write of the server, whose frame is then dropped |
| InProcProgress.RequestsReleased | inprocgrpc/in_process.go:672-684 | and both sides of the request channel |
| InProcProgress.BlockedForever | inprocgrpc/in_process.go:872-880 | a blocked finish stays blocked in every continuation without a cancellation |
| InProcFinish.AtMostOne | inprocgrpc/in_process.go:872-880 | a live client of a unary response that holds no error has accepted one message at most |
| InProcFinish.CheckKeepsDoom | inprocgrpc/in_process.go:872-895 | looking at a frame does not change whether the call can end |
| InProcFinish.DoomedForever | inprocgrpc/in_process.go:872-911 | a call that cannot end stays so in every continuation without a cancellation, whatever the handler's goroutines still do |
| InProcFinish.Drain | inprocgrpc/in_process.go:593-621 | for any other call there is a schedule without cancellation that closes the channel within the work left |
| InProcFinish.NoStepRaisesWork | inprocgrpc/in_process.go:593-621 | while finish is under way no step but a new call of the handler's goroutines raises the work left, and every step of the server or of the client's receive lowers it |
| InProcFinish.EveryScheduleCloses | inprocgrpc/in_process.go:593-621 | along every run of a call that can end, the channel has been closed or a lowering step is possible; a schedule that takes as many of them as there is work closes it |
| InProcFinish.FinishStep | inprocgrpc/in_process.go:593-621 | once finish holds the lock each step of the server brings it closer to closing and no other step touches it |
| InProcFinish.FinishIsBounded | inprocgrpc/in_process.go:593-621 | in every run at most eight steps of the server follow, and the channel is closed exactly when none is left |
| InProcFinish.CanFinishExactlyWhen | inprocgrpc/in_process.go:593-621 | once the handler has returned, a run without cancellation that closes the channel exists if and only if the client has not met, and will not meet, a surplus response (or an error) with more frames after it than fit; always for streaming or cancelled calls |
| InProcFinish.OneResponseCanFinish | inprocgrpc/in_process.go:593-621 | a unary call whose server sends one message at most can always end, whatever the client holds |
| InProcWitnesses.HeadersWrittenTwice | inprocgrpc/in_process.go:579-609 | a cancelled run in which the server writes two headers frames |
| InProcWitnesses.SurplusResponseBlocks | inprocgrpc/in_process.go:593-621 | a run after which no uncancelled continuation closes the channel |
| InProcInvoke.InvStep | inprocgrpc/in_process.go:272-357 | every step of a unary call keeps its invariant |
| InProcInvoke.SuccessIsGenuine | inprocgrpc/in_process.go:305-357 | under every race Invoke returns nil only if the handler returned a reply and no error, and the response is that reply |
| InProcInvoke.LiveCallIsExact | inprocgrpc/in_process.go:272-357 | in a live context the error and response are exactly those the handler returned, and the options hold exactly the metadata its calls set in time |
| InProcInvoke.FailureIsGenuine | inprocgrpc/in_process.go:305-357 | under every race an error that comes in a frame is the handler's, or the one for a missing reply |
| InProcInvoke.ReleasedByContext | inprocgrpc/in_process.go:350-357 | once the context is done Invoke can return its error |
| InProcInvoke.NeverStuck | inprocgrpc/in_process.go:272-357 | once the handler has returned, some step is possible until both goroutines are through |
| InProcInvoke.PlanContents | inprocgrpc/in_process.go:285-304 | the frames of a unary call, read in full, say what the handler did |
| Framing.Int32RoundTrip | httpgrpc/io.go:26-28 | a signed 32-bit size is recovered from its four bytes |
| Framing.Int32Onto | httpgrpc/io.go:69-83 | every four bytes are the encoding of exactly one size |
| Framing.BigEndian | httpgrpc/io.go:26-28 | the four bytes are those of the number, most significant first, in complement of two |
| Framing.FrameIs | httpgrpc/io.go:36-63 | a frame is the data after their size, negative for a trailer |
| Framing.SizeLimit | httpgrpc/io.go:173-203 | what is written is accepted up to a hundred megabytes |
| Framing.FrameRoundTrip | httpgrpc/io.go:36-63 | a written frame is read back whatever follows it, or refused as too large |
| Framing.FrameOnto | httpgrpc/io.go:173-203 | whatever is accepted has a size in bounds, no overflow, and is exactly what the writer writes |
| Framing.FrameTruncated | httpgrpc/io.go:173-203 | a proper prefix of a frame is never accepted |
| Framing.BodyRoundTrip | httpgrpc/client.go:661-698 | a complete body is recovered exactly |
| Framing.BodyOnto | httpgrpc/client.go:661-698 | any body starts with the encoding of what the loop gets out of it |
| Framing.CleanEndExactlyWhen | httpgrpc/client.go:661-698 | the loop sees a trailer if and only if the bytes start with complete frames and a complete trailer frame |
| Framing.TruncationDetected | httpgrpc/client.go:667-672 | every proper prefix of a complete body is reported as truncated after a prefix of its messages |
| HttpIo.Source.ReadSizePreface | httpgrpc/io.go:69-83 | the preface, or the exact error, the smallest integer being refused |
| HttpIo.Source.ReadMessage | httpgrpc/io.go:173-203 | the reader is the specification's, byte for byte |
| HttpIo.Source.ReadBody | httpgrpc/client.go:661-698 | the loop ends, on every input, with the specification's result |
| HttpIo.Sink.WriteProtoMessage | httpgrpc/io.go:36-63 | a whole frame, nothing if too large, or a prefix of the frame after a failure |
| HttpServer.CopyMetadata | httpgrpc/server.go:447-455 | trailer metadata are copied unchanged |
| HttpServer.ServerStream.SetHeader | httpgrpc/server.go:480-505 | until headers are sent their metadata are added to the reply's headers, in some order of keys; after that nothing is |
| HttpServer.ServerStream.SendMsg | httpgrpc/server.go:518-535 | one more complete frame, or the stream is failed for good and reports its end |
| HttpServer.RunHandler | httpgrpc/server.go:377-388 | the frames on the wire are those of the sends before the first failure; the reply's headers hold what was set before they were sent |
| HttpServer.HandleStream | httpgrpc/server.go:379-410 | without a write failure, the body is the messages and then one trailer frame for the handler's outcome; after one, complete frames and part of one more; headers as set in time |
| HttpClient.InvStep | httpgrpc/client.go:514-698 | every step keeps RecvMsg and doHttpCall in agreement about done, the error, the trailer and the channel |
| HttpClient.NeverPanics | httpgrpc/client.go:522-530 | the channel is closed once and never used afterwards; both panics are unreachable |
| HttpClient.StreamDeliversInOrder | httpgrpc/client.go:514-572 | the messages returned are those of a prefix of the body's frames, of all of them once the end was returned, the body then ending in an OK trailer |
| HttpClient.StreamRefinesBody | httpgrpc/client.go:514-698 | undisturbed, the i-th RecvMsg returns the i-th message of the body and then how it ended, for ever |
| HttpClient.TrailerTaken | httpgrpc/client.go:449-457 | once an undisturbed stream is over its trailer is the one in the body |
| HttpUnary.SuccessMeansSingle | httpgrpc/client.go:535-570 | without outside cancellation RecvMsg returns nil at most once, and only if the last frame is the only one that decodes and an OK trailer follows |
| HttpUnary.SuccessMeansOneMessage | httpgrpc/client.go:535-570 | if all frames decode, success means the body holds exactly one message and an OK trailer |
| HttpUnary.UndisturbedOutcome | httpgrpc/client.go:535-570 | exactly what an undisturbed single-response call returns; a failure in the trailer or a second message becomes an error |
| HttpUnary.SuccessMeansEnd | httpgrpc/client.go:477-495 | in every run, with any cancellation and failure, a clean end or a single response is reported only if the body ends in an OK trailer |
| HttpErrors.OutcomesAreGenuine | httpgrpc/client.go:514-698 | every outcome in any run has its cause: a message one of the frames handed over, an end an OK trailer, a context error a context that is done, a connection error a failed read, and so on |
| HttpErrors.ReleasedByContext | httpgrpc/client.go:519-521 | the end of the context releases a RecvMsg that waits |
| HttpErrors.SetupFails | httpgrpc/client.go:620-640 | undisturbed, every RecvMsg of a call without a reply, or with unreadable headers, returns that error |
| HttpSurplus.AfterSurplusError | httpgrpc/client.go:544-558 | undisturbed, every RecvMsg after the error for a surplus response returns it too, unless that message was the last and a trailer follows; then until the reader takes the trailer, and from there on what that says |
| HttpSurplus.ReplacedExactlyWhen | httpgrpc/client.go:674-688 | the error can be replaced if and only if the body ends with the surplus message and a trailer |
| HttpProgress.StepWork | httpgrpc/client.go:514-698 | every step but a new call and a cancellation lowers the work left |
| HttpProgress.RunsAreBounded | httpgrpc/client.go:514-698 | in every run the steps of both goroutines are bounded by the length of the body and the number of RecvMsg calls |
| HttpProgress.NeverStuck | httpgrpc/client.go:690-697 | some step is possible if and only if RecvMsg is pending, or doHttpCall is not finished and does not hold a message in a live context |
| HttpProgress.GivesUp | httpgrpc/client.go:550-554 | once the context is done, as it is after the error for a surplus response, doHttpCall can always take a step of its own until it is finished, at most 2n + 6 for n frames |
| HttpProgress.AlwaysCanFinish | httpgrpc/client.go:577-698 | from any point of any run doHttpCall can finish without a cancellation if the caller keeps calling RecvMsg |
| HttpReply.HeadersAreRead | httpgrpc/io.go:86-103 | whatever metadata a handler sets, the client's reading of the headers does not fail |
| HttpReply.StreamsExactlyWhen | httpgrpc/client.go:643-650 | the client goes on to the body if and only if the first value the handler set under the status name is missing or names no failure |
| HttpReply.FailureRead | httpgrpc/client.go:734-746 | otherwise it takes code and message from that value |
| HttpReply.StatusesSetLower | httpgrpc/server.go:493-494 | for lower-case keys those are the values of x-grpc-status, in the order of the calls |
| HttpReply.StatusReplaces | httpgrpc/client.go:643-650 | with a failure in its headers, every RecvMsg of every undisturbed run returns it; no message and no trailer is delivered |
| HttpWitnesses.SuccessAfterUndecodable | httpgrpc/client.go:531-534 | a success although the body holds two messages |
| HttpWitnesses.SurplusErrorReplaced | httpgrpc/client.go:546-556 | the error for a surplus response followed by a clean end |
| HttpEndToEnd.TrailerNotEmpty | httpgrpc/server.go:390-408 | the trailer of a finished call never serializes to nothing |
| HttpEndToEnd.RecoveredExactlyWhen | httpgrpc/io.go:185-187 | a body is read back if and only if nothing in it is over the size limit, and otherwise never ends cleanly |
| HttpEndToEnd.CutAtOversized | httpgrpc/io.go:185-187 | reading stops at the first message over the limit, with its size |
| HttpEndToEnd.DeliveredExactlyWhen | httpgrpc/client.go:514-698 | whatever the framing: in every undisturbed interleaving the messages, code, message, details and trailer metadata of the handler reach the client, if and only if its header metadata name no failure (or just the one it returned without sending anything); otherwise every RecvMsg returns the failure named |
| HttpEndToEnd.BodyDelivered | httpgrpc/client.go:656-698 | what reaches the client once it reads the body |
| HttpEndToEnd.MessageHidden | httpgrpc/client.go:643-650 | a handler that sets x-grpc-status to a failure, sends a message and returns no error: the client gets that failure and never the message |
| HttpEndToEnd.EndToEnd | httpgrpc/server.go:379-410 | over size-prefixed frames, for every handler within the size limit, under the same condition on its headers and only then |
| HttpEndToEnd.EndToEndEvents | httpgrpc/io.go:242-284 | likewise over server-sent events, when everything serializes to one line |
| HttpEndToEnd.EndToEndUnary | httpgrpc/client.go:535-570 | a single response succeeds if and only if the handler sent exactly one message and no error and its header metadata name no failure |
| HttpEndToEnd.WriteFailureIsSeen | httpgrpc/server.go:385-388 | after a failed write no client sees a clean end or a single response, in any interleaving |
| HttpEndToEnd.TrailerFailureIsSeen | httpgrpc/server.go:410 | likewise if the trailer went out in part or not at all |
| HttpEndToEnd.TruncationIsSeen | httpgrpc/client.go:667-672 | no proper prefix of a size-prefixed body gives any client a success, in any interleaving |
| HttpEndToEnd.EventTruncationIsSeen | httpgrpc/io.go:269-284 | a cut event stream gives no client a success unless only its last line feed is missing |
| HttpRequest.RequestWriter.SendMsg | httpgrpc/client.go:497-512 | one more complete frame, the first write error, or the end of the stream |
| HttpRequest.RequestReader.RecvMsg | httpgrpc/server.go:537-564 | the method is the specification's receive on the bytes left |
| HttpRequest.SingleRequestExactlyWhen | httpgrpc/server.go:541-561 | a single request is accepted if and only if the body is one complete frame that decodes; later receives report the end |
| HttpRequest.FrameDecides | httpgrpc/server.go:547-561 | a request that does not decode is reported as such whatever follows; one that decodes is returned, unless more follows where one is expected, which is reported as too many |
| HttpRequest.NoFrameDecides | httpgrpc/server.go:547-550 | without a complete frame the end is reported exactly if the body is empty |
| HttpRequest.RequestsRoundTrip | httpgrpc/server.go:537-564 | call by call, RecvMsg returns the messages the client sent, and then the end for ever |
| HttpRequest.CutRequests | httpgrpc/server.go:547-550 | of a cut body RecvMsg returns the whole messages, then reports the cut once and the end from there on; only the end if the cut is between frames |
| Sse.Decoder.ReadLine | internal/sse/sse.go:30-31 | a line with its line feed, or what is left at the end of input |
| Sse.Decoder.Decode | internal/sse/sse.go:27-72 | the line loop is the specification's decoder |
| Sse.EventRoundTrip | internal/sse/sse.go:84-92 | a clean event is read back whatever follows; no type reads as "message" |
| Sse.EventText | internal/sse/sse.go:84-92 | the text of an event on the wire |
| Sse.MalformedLine | internal/sse/sse.go:65-67 | a line of neither field is an error |
| Sse.DecodedIsClean | internal/sse/sse.go:27-72 | whatever is decoded, from any input, is clean and has a type |
| Sse.RoundTripExactlyWhen | internal/sse/sse.go:27-92 | a list of events is recovered, then the end of input, if and only if no type or data has a line feed or ends in a carriage return |
| Sse.MessagesExactlyWhen | httpgrpc/io.go:242-284 | messages and trailers keep bytes and kind if and only if their bytes stay on one line |
| Sse.EventWireRoundTrip | httpgrpc/client.go:661-698 | a complete event-stream body is recovered by the reader loop |
| Sse.EventTruncation | httpgrpc/client.go:661-698 | a cut body yields a prefix of its messages, and its end is a function of the number of bytes missing: truncated but for two cuts |
| Sse.UnnoticedCuts | internal/sse/sse.go:33-43 | those two cuts exist in every body: the last line feed missing, or all after the trailer's event line |
| Base64.QuadRoundTrip | httpgrpc/io.go:127 | four symbols give back three bytes |
| Base64.RoundTrip | httpgrpc/io.go:93-97 | decoding undoes encoding for all bytes, padded or not |
| Base64.AlphabetIs | httpgrpc/io.go:127 | the symbols are those of the URL-safe alphabet |
| Base64.QuadValue | httpgrpc/io.go:127 | four symbols are the digits of 24 bits, most significant first |
| Base64.PaddingFills | httpgrpc/io.go:127 | the padded form is the plain one filled up with equals signs to a multiple of four |
| Base64.DecodesExactlyWhen | httpgrpc/client.go:752-756 | without padding exactly digits are decoded, line breaks aside, if their number leaves no remainder of one |
| HeaderMetadata.Header.AddValues | httpgrpc/io.go:124-131 | the values of one key are added in order, encoded if the key is binary |
| HeaderMetadata.Header.ToHeaders | httpgrpc/io.go:117-133 | reserved keys are skipped and all others written, in some order of the keys |
| HeaderMetadata.SkippedExactlyWhen | httpgrpc/io.go:105-115 | exactly the nine reserved names are skipped, in any case |
| HeaderMetadata.NothingUnderReserved | httpgrpc/io.go:117-123 | nothing that is written for metadata reaches a header of such a name |
| HeaderMetadata.BinaryExactlyWhen | httpgrpc/io.go:124-131 | values are in base64 exactly under names that end in -bin |
| HeaderMetadata.DecodeValues | httpgrpc/io.go:91-99 | the values of one header, or a failure if one does not decode |
| HeaderMetadata.AsMetadata | httpgrpc/io.go:86-103 | all headers under lower-case names, in some order of the headers |
| HeaderMetadata.SetMetadata | httpgrpc/client.go:353-375 | the loop that moves prefixed entries splits the metadata into headers and trailers |
| HeaderMetadata.ValuesRoundTrip | httpgrpc/io.go:91-97 | decoding a key's values undoes encoding them |
| HeaderMetadata.UnencodedValues | httpgrpc/io.go:91-97 | decoding values that were not encoded changes all but empty ones |
| HeaderRoundTrip.RecoveredExactlyWhen | httpgrpc/server.go:293-294 | headers and prefixed trailers are both recovered, whatever the iteration orders, if and only if keys are lower-case, unreserved and not empty-handed, no header key goes on from the prefix, no trailer key is empty, and "bin" holds empty values only |
| HeaderRoundTrip.RequestExactlyWhen | httpgrpc/client.go:718-722 | request metadata arrive as sent if and only if keys are lower-case, unreserved and not empty-handed |
| HeaderRoundTrip.TrailerValues | httpgrpc/io.go:117-133 | a trailer's values come through its prefixed name exactly if the key is not "bin" or they are empty |
| HeaderRoundTrip.NamesOnTheWire | httpgrpc/io.go:117-133 | the headers under which the values of lower-case keys are stored, trailers after X-GRPC-Trailer- |
| Decimal.RoundTrip | httpgrpc/client.go:728 | parsing undoes printing for every integer that fits |
| Decimal.ParsesExactlyWhen | httpgrpc/server.go:583 | exactly digits are a number |
| Decimal.ParsedPrints | httpgrpc/server.go:583 | a number prints as it was, but for leading zeros |
| Decimal.Signed | httpgrpc/server.go:583 | a sign is optional, and there is no number without digits or out of range |
| StatusHeader.RenderError | httpgrpc/server.go:295-314 | the code and message, and each detail, are put into the headers |
| StatusHeader.StatFromResponse | httpgrpc/client.go:734-773 | the method is the specification's reading of a response |
| StatusHeader.StatusLineRules | httpgrpc/client.go:735-744 | without a status header, or with nothing before its colon, the code and message are those of the status line, and success exactly if that means OK |
| StatusHeader.HeaderRules | httpgrpc/client.go:738-746 | otherwise the code is the number there, or the status line's if it is none, and the message what follows the colon, or the status line |
| StatusHeader.DetailSkipped | httpgrpc/client.go:750-762 | a detail that does not decode is left out |
| StatusHeader.TextRead | httpgrpc/client.go:737-746 | code and message are read back from the header, colons included, whatever the HTTP status |
| StatusHeader.StatusRoundTrip | httpgrpc/server.go:295-316 | for every handler error the client gets the same code (OK as internal), message and details, for any renderer that leaves the two headers in place |
| StatusHeader.UnchangedExactlyWhen | httpgrpc/server.go:297-303 | the status is unchanged if and only if it was not OK and the handler's metadata hold no decodable detail |
| StatusMetadata.SuccessExactlyWhen | httpgrpc/server.go:293-295 | a handler that returns no error is seen to succeed if and only if its metadata hold nothing under the status name or the first value there names no failure, in every order of writing |
| StatusMetadata.StatusValuesLower | httpgrpc/io.go:117-133 | for lower-case keys those are the values of x-grpc-status |
| StatusMetadata.SuccessReadAsFailure | httpgrpc/server.go:293-295 | with that metadata set to a code other than zero it is seen to have failed, with that code and message |
| Timeout.Propagates | httpgrpc/client.go:723-729 | the timeout is positive, without overflow, at most the remaining time (or 1 ms) and less than 1 ms below it |
| Timeout.UnitsRead | httpgrpc/server.go:583-602 | a number and one of the six units are their product in nanoseconds, of which 64 bits are kept; any other unit is ignored |
| Timeout.PassedOn | httpgrpc/server.go:579-602 | a timeout passed on without delay is not shortened further |
| InterceptClient.RunChain | intercept.go:144-174 | the backward loop computes the nesting with the first interceptor outermost |
| InterceptClient.FindRoot | intercept.go:103-116 | the unwrap loop finds the innermost channel |
| InterceptClient.ChainAbsorbs | intercept.go:49-69 | a chain that ends in an older chain is the new interceptors around the old |
| InterceptClient.BuildIsFlat | intercept.go:49-91 | any sequence of wraps is one wrapper around the base that stands for all of them |
| InterceptClient.FlatteningKeepsMeaning | intercept.go:118-140 | calls run through all interceptors of their kind, the latest batch outermost, the first of a batch first; wraps of the other kind do not matter |
| InterceptClient.OverRoot | intercept.go:118-140 | over a transport's own channel its Invoke or NewStream is called in the end, and the interceptors are told of it if it is a ClientConn |
| InterceptClient.OverForeign | intercept.go:118-140 | over somebody else's wrapper, unary interceptors are told of the ClientConn below it and stream interceptors of none |
| InterceptClient.UnaryLayersAgree | intercept.go:118-128 | if all interceptors but the last pass on the ClientConn, flattening cannot be told from one wrapper each |
| InterceptClient.FlattensExactlyWhen | intercept.go:118-128 | over every channel, before every other interceptor and for every call, flattening makes no difference to an interceptor if and only if it passes on the ClientConn |
| InterceptClient.StreamLayersAgree | intercept.go:130-140 | for streams of forwarding interceptors this holds when the base is no ClientConn |
| InterceptClient.FlattensStreamsExactlyWhen | intercept.go:130-140 | over a base, every list of forwarding interceptors opens streams alike if and only if the base is no ClientConn |
| InterceptClient.UnaryLayersCanDiffer | intercept.go:118-128 | there is an interceptor to which flattening makes a difference |
| InterceptServer.RunChain | intercept.go:292-322 | the backward loop computes the nesting with the first interceptor outermost |
| InterceptServer.InterceptDesc | intercept.go:239-289 | the slices of the new description, filled one by one |
| InterceptServer.BuildIsFlat | intercept.go:190-224 | any sequence of wraps is one registry that stands for all of them |
| InterceptServer.MethodOrder | intercept.go:247-271 | methods keep name and position; a call runs the transport's interceptor, then the newest batch to the oldest in listing order, then the method |
| InterceptServer.StreamsOrder | intercept.go:273-287 | likewise for streams, whose flags are kept, with interceptors that are told the full name and the flags |
| InterceptServer.NestedOrder | intercept.go:232-263 | registries nested without flattening run the oldest interceptor first |
| InterceptServer.NestedAgreesExactlyWhen | intercept.go:232-263 | a call gives the same result through nested registries and a flattened one if and only if the order of these interceptors makes no difference to it |
| InterceptServer.OrdersDiffer | intercept.go:232-263 | an interceptor that answers by itself, followed by others that answer otherwise: the results differ |
| InterceptServer.AgreesExactlyWhen | intercept.go:190-263 | for all lists of n interceptors, methods, transports and calls the results agree if and only if n is at most one |

## Left out

- Stats handlers and the context they return, peer information, per-RPC credentials, URL joining, method lookup, registration in a mux: observers and library calls around the modelled logic.
- Cloners, codecs and the JSON request reader and writer: reflection and libraries; taken as total functions with stated laws. A marshalling error is therefore not modelled.
- The transport of HTTP itself, including what it does to header values with line breaks or surrounding blanks. A connection failure under the reader is a step of its own.
- A round trip that fails with the end-of-file error, which a stream then shows as its end; and the branch for an unsupported media type, which reports readiness twice. The client model covers the two supported media types.
- The table between HTTP and gRPC codes: StatusHeader takes the code for the HTTP status as a parameter.
- InProcClient.ClientStream: one call at a time on frames that all arrive; cancellation in the middle of a call is in InProcStream.
- InProcServer.Responses.WriteMessage: the server's writes, which watch no second context, and without the wait for room in the channel; both are in InProcStream.
- InProcFinish.EveryScheduleCloses: goroutines that a handler leaves behind make no new calls before finish takes the lock; from then on FinishIsBounded holds whatever they do.
- StatusMetadata.SuccessExactlyWhen: the content type and length that a successful reply adds to its headers, which are stored under other names.
- InProcServer.ServerStream: the writes of one goroutine; their interleaving with the client is in InProcStream.
- InProcInvoke.LiveCallIsExact: the metadata setters are called while the handler runs, not by goroutines it leaves behind.
- InProcTheorems.RequestsInOrder: one RecvMsg of the handler at a time, as gRPC demands.
- HttpClient.NeverPanics: one RecvMsg of the client at a time, as gRPC demands; the stream's Header call, which only waits for the reply, and call options are not modelled.
- HttpEndToEnd.EndToEndEvents: a failing write of an event is not modelled; EventTruncationIsSeen covers every cut of the body.
- HttpProgress.NeverStuck: a read of the body or a round trip that the network never answers; a cancellation ends both.
- HttpReply.ReplyOf: other headers of the reply (content type, date) are arbitrary but set neither the status nor a binary header; a reply whose HTTP status is not OK comes from no handler.
- HeaderMetadata.AsMetadata: upper and lower case are those of ASCII, in which header names are written.
- HeaderRoundTrip.RecoveredExactlyWhen: a header map that holds the call's metadata only; others in a response (content type, date, status) are read as further headers.
- Timeout.Propagates: for values this client prints; a far larger timeout from elsewhere can overflow the product.
- InterceptClient.FlatteningKeepsMeaning: interceptors are functions that can tell invokers apart only by calling them; what they observe and change is part of the call and its result. Each wrap gets its own list, so no append reaches a list the caller keeps.
- InterceptServer.MethodOrder: the same for server interceptors; a method's handler is generated code, which runs the interceptor it is given around the method.
- Handler maps, call options, code generation and the test services: easy members or no part of the protocols.
