# gRPC examples: verified models

This project models, in Dafny, the parts of the gRPC C++ examples and of gRPC itself whose correctness is not visible
from one function body, and proves what they promise for every input, every interleaving or every reachable state.

Where the source changes things step by step, the model does too. Objects are classes whose methods are proved equal to
a function on the object's value; concurrent protocols are state machines (`State`, `Action`, `Enabled`, `Step`) whose
runs are all sequences of enabled actions, with an invariant `Inv`, a lemma `InvStep` that every step keeps it, and main
theorems about the end state `Exec(Init, run)` of every allowed run.

* **Asynchronous greeter** (`GreeterMachine`, `GreeterSafety`, `GreeterService`, `GreeterCode`, `GreeterOrder`). Every
  statement of `CallData` that other threads can observe is a step. Addresses are tags, a deleted address may be
  allocated again, any number of threads run the event loop, and touching a dead instance, a wrong `status_` or a missing
  call is a fault.
* **Completion queue and asynchronous requests** (`Avalanche`, `AsyncRequestMachine`, `AsyncRequestSafety`,
  `AsyncRequestCalls`, `AsyncRequestQueues`, `AsyncRequestCode`, `CoreQueue`). The avalanche counter; request objects
  that replace themselves when a payload does not parse, including the round through interceptors; which calls are
  cancelled and which payload answers a request; the queue of the call and the queue for notifications, which may be the
  same one or two; the core queue's own count of pending events.
* **RouteChat** (`RouteTypes`, `BlockingChat`, `BlockingReads`, `CallbackChat`, `CallbackReads`, `ChatComparison`). The
  blocking and the callback server, each over any number of streams sharing one log, what becomes of the notes they
  read, and the exact difference between them. In the callback server starting a write and advancing the iterator are
  two steps, because a completion may run in between.
* **Feature database** (`DbText`, `DbParser`, `DbGrammar`, `DbThrows`, `DbRoundTrip`). The cursor parser as a class, the
  exact sets of texts it accepts and throws on, and the round trip through printing.
* **Other RouteGuide calls** (`RouteGuideServices`, `ListerMachine`, `ClientRecorder`). The reactors of the callback
  server against the blocking handlers; the client's recorder with its hold, its alarm and the runtime's counter of
  outstanding callbacks, where starting a write and counting it are two steps.
* **Key/value store** (`KeyValueStore`). The caching interceptor against the server it stands in for.
* **Node code generator** (`TextReplace`, `NodeNames`, `NodePaths`, `NodeModule`, `NodeLinks`, `NodeScope`). In-place
  string replacement, invented names, relative paths, and whether every name the generated module uses stands, in the
  module's one scope, for what it should.

Properties that turn out not to hold of the code are stated with the exact condition under which they do:

* `ClientRecorder.RecorderIsSafe`: the client sends exactly N points if and only if the alarm behind the last write does
  not overtake the decrement of the counter; by `ExactOnlyForOnePoint` no schedule can go wrong exactly when N is at most
  one, and by `RunsAway` a schedule exists for every larger N after which the stream is never closed.
* `CallbackChat.RoundsRepeat`: a stream is served in order if and only if no completion on it overtakes an increment;
  `FirstNoteTwice` and `PastTheEnd` are runs that fail. `ListerMachine.ListerIsImmune` needs no such condition, because
  that reactor advances its iterator before it starts a write.
* `AsyncRequestQueues.OneQueueIsSafe` and `SilenceIsHarmless`: a separate notification queue may be shut down exactly when
  no request object can still begin an operation on it; nothing in the code waits for that.
* `Avalanche.ShutsDownOnce`, `ChatComparison.LoneStream`, `ChatComparison.CallbackAgainstBlocking`,
  `KeyValueStore.TransparentIffInStep`, `NodeNames.AliasCollision`, `NodePaths.RelativePathLeadsThere`,
  `NodePaths.WellKnownTypes`, `NodeScope.MethodsAreFound`, `NodeScope.TransformersAreRight`,
  `NodeScope.ImportsAreRight`, `NodeScope.TypesAreLinked`.

Where the code and its comments differ, the model follows the code. The callback chat never clears `to_send_notes_`, so
each round repeats all earlier ones. The parser lets any one character stand before the closing `]`, accepts a trailing
`},`, and removes white space inside names. The interceptor's remark that clients alternate writes and reads is a
condition, made exact. The well-known-type test of the generator is on the text of the path and not on the directory its
comment names.

## Model

| member | source | states |
|---|---|---|
| GreeterSafety.ServerIsSafe | GRPC_Examples/cpp/helloworld/greeter_async_server.cc:79-159 | In every interleaving each live `CallData` has exactly one token (pending operation, queued tag or one thread inside it), a dead one has none, no two threads are in one instance, no deleted instance is touched, and the `status_` assertion never fails; the loop stops only on a failed event |
| GreeterSafety.InvStep | GRPC_Examples/cpp/helloworld/greeter_async_server.cc:85-117 | Every statement of every thread and every action of the runtime keeps the ownership invariant |
| GreeterSafety.KeepTake | GRPC_Examples/cpp/helloworld/greeter_async_server.cc:149-158 | Taking an event moves the one token of the instance from the runtime to the thread that took it, and to no other |
| GreeterService.ServerServes | GRPC_Examples/cpp/helloworld/greeter_async_server.cc:86-146 | In every run the calls accepted are those that came in, in order, the listening instances number the loops entered, creations plus matched-but-not-replaced calls equal loops plus accepted calls, and every call is either answered once with "Hello " and its own name or held by exactly one live instance |
| GreeterService.RestingServer | GRPC_Examples/cpp/helloworld/greeter_async_server.cc:97-116 | When nothing is in progress every call that came in has been answered exactly once and only one waiting instance per loop is left |
| GreeterCode.ServerImpl.NewCallData | GRPC_Examples/cpp/helloworld/greeter_async_server.cc:79-96 | Construction, which calls `Proceed`, leaves a new instance in PROCESS with one request pending |
| GreeterCode.ServerImpl.Proceed | GRPC_Examples/cpp/helloworld/greeter_async_server.cc:85-117 | The whole new shared state of one call of `Proceed`, as the function `Proceeded` |
| GreeterCode.ProceedIsARun | GRPC_Examples/cpp/helloworld/greeter_async_server.cc:85-117 | An uninterrupted `Proceed` is one of the interleavings of the machine and ends in that state |
| GreeterCode.ConstructorIsARun | GRPC_Examples/cpp/helloworld/greeter_async_server.cc:79-96 | The same for the call of `Proceed` in the constructor, whether the loop or another instance constructs |
| GreeterOrder.PublishingFirstAnswersTwice | GRPC_Examples/cpp/helloworld/greeter_async_server.cc:110-111 | Were the reply published before `status_` is set to FINISH, two threads could answer one call twice, whatever its name |
| GreeterOrder.AnswersTwice | GRPC_Examples/cpp/helloworld/greeter_async_server.cc:110-111 | With the two statements exchanged this can happen in every state in which one thread has been given a call and another waits for an event |
| Avalanche.CompletionQueue.RegisterAvalanching | grpc/include/grpcpp/completion_queue.h:376-378 | The counter goes up by one and the core queue is left alone |
| Avalanche.CompletionQueue.CompleteAvalanching | grpc/include/grpcpp/completion_queue.h:379-384 | The counter goes down by one, and the core queue is shut down exactly when it was one |
| Avalanche.CompletionQueue.Shutdown | grpc/src/cpp/common/completion_queue_cc.cc:133-141 | `Shutdown` gives up the reservation made at construction |
| Avalanche.CountIsHeld | grpc/include/grpcpp/completion_queue.h:367-384 | For every interleaving the counter is the outstanding avalanches plus the reservation, and shutdowns are counted by the times it reached zero |
| Avalanche.ShutsDownOnce | grpc/include/grpcpp/completion_queue.h:249-254 | Core shutdown happens exactly once, when the last avalanche is given up, if and only if nothing registered after it |
| Avalanche.LateRegistrationShutsDownTwice | grpc/include/grpcpp/completion_queue.h:376-384 | A registration after core shutdown makes it happen again |
| AsyncRequestSafety.RequestsAreAnswered | grpc/include/grpcpp/server_interface.h:259-319 | For all payloads, interceptor schedules and choices of queues, the only faults are operations begun or ended on a notification queue that accepts none, exactly when a step starves and never on one queue; otherwise a request has exactly one object while outstanding, yields at most one event, the event carries the first call that parses or the failure, and every malformed call before it was cancelled and released exactly once |
| AsyncRequestSafety.CoreShutsDownLast | grpc/src/cpp/server/server_cc.cc:139-162 | The call queue's avalanche count is its live request objects plus the reservation, so its core shutdown comes once and after the last of them; the notification queue accepts operations while it is open or one is under way |
| AsyncRequestSafety.DeletingFirstWouldFail | grpc/include/grpcpp/server_interface.h:275-279 | On one queue, deleting the object before allocating its successor would issue a request on a core queue already shut down; on two queues the order makes no difference |
| AsyncRequestSafety.InvStep | grpc/src/cpp/server/server_cc.cc:139-222 | Every action of requests, interceptors, application and runtime that finds the notification queue accepting operations keeps the invariants |
| AsyncRequestSafety.StarvedFails | grpc/src/cpp/server/server_cc.cc:210-243 | A step that needs a notification queue accepting operations and has none: a replacement fails the assertion of `IssueRequest`, a resumption ends an operation that was not begun |
| CoreQueue.ReportsShutdown | grpc/src/core/lib/surface/completion_queue.cc:657-757 | In every run a drained core queue reports shutdown exactly when its operations under way, and the one it counts until told to shut down, number the ends that had no beginning; so exactly when it was told to and all have ended, if every end had a beginning |
| CoreQueue.NeverDown | grpc/src/cpp/server/server_cc.cc:210-222 | After a resumption on a queue that accepts no operations the tag is still delivered, and shutdown is not reported any more while nothing is under way |
| AsyncRequestSafety.IssuedStep | grpc/src/core/lib/surface/completion_queue.cc:657-757 | The notification queue's pending events are the requests the core has not answered and, until shutdown, one more |
| AsyncRequestSafety.KeepReplace | grpc/include/grpcpp/server_interface.h:264-281 | Replacement on a malformed payload cancels and releases the call for the first time, and the successor alone stands for the request |
| AsyncRequestSafety.KeepReturn | grpc/src/cpp/server/server_cc.cc:164-208 | Without replacement the object goes to the interceptors with its payload parsed, or is about to return its tag with the event's result |
| AsyncRequestCalls.CancelledAreRefused | grpc/include/grpcpp/server_interface.h:264-274 | In every run, faults included, a call that is cancelled or released has no payload or one that does not deserialize |
| AsyncRequestCalls.RecordIsGiven | grpc/include/grpcpp/server_interface.h:259-287 | In every run that does not starve, the calls on record for a request are exactly the payloads that arrived for it, in order |
| AsyncRequestCalls.AnsweredByFirst | grpc/include/grpcpp/server_interface.h:259-319 | In every run that does not starve, a request gets at most one event: a success with the message of the first payload that deserializes, after which no more are given to it, or a failure when none of them does |
| AsyncRequestCalls.RipeIsReturned | grpc/include/grpcpp/server_interface.h:264-287 | A first event whose payload deserializes, without interceptors: the application gets exactly that message, once, and no call is cancelled |
| AsyncRequestCalls.RipeIsIntercepted | grpc/src/cpp/server/server_cc.cc:164-208 | The same event with interceptors: they are asked with that message in place, and no call is cancelled |
| AsyncRequestCalls.FinalizedReturns | grpc/include/grpcpp/server_interface.h:259-287 | What the code does on such an event, in terms of calls, objects and events |
| AsyncRequestCalls.FinalizedReplaces | grpc/include/grpcpp/server_interface.h:264-280 | What the code does when the payload is missing or does not deserialize: cancel, release, successor, and no event |
| AsyncRequestQueues.SilenceIsHarmless | grpc/src/cpp/server/server_cc.cc:232-243 | In every reachable state, shutting a separate notification queue down can lead to a fault if and only if some object may still begin an operation on it |
| AsyncRequestQueues.OneQueueIsSafe | grpc/include/grpcpp/server_interface.h:309-319 | No run has a fault exactly when the call queue and the notification queue are one |
| AsyncRequestQueues.PoliteRunsAreSafe | grpc/include/grpcpp/completion_queue.h:232-238 | Runs that shut the notification queue down only when no object can issue on it have no fault |
| AsyncRequestQueues.MalformedAfterSilence | grpc/include/grpcpp/server_interface.h:264-281 | The shortest failing run: a malformed call drained after the notification queue was shut down |
| AsyncRequestCode.ServerQueue.NewRequest | grpc/src/cpp/server/server_cc.cc:139-158 | Construction registers an avalanche on the call queue and begins an operation on the notification queue |
| AsyncRequestCode.ServerQueue.CompleteAvalanching | grpc/include/grpcpp/completion_queue.h:379-384 | Completing the last avalanche shuts the core queue down, which is the notification queue too if there is only one |
| AsyncRequestCode.ServerQueue.DeleteRequest | grpc/src/cpp/server/server_cc.cc:160-162 | Deletion of a replaced object completes its avalanche |
| AsyncRequestCode.ServerQueue.ReturnTag | grpc/src/cpp/server/server_cc.cc:164-208 | The tag is returned as one event of its request and the object deleted |
| AsyncRequestCode.ServerQueue.CancelCall | grpc/include/grpcpp/server_interface.h:268-274 | The call is cancelled and released once |
| AsyncRequestCode.ServerQueue.Replace | grpc/include/grpcpp/server_interface.h:264-281 | The failed-parse branch as code, equal to the machine's step |
| AsyncRequestCode.ServerQueue.Accept | grpc/src/cpp/server/server_cc.cc:164-208 | The branch that binds the call and asks the interceptors, equal to the machine's step |
| AsyncRequestCode.ServerQueue.FinalizeResult | grpc/include/grpcpp/server_interface.h:259-287 | The whole finalization as code changes the state exactly as the machine does, and says whether the tag is returned |
| AsyncRequestCode.ServerQueue.Refuse | grpc/include/grpcpp/server_interface.h:264-280 | A payload that does not deserialize: the call is cancelled and released, a successor made and the object deleted |
| AsyncRequestCode.ServerQueue.FinalizeLast | grpc/include/grpcpp/server_interface.h:259-263 | The event that ends a request returns its tag with the result and deletes the object |
| AsyncRequestCode.DeliveredIsReady | grpc/src/cpp/common/completion_queue_cc.cc:143-164 | A tag that the machine delivers meets what the code needs exactly when the step does not starve, so always on one queue |
| RouteTypes.AtConcat | GRPC_Examples/cpp/route_guide/route_guide_server.cc:153-158 | The notes at a place in a longer log are those of its parts, in order |
| RouteTypes.AtExactly | GRPC_Examples/cpp/route_guide/route_guide_server.cc:154-159 | The notes at a place are those whose two coordinates are equal to its own, in order and each once |
| BlockingChat.NotesAreAnswered | GRPC_Examples/cpp/route_guide/route_guide_server.cc:149-164 | In every interleaving the note at log position j is answered on its own stream by exactly the earlier entries at its location, in order, and a stream receives nothing else |
| BlockingReads.LogIsReads | GRPC_Examples/cpp/route_guide/route_guide_server.cc:151-160 | In every interleaving log entry j is, unchanged, the note its author had read last when the j-th append took place |
| BlockingReads.SectionIsHandle | GRPC_Examples/cpp/route_guide/route_guide_server.cc:153-160 | Lock, scan of the whole log and append of one stream together do what `Handle` does, and nothing to other streams |
| BlockingChat.TotalEchoes | GRPC_Examples/cpp/route_guide/route_guide_server.cc:149-164 | Between critical sections of any run, the notes written to all streams together number the sum over locations of n(n-1)/2 |
| BlockingChat.SumIsTotal | GRPC_Examples/cpp/route_guide/route_guide_server.cc:153-160 | Every answer goes to exactly one stream |
| BlockingChat.RouteGuideImpl.Handle | GRPC_Examples/cpp/route_guide/route_guide_server.cc:152-160 | The critical section echoes the matching notes of the log and appends the note |
| BlockingChat.RouteGuideImpl.RouteChat | GRPC_Examples/cpp/route_guide/route_guide_server.cc:149-164 | One stream without interference: what is written after each read and the final log |
| CallbackChat.Reactor.OnReadDone | GRPC_Examples/cpp/route_guide/route_guide_callback_server.cc:204-228 | A read stores the received note, adds the matching notes to what is still to be sent, without clearing it, resets the iterator and calls `NextWrite`; the log gains the received note or nothing; a failed read finishes |
| CallbackChat.Reactor.Copy | GRPC_Examples/cpp/route_guide/route_guide_callback_server.cc:213-223 | The critical section copies the matching notes of the log in order |
| CallbackChat.Reactor.OnWriteDone | GRPC_Examples/cpp/route_guide/route_guide_callback_server.cc:229-229 | A completed write, successful or not, calls `NextWrite` |
| CallbackChat.Reactor.NextWrite | GRPC_Examples/cpp/route_guide/route_guide_callback_server.cc:232-242 | Uninterrupted, the next copy is written and the iterator advanced, or the note is appended to the shared log and the next read starts |
| CallbackChat.UninterruptedIsARun | GRPC_Examples/cpp/route_guide/route_guide_callback_server.cc:232-242 | An uninterrupted `NextWrite` is one of the interleavings of the machine |
| CallbackChat.RoundsRepeat | GRPC_Examples/cpp/route_guide/route_guide_callback_server.cc:204-247 | In every interleaving a stream starts its notes in order, and each finished round wrote the concatenation over all rounds so far of the notes at each round's location in its snapshot of the log from before the stream's own append, if and only if no completion on that stream overtakes an increment |
| CallbackReads.RoundsAreReads | GRPC_Examples/cpp/route_guide/route_guide_callback_server.cc:201-224 | In every interleaving, overtaken or not, round k of a stream is about the note of its k-th completed read, and copied from all the log held then |
| CallbackReads.LogIsReads | GRPC_Examples/cpp/route_guide/route_guide_callback_server.cc:236-241 | In every interleaving, overtaken or not, the log is the initial one followed by notes that were read, unchanged, each appended by exactly one round and behind what that round saw |
| CallbackChat.OvertakingRepeats | GRPC_Examples/cpp/route_guide/route_guide_callback_server.cc:234-235 | A completion that overtakes the increment starts the same note again |
| CallbackChat.FirstNoteTwice | GRPC_Examples/cpp/route_guide/route_guide_callback_server.cc:234-235 | Whenever there is a note to send, some interleaving sends the first one twice |
| CallbackChat.PastTheEnd | GRPC_Examples/cpp/route_guide/route_guide_callback_server.cc:233-235 | When there is exactly one, some interleaving reads the iterator beyond the end |
| ChatComparison.CallbackAgainstBlocking | GRPC_Examples/cpp/route_guide/route_guide_callback_server.cc:195-250 | Where no completion overtakes, the last part of a round is the blocking server's answer to the same note cut short by the notes missed between copy and append; the two agree exactly when none was missed |
| ChatComparison.LoneStream | GRPC_Examples/cpp/route_guide/route_guide_callback_server.cc:204-242 | On a lone stream where no completion overtakes, round k repeats all that the blocking `RouteChat` writes up to that note; the servers agree on the round if and only if all earlier answers were empty |
| ChatComparison.CubicWrites | GRPC_Examples/cpp/route_guide/route_guide_callback_server.cc:204-242 | Where no completion overtakes, k notes at one place, with m already there, cost the exact quadratic number of writes in round k and the exact cubic number in all |
| DbParser.Parser.constructor | GRPC_Examples/cpp/route_guide/helper.cc:68-74 | The text without white space, and whether it begins with `[` |
| DbParser.Parser.Match | GRPC_Examples/cpp/route_guide/helper.cc:118-122 | Compares at the cursor and advances it in either case, never past a position where `substr` would throw |
| DbParser.Parser.ReadLong | GRPC_Examples/cpp/route_guide/helper.cc:124-132 | Scans to the delimiter and converts as `stol` does, or reports its exception |
| DbParser.Parser.FinishRecord | GRPC_Examples/cpp/route_guide/helper.cc:94-109 | The name runs to the quote and must be followed by a proper ending |
| DbParser.Parser.TryParseOne | GRPC_Examples/cpp/route_guide/helper.cc:78-110 | Agrees with the declarative record parser on result, cursor and failure, for the member strings it was constructed with |
| DbParser.ParseRecordAdvances | GRPC_Examples/cpp/route_guide/helper.cc:78-110 | A parsed record leaves strictly less text, which is why the list loop ends |
| DbParser.ParseDb | GRPC_Examples/cpp/route_guide/helper.cc:143-162 | The loop returns all records or none, and ends for every text |
| DbGrammar.ParsedExactly | GRPC_Examples/cpp/route_guide/helper.cc:63-162 | A non-empty list is returned exactly when the stripped text is `[` followed by records in the grammar of the code, spelled out with its four keys, the last ended by `},` at the end or by any character and `]` |
| DbGrammar.ParsedSpells | GRPC_Examples/cpp/route_guide/helper.cc:78-110 | Whatever is returned is spelled out in the text |
| DbGrammar.SpelledIsParsed | GRPC_Examples/cpp/route_guide/helper.cc:143-162 | Whatever is spelled out is returned |
| DbGrammar.JsonText | GRPC_Examples/cpp/route_guide/helper.cc:137-140 | The member strings, put together in the order they are matched, are the literal text of a record |
| DbThrows.ThrowsExactly | GRPC_Examples/cpp/route_guide/helper.cc:124-162 | The parser throws exactly on whole records followed by one up to a latitude or longitude that `stol` refuses, and returns the empty list exactly on the texts of neither grammar |
| DbText.StolOfDecimal | GRPC_Examples/cpp/route_guide/helper.cc:124-132 | Reading the decimal form of an int32, negative or not, gives it back |
| DbText.StolExactly | GRPC_Examples/cpp/route_guide/helper.cc:130-131 | `stol` succeeds exactly on blanks, an optional sign and a longest run of digits whose number fits a long, and returns that number |
| DbText.Int32Exactly | GRPC_Examples/cpp/route_guide/helper.cc:85-92 | A coordinate is stored as the one int32 value that differs from the number read by a multiple of 2^32 |
| DbText.StripExactly | GRPC_Examples/cpp/route_guide/helper.cc:69-70 | What is left of a text is the one string without blanks from which it comes by putting in spaces, tabs, newlines, vertical tabs, form feeds or carriage returns |
| DbRoundTrip.ParseUndoesPrint | GRPC_Examples/cpp/route_guide/helper.cc:63-162 | For every list of int32 features with quote-free names, and every text equal but for white space to its printed form, which is spelled out literally, the parser returns the list in order with white space removed from the names |
| DbRoundTrip.BlanksDoNotMatter | GRPC_Examples/cpp/route_guide/helper.cc:63-162 | The same for the printed form with any blanks put in anywhere |
| DbRoundTrip.OneFeature | GRPC_Examples/cpp/route_guide/helper.cc:78-110 | The literal text of a database with one feature gives that feature: name, latitude and longitude each in its place |
| DbRoundTrip.EmptyList | GRPC_Examples/cpp/route_guide/helper.cc:143-162 | The empty list prints to a text that gives the empty list |
| RouteGuideServices.GetFeatureName | GRPC_Examples/cpp/route_guide/route_guide_server.cc:76-85 | The name of the first feature at the point, or the empty name |
| RouteGuideServices.FirstFeature | GRPC_Examples/cpp/route_guide/route_guide_server.cc:76-85 | The name comes from the least position with an equal location; it is empty when there is none |
| RouteGuideServices.ListFeatures | GRPC_Examples/cpp/route_guide/route_guide_server.cc:100-117 | Writes exactly the features inside the rectangle, in order |
| RouteGuideServices.SelectedExactly | GRPC_Examples/cpp/route_guide/route_guide_server.cc:103-115 | The features written are those not below both and not above both corners in either coordinate, in order and each once |
| RouteGuideServices.Lister.constructor | GRPC_Examples/cpp/route_guide/route_guide_callback_server.cc:106-119 | Bounds from either corner, and the first write or the finish |
| RouteGuideServices.Lister.NextWrite | GRPC_Examples/cpp/route_guide/route_guide_callback_server.cc:124-138 | Starts the next selected feature, or finishes |
| RouteGuideServices.Lister.OnWriteDone | GRPC_Examples/cpp/route_guide/route_guide_callback_server.cc:121-121 | A completion, successful or not, moves on by one |
| RouteGuideServices.DriveLister | GRPC_Examples/cpp/route_guide/route_guide_callback_server.cc:104-145 | Under any completions the reactor starts the blocking handler's writes one at a time and finishes exactly once |
| ListerMachine.ListerIsImmune | GRPC_Examples/cpp/route_guide/route_guide_callback_server.cc:124-138 | On any number of threads and under any completions, without condition: the iterator stays within bounds, one write or one thread at a time, one finish, and the blocking handler's features in order |
| RouteGuideServices.CornersDoNotMatter | GRPC_Examples/cpp/route_guide/route_guide_server.cc:103-108 | The selection does not depend on which corner supplies which bound |
| RouteGuideServices.RecordRoute | GRPC_Examples/cpp/route_guide/route_guide_server.cc:119-147 | Count is the stream length, feature count the named points, distance the left fold over consecutive pairs |
| RouteGuideServices.SummaryExactly | GRPC_Examples/cpp/route_guide/route_guide_server.cc:128-141 | The number of points, the number of positions whose first feature has a name, and the sum of the distances from each point to the next |
| RouteGuideServices.Recorder.OnReadDone | GRPC_Examples/cpp/route_guide/route_guide_callback_server.cc:160-180 | One read keeps the running counts and distance, the end of the stream makes the summary |
| RouteGuideServices.DriveRecorder | GRPC_Examples/cpp/route_guide/route_guide_callback_server.cc:151-191 | The reactor and the blocking handler give the same summary for every stream |
| ClientRecorder.Recorder.constructor | GRPC_Examples/cpp/route_guide/route_guide_callback_client.cc:152-167 | The hold, then an uninterrupted `NextWrite`, before the call is started |
| ClientRecorder.Recorder.SendNext | GRPC_Examples/cpp/route_guide/route_guide_callback_client.cc:189-202 | An uninterrupted call of `NextWrite`: a write and its decrement, or the close of the stream and the end of the hold |
| ClientRecorder.Recorder.SetAlarm | GRPC_Examples/cpp/route_guide/route_guide_callback_client.cc:168-174 | A completed write sets the one alarm |
| ClientRecorder.Recorder.GiveUp | grpc/include/grpcpp/support/client_callback.h:1036-1050 | Whoever gives up the last registration destroys the call and runs `OnDone` |
| ClientRecorder.RecorderIsSafe | GRPC_Examples/cpp/route_guide/route_guide_callback_client.cc:150-217 | For every N and schedule, if and only if the alarm behind the last write never fires before all started writes are counted: one write or alarm at a time, exactly N writes, then one close and one `RemoveHold`, nothing afterwards, `OnDone` once and only after the hold is gone, and every run ends after the same number of steps |
| ClientRecorder.OneTooMany | GRPC_Examples/cpp/route_guide/route_guide_callback_client.cc:196-197 | An alarm that overtakes the decrement starts write N + 1 |
| ClientRecorder.RunsAway | GRPC_Examples/cpp/route_guide/route_guide_callback_client.cc:189-202 | For every N from two up, a schedule starts N + 1 writes, after which no continuation ever closes the stream |
| ClientRecorder.NeverCloses | GRPC_Examples/cpp/route_guide/route_guide_callback_client.cc:190-201 | A counter below zero stays below zero and the stream is never closed |
| ClientRecorder.OnePointIsSafe | GRPC_Examples/cpp/route_guide/route_guide_callback_client.cc:160-167 | The constructor's write is counted before `StartCall`, so a single point is never sent twice |
| ClientRecorder.ExactOnlyForOnePoint | GRPC_Examples/cpp/route_guide/route_guide_callback_client.cc:189-202 | The number of writes is right under every schedule exactly when N is at most one |
| ClientRecorder.HoldIsNeeded | GRPC_Examples/cpp/route_guide/route_guide_callback_client.cc:161-174 | Without the hold some schedule uses the call after it was destroyed, for every N > 0 |
| ClientRecorder.InvStep | grpc/include/grpcpp/support/client_callback.h:1036-1050 | Every completion, alarm, decrement and callback return that does not overtake keeps the count of outstanding callbacks right and takes one step off the work left |
| KeyValueStore.GetValueFromMap | GRPC_Examples/cpp/keyvaluestore/server.cc:51-58 | The value of the first pair whose key is equal as a C string, or the empty value |
| KeyValueStore.FirstPair | GRPC_Examples/cpp/keyvaluestore/server.cc:51-58 | The answer comes from the least position with an equal key; it is empty when there is none |
| KeyValueStore.CStrExactly | GRPC_Examples/cpp/keyvaluestore/server.cc:53-53 | Keys are compared up to their first NUL |
| KeyValueStore.ServeValues | GRPC_Examples/cpp/keyvaluestore/server.cc:62-71 | One answer for each request, in order |
| KeyValueStore.ServerStream.Read | GRPC_Examples/cpp/keyvaluestore/server.cc:65-69 | Answers come in the order of the requests; with none outstanding the read blocks |
| KeyValueStore.CachingInterceptor.Intercept | GRPC_Examples/cpp/keyvaluestore/caching_interceptor.h:37-115 | The new cache, response, status and upstream requests for every set of hook points |
| KeyValueStore.SentKeeps | GRPC_Examples/cpp/keyvaluestore/caching_interceptor.h:72-88 | A send keeps every entry equal to the server's answer and each cached key asked once |
| KeyValueStore.CacheIsFaithful | GRPC_Examples/cpp/keyvaluestore/caching_interceptor.h:50-99 | After any sends the entries are the server's answers and the upstream requests are the distinct keys in order of first appearance |
| KeyValueStore.FirstSeenExactly | GRPC_Examples/cpp/keyvaluestore/caching_interceptor.h:74-88 | The keys asked upstream are those at the positions where a key has not appeared before, in order |
| KeyValueStore.GetValues | GRPC_Examples/cpp/keyvaluestore/client.cc:48-71 | The client's loop reads through the interceptor what it would read from the server, which is asked once for each distinct key |
| KeyValueStore.TransparentIffInStep | GRPC_Examples/cpp/keyvaluestore/caching_interceptor.h:52-54 | For an arbitrary sequence of writes and reads the interceptor is transparent for every server if and only if at every read there is an unanswered key and the oldest is the last written; a read with none blocks without the interceptor |
| KeyValueStore.OutOfStepDiffers | GRPC_Examples/cpp/keyvaluestore/caching_interceptor.h:94-99 | A server on which a client out of step reads something else |
| KeyValueStore.AlternatingIsInStep | GRPC_Examples/cpp/keyvaluestore/client.cc:53-64 | Clients that alternate writes and reads meet that condition |
| TextReplace.StringReplace | grpc/src/compiler/generator_helpers.h:61-80 | The in-place loop ends and gives leftmost, non-overlapping replacement, or that of the first occurrence only |
| TextReplace.ReplaceIsJoin | grpc/src/compiler/generator_helpers.h:61-75 | Cutting a text at the leftmost occurrences and joining with the replacement is replacing; inserted text is never searched again |
| TextReplace.EveryTextIsCut | grpc/src/compiler/generator_helpers.h:61-75 | Every text has such a cut |
| TextReplace.FoundFirst | grpc/src/compiler/generator_helpers.h:65-73 | With `replace_all` off exactly the first occurrence is replaced |
| TextReplace.StripSuffix | grpc/src/compiler/generator_helpers.h:32-42 | Removes the suffix exactly when it is there, and says so |
| TextReplace.StripPrefix | grpc/src/compiler/generator_helpers.h:44-52 | Removes the prefix exactly when it is there, and says so |
| TextReplace.StripProto | grpc/src/compiler/generator_helpers.h:54-59 | Removes `.protodevel` or else `.proto`, and nothing when the name ends in neither |
| TextReplace.LowercaseFirstLetter | grpc/src/compiler/generator_helpers.h:110-116 | Only the first character changes, and only if it is one of A to Z, to its code plus 32 |
| TextReplace.LowercaseCollision | grpc/src/compiler/generator_helpers.h:110-116 | Exactly which method names become the same key |
| NodeNames.ModuleAlias | grpc/src/compiler/node_generator.cc:41-54 | The three passes are one simultaneous character map |
| NodeNames.AliasSpelled | grpc/src/compiler/node_generator.cc:41-54 | Dashes become dollars, slashes and dots underscores, every other character stays, and `_pb` follows |
| NodeNames.AliasCollision | grpc/src/compiler/node_generator.cc:42-53 | Exactly which file names share an alias |
| NodeNames.PlainAliasesDiffer | grpc/src/compiler/node_generator.cc:41-54 | On stripped names without `_`, `.` and `$` the alias determines the name |
| NodeNames.AliasesCollide | grpc/src/compiler/node_generator.cc:42-48 | For all x and y, x/y.proto and x_y.proto share an alias |
| NodeNames.MessageIdentifierName | grpc/src/compiler/node_generator.cc:111-113 | Dots become underscores and nothing else changes |
| NodeNames.IdentifierCollision | grpc/src/compiler/node_generator.cc:111-113 | Exactly which full names share an identifier |
| NodePaths.GetRootPath | grpc/src/compiler/node_generator.cc:65-83 | The package for well-known types, else one step up for each directory of the requiring file |
| NodePaths.GetRelativePath | grpc/src/compiler/node_generator.cc:87-90 | That root followed by the target |
| NodePaths.RelativePathLeadsThere | grpc/src/compiler/node_generator.cc:65-90 | For every clean target the path leads exactly to the target if and only if the target does not begin with google/protobuf, and the directories in the requiring file's path are clean or the tree is installed at the top of the file system |
| NodePaths.WellKnownTypes | grpc/src/compiler/node_generator.cc:67-73 | The text test covers the directory of the well-known types and, beyond it, exactly the names that go on with something other than a slash |
| NodeModule.GetAllMessages | grpc/src/compiler/node_generator.cc:94-109 | The nested loops gather the input and output types of all methods |
| NodeModule.GatherIsUsed | grpc/src/compiler/node_generator.cc:92-109 | The keys are the full names used, and each is mapped to a message of that name |
| NodeModule.NodeObjectPath | grpc/src/compiler/node_generator.cc:115-120 | Module alias, dot, and the full name without its package, or the whole full name where the package is no prefix |
| NodeModule.ObjectPathsDiffer | grpc/src/compiler/node_generator.cc:115-120 | Within a file the object paths tell message types apart |
| NodeModule.PrintMessageTransformer | grpc/src/compiler/node_generator.cc:123-157 | The pair of functions for a message type: its name, the type it checks for and the constructor it uses |
| NodeModule.PrintTransformers | grpc/src/compiler/node_generator.cc:229-237 | One pair for each gathered message type and no other |
| NodeModule.PrintMethod | grpc/src/compiler/node_generator.cc:159-184 | The types and function names of one method entry, under the method's key |
| NodeModule.PrintServices | grpc/src/compiler/node_generator.cc:186-243 | One variable for each service, holding the entries of its methods in order |
| NodeModule.PrintImports | grpc/src/compiler/node_generator.cc:210-227 | The grpc package first, then the file itself exactly when it has messages, then each direct dependency in order |
| NodeModule.GenerateFile | grpc/src/compiler/node_generator.cc:246-274 | Nothing for a file without services, otherwise the module with its imports, transformers and service objects |
| NodeLinks.TransformersAreClosed | grpc/src/compiler/node_generator.cc:123-184 | The `serialize_` and `deserialize_` names used are exactly those defined, one pair for each distinct full name |
| NodeScope.TransformersAreRight | grpc/src/compiler/node_generator.cc:111-227 | When the service objects are built, each use reaches the functions of its own type if and only if no two used names differ only in dots and underscores and no import and no earlier service takes the name of a function used |
| NodeScope.EntriesAreRight | grpc/src/compiler/node_generator.cc:159-205 | Under that condition every method of every service has its entry in order, under its key, with the type and functions of its input on the request side and those of its output on the response side |
| NodeScope.ImportHidesSerializer | grpc/src/compiler/node_generator.cc:131-225 | Failing inputs for every x without dashes and slashes: importing serialize_x.proto and using a message type x.pb |
| NodeScope.ServiceHidesSerializer | grpc/src/compiler/node_generator.cc:131-205 | Failing inputs for every x without dots: a service serialize_x and a later one that uses a message type xService |
| NodeScope.MethodsAreFound | grpc/src/compiler/node_generator.cc:193-201 | Every method of a service object is found under its key exactly when no two method names differ in the case of the first letter at most |
| NodeScope.AliasesAreImported | grpc/src/compiler/node_generator.cc:210-227 | Every alias used stands for a module exactly when each type's file shares its alias with a loaded file; a type of the file itself, if that has messages, and a type of a direct dependency always has a module |
| NodeScope.ImportsAreRight | grpc/src/compiler/node_generator.cc:210-227 | Whatever service is being built, each alias stands for its own file if and only if no two of the loaded files, which are the file itself if it has messages and its direct dependencies, share one |
| NodeScope.TypesAreLinked | grpc/src/compiler/node_generator.cc:210-237 | Without alias collisions every type is found in its own module if and only if each is defined in the file itself, which has messages, or in a direct dependency |
| NodeScope.LinkedTypeLoads | grpc/src/compiler/node_generator.cc:65-90 | The import of a linked type loads the generated file of its .proto, or the package for well-known types |
| NodeScope.PublicImportIsMissed | grpc/src/compiler/node_generator.cc:219-225 | A type that arrives through a public import of a dependency is used without being imported |

## Left out

- Delivery by the core completion queue is an assumption: each published tag is delivered exactly once, with any result (grpc/include/grpcpp/completion_queue.h:134-138).
- Memory ordering: steps of different threads interleave as whole statements; relaxed and acquire/release atomics are not distinguished, and an unsynchronised increment or decrement is one step, so that updates lost in a data race are not modelled.
- GreeterSafety.ServerIsSafe: a failed event stops the machine, as the assertion in the loop stops the process; what the process leaves behind is not modelled.
- AsyncRequestSafety.StarvedFails: the machine stops at a resumption that ends an operation not begun; what the core queue does from there on is the subject of `CoreQueue`, by itself.
- GreeterCode.ServerImpl.Proceed: the tag and the address of the next allocation are parameters, because allocation and the queue belong to the runtime.
- AsyncRequestSafety.RequestsAreAnswered: the payload parser is an arbitrary function, interceptor chains appear only as the choice to run and the later resumption, all requests use the same pair of queues, and nothing else registers or is pending on a notification queue of its own.
- GenericAsyncRequest and methods without a payload are not modelled; they would only add easy members.
- CallbackChat.RoundsRepeat: the result of a write is ignored by the code and therefore by the model; the destruction of a finished reactor, which waits for all its reactions, is not modelled.
- DbText: characters are code points, white space is that of the C locale, and `long` has 64 bits; negative `char` arguments of `isspace` are not modelled.
- DbParser.ParseDb: an exception of `stol` is a result of the call, since the source does not catch it; printing the outcome is left out.
- RouteGuideServices.RecordRoute: the counters are unbounded integers, so overflow after 2^31 points is not modelled; elapsed time is left out.
- RouteGuideServices.RecordRoute: the distance type, its addition and the trigonometry are parameters, so nothing depends on floating-point rounding.
- ClientRecorder.RecorderIsSafe: alarm delays and random points are left out; an alarm may fire at any time after it is set.
- KeyValueStore.CachingInterceptor.Intercept: deserialization itself is a parameter of the batch; the interceptor's own stream answers every write it is sent.
- KeyValueStore.GetValues: console output and the final status are left out.
- TextReplace.StringReplace: an empty `from` with `replace_all` makes the source loop for ever, so it is excluded; the generators never pass one.
- NodePaths.RelativePathLeadsThere: links in the file system are not modelled.
- NodeModule.PrintTransformers: the order of `std::map` is left open, so the results hold for every order.
- NodeModule.GenerateFile: the printed text, comments, streaming flags, method paths and the exported client constructors are left out; the module is its declarations and uses.
- NodeScope.TransformersAreRight: full names are taken to identify messages, as a descriptor pool guarantees.
- Channel, stub and server construction, command lines, file reading, credentials, metadata and compression are not part of this model.
- The unary greeters, the PHP and Ruby examples, the other code generators and the build scripts are not part of this model.
