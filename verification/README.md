# Model of the ling-base framework's hard core

A Dafny model of the parts of the framework where several pieces have to agree: the
streaming relay, the application lifecycle, the registry, the signal bus, the cached
environment lookup, the scanning pool, version selection, the banner font, the SQL script
splitter and the replica round robin. Code that changes state step by step is a class or a
method proved against a specification function; the promises are lemmas about those
functions. Concurrent code is a state machine whose steps any number of goroutines take in
any order, and its theorems hold of every finite run.

Automatic induction is switched off on every lemma; a proof by induction calls itself.

Where a promise fails for some inputs, an if-and-only-if says when it holds, and its right side
can be checked before the call. What such a lemma assumes besides stands in its `requires`: the
text of an Anthropic stream is compared for streams that open each text block once, empty and
before writing to it, and write in index order; fonts are printed for characters that a header
can name; and ids and slices of the signal bus are compared for runs that do not wrap the 64-bit
counter, unless the wrap is what the lemma is about.

| file | what it covers |
|---|---|
| `Channels.dfy` | the log of a goroutine behind a result: sends, the field it sets, the close |
| `ChatStream.dfy` | flat streaming: line framing, chunk extraction, the goroutine behind one channel |
| `Fallback.dfy` | model fallback of `Chat` and `ChatStream` |
| `Messages.dfy`, `RichStream.dfy` | rich streaming over a flat stream: emitted chunks and final response |
| `Translation.dfy` | the same two views said of the flat chunks alone |
| `AnthropicStream.dfy` | the Anthropic event loop over decoded events |
| `AnthropicEvents.dfy` | its chunks and its response said of the events alone |
| `RichClient.dfy` | the rich client: which stream is opened, and the drained answer |
| `RichToFlat.dfy` | rich messages to flat messages: text, tool calls, results and their pairing |
| `ShutdownManager.dfy` | hooks, the exchange sort, and concurrent `Shutdown`, `Stop`, `Listen` |
| `Lifecycle.dfy` | start with rollback, stop in reverse, error selection |
| `Application.dfy`, `EarlyStop.dfy` | one `Run` interleaved with stops, signals and hook registrations |
| `LifecycleRun.dfy` | the interleaved steps of `Run` refine the lifecycle manager's start, rollback and stop |
| `Registry.dfy` | name map, type index and order list |
| `Signals.dfy`, `SignalScripts.dfy` | copy-on-write handler slices under reentrant handlers, and what a handler's calls come to |
| `EnvLookup.dfy`, `EnvStable.dfy` | `.env` parsing, the cache, and when the cache shows |
| `ScanPool.dfy` | semaphore, wait group, result channel and closer of the directory scanner |
| `Versions.dfy`, `ModulePaths.dfy` | version order and maximum, longest module prefix |
| `DataSources.dfy` | datasource bookkeeping, round robin over 64-bit counters, selection from a context |
| `InitSql.dfy` | the SQL script splitter |
| `DoomFont.dfy`, `Banner.dfy` | font scanner and parser, and banner renderer |
| `Options.dfy`, `Seqs.dfy`, `Strings.dfy`, `TextLines.dfy` | shared helpers; the lines of a text |

Where the code and its documentation disagree the model follows the code:

- `Wait` is documented to block until shutdown is complete (bootstrap/shutdown.go:170); it is
  released before any hook runs (`ShutdownManager.WaitIsReleasedBeforeAnyHook`).
- A comment on `AddHook` says that later hooks get lower priority (bootstrap/shutdown.go:79);
  they get higher priority and run first (`ShutdownManager.DefaultHooksRunInReverse`).
- `Run` registers its shutdown hook to stop the lifecycle (bootstrap/application.go:282) only
  once it is running; a `Stop` that wins before the hook is registered leaves the components
  running (`Application.ComponentsStopIffHookWasInTime`).
- `Usage` is documented to be filled after the channel closes (relay/client.go:552); it is set
  before the Done chunk is sent (relay/client.go:674-678), so whoever receives Done can read it.
  `Final` of a rich stream is set only after its terminal chunk was sent (relay/rich.go:152 and
  :258), so whoever reads it on receiving that chunk may find it empty (`Messages.LateIsRichResult`).
- `RichChat` reports no error for a stream that failed after it was opened: it returns an empty
  response (`RichClient.RichChat`).
- `compareVersions` is documented for semantic versions; a pre-release or build suffix counts
  only by the numbers after its dots, and then raises the version
  (`Versions.SuffixCountsIffNumbered`), and it panics on two pseudo-versions when one is too
  short (`Versions.SomeWalkPanicsIffShort`).
- The renderer has a two-column case for spaces (bootstrap/banner.go:121-124); the font defines
  a space of blank lines, which is drawn with no width (`Banner.NoWidthIffBlankGlyph`).
- A rich message of any role but `assistant` becomes a flat `user` message (relay/rich.go:508-516),
  also when its role is `system` (`RichToFlat.KeepsRoleIff`).
- `FromContext` is documented to fall back to a default write connection
  (common/dbs_multi.go:218-221); with no selection and no fallback it returns nil
  (`DataSources.DocumentedIffGiven`). Pinning a name that is not configured selects a writer
  (`DataSources.UnknownNameSelectsWriter`).

## Model

| member | source | states |
|---|---|---|
| Channels.EarlyLogMeans | relay/client.go:656-679 | when the field is set before the last send, whoever receives that chunk, or sees the close, reads the value |
| Channels.LateLogMeans | relay/rich.go:124-153 | when the field is set after the last send, the close guarantees the value and the last chunk does not |
| TextLines.LinesRejoin | relay/client.go:728-741 | joining the lines of a text gives it back, up to a missing last newline |
| TextLines.LinesAreNewlineFree | relay/client.go:728-741 | no line holds a newline |
| TextLines.LinesOfUnlines | relay/client.go:728-741 | newline-free lines are recovered from the text they join to, so the split is the only one |
| ChatStream.SplitLines | relay/client.go:728-741 | the slicing loop returns exactly those lines |
| ChatStream.TrimLine | relay/client.go:743-752 | the two-ended scan returns the trimmed line |
| Strings.TrimUnique | relay/client.go:743-752 | a trimmed text is the only tight text that blank padding turns into the original |
| Strings.SpacesAre | common/env.go:243 | what counts as white space is the white space of Unicode, one by one |
| Strings.UpperAt | common/env.go:193 | upper-casing moves each of the letters a to z to its place among A to Z and changes nothing else |
| ChatStream.SplitSseLines | relay/client.go:717-726 | the payloads of the `data: ` lines, in order |
| ChatStream.CutIsSafeIffOpenLineBlank | relay/client.go:698-726 | cutting a stream into two writes changes no payload, whatever follows, exactly when the first write's open last line is blank |
| ChatStream.EveryLineIsOne | relay/client.go:717-752 | every line is a data line with a payload, or a line of something else, between blanks |
| ChatStream.StreamForwards | relay/client.go:698-752 | a stream of any such lines forwards, for each data line but `[DONE]`, in order, the chunk of its payload when it has one, and nothing else |
| ChatStream.Extract | relay/client.go:768-830 | a chunk is produced exactly when the first choice has content, reasoning, tool calls or a finish reason; its fields are that choice's, `reasoning` standing in for a missing `reasoning_content` |
| ChatStream.HasPayloadIff | relay/client.go:768-830 | a choice is worth a chunk exactly when one of its texts is there and not empty, or it has tool calls |
| ChatStream.StreamResponseWriter.Write | relay/client.go:698-713 | one write appends the chunks of its payloads to the channel, skipping `[DONE]` and undecodable lines |
| ChatStream.WritesForwardTheWholeText | relay/client.go:698-713 | any number of writes cut at blank open lines forward the chunks of the whole text |
| ChatStream.WriteAll | relay/client.go:665-667 | an adaptor's writes forward, one after the other, all their chunks |
| ChatStream.StreamOnce | relay/client.go:656-679 | the goroutine's log: the forwarded chunks, then an error, or the usage set and Done sent; then the close |
| ChatStream.FlatStreamEndsOnce | relay/client.go:656-679 | every log has non-terminal chunks, one terminal chunk that carries the error of a failing stream or else Done and the usage, then the close and nothing after it; on success the usage can be read as soon as Done is received |
| Fallback.TryModels | relay/client.go:403-425 | the models tried are a prefix of the candidates, every attempt but the last failed retryably, and the last decided; a model listed twice may answer differently |
| Fallback.ReachesIff | relay/client.go:573-608 | an attempt is reached with the request's model first and the configured ones after it in order, past failures only, and past those that the filter refuses never |
| Fallback.Request | relay/client.go:573-608 | a request succeeds exactly when some attempt does and all before it fail retryably, and then with that attempt's result |
| RichStream.AccumulateTools | relay/rich.go:201-225 | the tool loop follows the step function on accumulators and emitted deltas |
| RichStream.Consume | relay/rich.go:183-229 | one chunk changes text, tools, finish reason and channel as the step function says |
| RichStream.BuildContent | relay/rich.go:239-257 | text, then the tools at indices below the count, or the placeholder |
| RichStream.Translate | relay/rich.go:171-259 | the goroutine's log: the translation of the chunks before the first error, then that error; or everything translated, and Final set; then the close |
| RichStream.RunAgrees | relay/rich.go:194-225 | after every chunk the accumulators equal the fold of the emitted chunks |
| Translation.SendsAll | relay/rich.go:183-229 | for each flat chunk, in order: its text, its reasoning, its tool calls and its translated finish reason, nothing that is empty; for `Done` its usage |
| Translation.FoldIsWhatWasSaid | relay/rich.go:194-225 | what a consumer puts together from the chunks is the concatenation of all deltas and, for each index, the last id and name given and all arguments in order |
| Translation.FinalIsWhatWasSaid | relay/rich.go:232-258 | the final response field by field: all deltas as one text, the calls at the indices below the number of those used, the last finish reason, the tokens |
| Translation.ReasonTable | relay/rich.go:521-535 | the three known finish reasons have fixed translations, any other is a guess from the tools |
| RichStream.ToolsAreSeen | relay/rich.go:201-209 | the tools accumulated are those whose index some tool call of the flat stream carries |
| RichStream.FinalIsFoldOfChunks | relay/rich.go:232-258 | the final content is the fold of the emitted chunks, in index order, restricted to the indices below the number of distinct indices in the flat stream |
| RichStream.AllToolsSurviveIffDense | relay/rich.go:242-254 | no tool call is lost exactly when the n distinct indices that the flat stream's tool calls carry are 0..n-1 |
| RichStream.SparseToolIsLost | relay/rich.go:242-254 | a stream with one tool call, at index 1, gives the placeholder and no tool |
| RichStream.OneTerminalIffErrorOrUsage | relay/rich.go:178-193 | a flat stream that ends once becomes a rich stream that ends once exactly when its last chunk is an error or has a usage |
| RichStream.TranslatedIsRichResult | relay/rich.go:171-259 | a flat stream that ends once, in an error or a usage, is translated to a log with one terminal chunk, then Final set exactly on success, then the close |
| RichStream.StreamTranslated | relay/rich.go:160-262 | from response to log: a rich result that sends the translated chunks and then the error that ended them, or the usage; Final has the run's content, stop reason and tokens, and its content is the fold of everything sent |
| RichStream.StopReasonIffNoLateTool | relay/rich.go:226-237 | the last finish chunk and the final stop reason agree exactly when the finish reason is a known one, or no first tool call comes after it |
| RichStream.LateToolExample | relay/rich.go:226-237 | an unknown reason before the first tool call is sent as end_turn and ends as tool_use |
| AnthropicStream.Assemble | relay/anthropic_stream.go:193-223 | the index loop gives the rendered blocks in index order, or the placeholder |
| AnthropicStream.Parse | relay/anthropic_stream.go:16-227 | the event loop sends the step function's chunks and returns its final response |
| AnthropicStream.StreamAnthropic | relay/rich.go:124-153 | the goroutine's log: the parser's chunks and one terminal chunk, the error or the usage, then Final set exactly when nothing failed, then the close; Final is the run's response with its blocks |
| Messages.FailedIsRichResult | relay/rich.go:127-151 | chunks that end in the one error, then the close, are a failed result with no Final |
| Messages.LateIsRichResult | relay/rich.go:144-153 | on success Final is set between the terminal chunk and the close, so the chunk alone does not promise it |
| RichClient.RichChatStream | relay/rich.go:59-81 | the request fails exactly when no stream can be opened, natively or at a reached model; an opened stream of either kind keeps the promise of a rich result, with the content of what it was sent |
| RichClient.RichChat | relay/rich.go:265-279 | for either kind of stream the drained answer is empty exactly when the stream failed after it was opened; otherwise it has content, that of the stream |
| AnthropicStream.BuffersAreLastStartThenDeltas | relay/anthropic_stream.go:110-159 | after any events each block's buffers are the payload of the last start of its index followed by the matching deltas since, and there is a block exactly when there was a start or a delta |
| AnthropicEvents.ScalarsAreLast | relay/anthropic_stream.go:96-185 | id and model are those of the last message, the stop reason that of the last delta with one, input tokens those of the last message usage, output tokens those of the last usage of either kind, cache counts likewise but for non-positive later ones |
| AnthropicEvents.SendsAll | relay/anthropic_stream.go:96-185 | the chunk sent for each event, with the scalars of the events up to it and the id and name of the tool its block was started with |
| AnthropicEvents.RenderedIs | relay/anthropic_stream.go:199-219 | a block of the response is the payload of its last start followed by the deltas since: text, tool input, or thinking with its signature |
| AnthropicEvents.FinalIsWhatEventsGive | relay/anthropic_stream.go:187-227 | the final response is those scalars and those blocks in index order, or the placeholder |
| AnthropicEvents.TerminatorIs | relay/rich.go:127-151 | the last chunk is the error of the scanner, or Done with the token counts of the events |
| AnthropicStream.SumTextIsChunkText | relay/anthropic_stream.go:142-144 | at every step of an ordered stream the text of the blocks is the concatenation of the text chunks |
| AnthropicStream.FinalTextIsChunkText | relay/anthropic_stream.go:193-223 | on an ordered stream the response's text is the concatenated text chunks exactly when some text delta has text, or some event starts a tool use or thinking block at an index from 0 up |
| AnthropicStream.FragmentsAreInputDeltas | relay/anthropic_stream.go:145-153 | the tool fragments sent for an index are its input deltas, in order |
| AnthropicStream.SameInputIff | relay/anthropic_stream.go:211-214 | two texts in front of the same fragments give the same normalized input exactly when they differ in leading blanks only or, before blank fragments, give the same input themselves |
| AnthropicStream.SeededInputIff | relay/anthropic_stream.go:211-214 | text in front of the fragments leaves the normalized input alone exactly when it is blank, or it is `{}` up to blanks and the fragments are blank |
| AnthropicStream.ToolInputIsFragmentsIffAlike | relay/anthropic_stream.go:116-123 | a tool's final input is what all fragments sent for its index come to, exactly when the start's input text and the fragments sent before that start are alike in that sense |
| AnthropicStream.SeededToolInputExample | relay/anthropic_stream.go:119-123 | a tool opened with `{}` and given any arguments ends with `{}` in front of them |
| Messages.TextOfAppend | relay/messages.go:215-224 | the text of blocks is a homomorphism |
| Messages.NormalizedInputIs | relay/rich.go:248-251 | tool input keeps what stands between the blanks around it, and is `{}` when there is nothing else |
| RichToFlat.RichMessageToFlat | relay/rich.go:456-518 | the block loop gives the flat messages of one rich message |
| RichToFlat.RichToFlatMessages | relay/rich.go:405-429 | the flat request is the system message, if any, then each message's translation |
| RichToFlat.SystemLeads | relay/rich.go:405-429 | the system prompt, if there is one, is the first message |
| RichToFlat.FlatOfIs | relay/rich.go:456-518 | an assistant's message becomes one with its text and calls; any other a user's message with its text, if any, and then its tool messages |
| RichToFlat.ResultArrives | relay/messages.go:143-164 | the i-th result of a message that is not an assistant's is its i-th tool message, with the result's id and as text the string, or the texts of the text blocks |
| RichToFlat.CallArrives | relay/rich.go:470-483 | the i-th tool use of an assistant's message is its i-th call, with id and name, and its input or `{}` |
| RichToFlat.StringResultArrives | relay/messages.go:143-164 | one string result arrives as that string |
| RichToFlat.ArrayResultArrives | relay/messages.go:143-164 | one result of blocks arrives as the concatenated texts of its text blocks |
| RichToFlat.FlatAllAppend | relay/rich.go:425-429 | translation is a list homomorphism |
| RichToFlat.TranslationKeeps | relay/rich.go:456-518 | all text, all tool calls of assistants and all tool results of others arrive, in order, and nothing else |
| RichToFlat.LosslessIffInRole | relay/rich.go:499-516 | nothing is lost exactly when only assistants call tools and only others answer them |
| RichToFlat.UsersCallIsLost | relay/rich.go:508-516 | a tool call in a user's message leaves no trace |
| RichToFlat.RoleKeptIff | relay/rich.go:499-516 | a message's role is kept exactly when it is `assistant` or `user` or there is no text |
| RichToFlat.KeepsRoleIff | relay/rich.go:499-516 | the roles that every message keeps are `assistant` and `user` |
| RichToFlat.AnsweredIffOpen | relay/rich.go:484-491 | a tool message answers the nearest assistant message exactly when its id is among the calls still open there |
| RichToFlat.PairingIsPreserved | relay/rich.go:405-518 | every flat tool message is separated from the assistant message with its call only by tool messages, exactly when the rich results are paired that way |
| RichToFlat.UsualShapeIsPaired | relay/rich.go:499-516 | results in a text-free message right after their calls are paired |
| ShutdownManager.SortByPriority | bootstrap/shutdown.go:139-146 | the exchange sort leaves a descending permutation |
| ShutdownManager.DefaultHooksRunInReverse | bootstrap/shutdown.go:73-93 | in a descending run AddHook hooks stand in reverse registration order, whatever AddPriorityHook adds |
| ShutdownManager.Manager.AddHook | bootstrap/shutdown.go:73-81 | appends a hook of that name whose priority is the number of hooks so far |
| ShutdownManager.Manager.AddPriorityHook | bootstrap/shutdown.go:85-93 | appends a hook of that name with exactly the given priority |
| ShutdownManager.Manager.Shutdown | bootstrap/shutdown.go:127-158 | the first call runs every hook once in priority order whichever fail; later calls run none |
| ShutdownManager.ShutdownSafety | bootstrap/shutdown.go:104-158 | in every interleaving stopCh closes at most once, at most one caller runs hooks, they are a prefix of a descending run of the snapshot, and all of it once that caller returns |
| ShutdownManager.ReverseOrderInEveryRun | bootstrap/shutdown.go:73-158 | in every interleaving, of two AddHook hooks that ran the later registered ran first |
| ShutdownManager.HooksAreRegistered | bootstrap/shutdown.go:73-93 | in every interleaving the hooks are those registered, in order, each with its name and the priority given, or the number of hooks before it |
| ShutdownManager.LargerPriorityRunsFirst | bootstrap/shutdown.go:139-158 | in every interleaving, of two hooks that ran, however registered, the one with the larger such priority ran first |
| ShutdownManager.WaitIsReleasedBeforeAnyHook | bootstrap/shutdown.go:131-173 | the close that releases Wait precedes the snapshot and every hook |
| ShutdownManager.NobodyIsStuck | bootstrap/shutdown.go:104-158 | every goroutine that has not returned can take its next step, and a listener is released exactly when the channel is closed |
| Application.NextKeepsInv | bootstrap/application.go:241-297 | every step of every goroutine keeps the joint invariant of Run, lifecycle hook and shutdown manager |
| Application.StatusesInEveryRun | bootstrap/application.go:241-297 | in every interleaving statuses follow the documented path, and Stopped is reached exactly when the lifecycle stop succeeded |
| Application.ComponentsStopBeforeEarlierHooks | bootstrap/application.go:282-292 | when the snapshot holds lifecycle-stop, every running component was asked to stop before any earlier registered AddHook hook runs |
| Application.ComponentsStopIffHookWasInTime | bootstrap/application.go:274-295 | after shutdown the components were asked to stop exactly when lifecycle-stop was registered before the snapshot; otherwise the status stays Running and none was asked |
| EarlyStop.EarlyStopLeavesComponentsRunning | bootstrap/application.go:275-295 | for any number of components, a run in which a Stop wins before the registration, Run returns and all of them stay up |
| LifecycleRun.RunRefinesLifecycle | bootstrap/application.go:241-297 | at every point of every interleaving, with the answers its steps give, who runs and which start and stop calls were made are as at a point of the lifecycle manager's start, rollback or stop |
| LifecycleRun.FailedRunIsFailedStart | bootstrap/lifecycle.go:121-131 | an interleaved start that failed has made exactly the calls of the manager's start up to the component whose start failed, then those of its rollback, and left the same components running |
| LifecycleRun.FinishedStopIsStop | bootstrap/lifecycle.go:138-165 | an interleaved stop that is over has made exactly the calls of the manager's stop, left the same components running, and the status is Stopped exactly when, on the answers of the run, that returns no error |
| Lifecycle.LifecycleManager.AddLifecycle | bootstrap/lifecycle.go:78-83 | appends a component |
| Lifecycle.LifecycleManager.Init | bootstrap/lifecycle.go:99-111 | init hooks run in order up to the first that fails, whose error is returned |
| Lifecycle.LifecycleManager.Start | bootstrap/lifecycle.go:114-134 | components start in order up to the first that fails, then every running one is asked to stop, last first |
| Lifecycle.LifecycleManager.StopRunning | bootstrap/lifecycle.go:147-155 | the reverse loop asks exactly the components then running and keeps the first error |
| Lifecycle.LifecycleManager.Stop | bootstrap/lifecycle.go:138-165 | components in reverse, then hooks in reverse, all attempted; the first error wins |
| Lifecycle.StopDownPlaces | bootstrap/lifecycle.go:124-128 | the places asked descend, and each was running |
| Lifecycle.StopDownIs | bootstrap/lifecycle.go:148-155 | a place is asked exactly when its component ran and the stops at its later places left it running; a component is left running exactly when it ran and all its stops leave it running |
| Lifecycle.AfterStartsIs | bootstrap/lifecycle.go:121-131 | after some starts a component runs as its last start left it, or as before if it was not started |
| Lifecycle.CallsAre | bootstrap/lifecycle.go:121-155 | components are asked to start in registration order, and to stop in the order of the places |
| Lifecycle.HookCallsDownIs | bootstrap/lifecycle.go:158-162 | the shutdown hooks are called last first |
| Lifecycle.StopDownAsksAll | bootstrap/lifecycle.go:148-155 | every running component is asked to stop |
| Lifecycle.StopDownClears | bootstrap/lifecycle.go:148-155 | a component is left running exactly when it ran and is not registered, given that stopping clears its flag |
| Lifecycle.FailedStartLeavesNoneRunning | bootstrap/lifecycle.go:121-131 | after a failed start everything that ran was asked to stop in reverse order and nothing whose stop clears its flag is left running |
| Lifecycle.NoStopErrorIff | bootstrap/lifecycle.go:148-155 | there is no stop error exactly when every component asked succeeds |
| Lifecycle.NoHookErrorIff | bootstrap/lifecycle.go:158-162 | there is no hook error exactly when every hook succeeds |
| Lifecycle.StopSucceedsIffAllDo | bootstrap/lifecycle.go:138-165 | Stop returns nil exactly when every component asked and every hook succeeded |
| Lifecycle.StopErrorIs | bootstrap/lifecycle.go:147-164 | the error is that of the first component asked whose stop failed, and only without one that of the last hook in the list that failed |
| Registry.Registry.Register | bootstrap/registry.go:32-58 | the three errors, or the name joins order and name map and the type index follows |
| Registry.Registry.Unregister | bootstrap/registry.go:136-181 | reports whether the name was known; if so it leaves order, name map and index |
| Registry.Registry.GetByType | bootstrap/registry.go:86-94 | the component of the earliest surviving registration of that type |
| Registry.Registry.GetAllByType | bootstrap/registry.go:97-109 | the components listed under the type, in order |
| Registry.Registry.Range | bootstrap/registry.go:184-192 | visits a prefix of the order, up to the first refusal |
| Registry.CutFirst | bootstrap/registry.go:156-161 | the removal loop cuts exactly the first occurrence |
| Registry.RegisterKeepsIndex | bootstrap/registry.go:46-56 | registering keeps the index equal to the order filtered by type, with no empty list |
| Registry.UnregisterKeepsIndex | bootstrap/registry.go:143-179 | unregistering keeps it too |
| Registry.ListedAfterRemoval | bootstrap/registry.go:145-179 | a type's list of the shortened order is the old list with the name's copies cut out |
| Registry.FirstIsFirst | bootstrap/registry.go:86-94 | the first listed name is the earliest registration of that type or of a pointer to it |
| Registry.ListedAppend | bootstrap/registry.go:97-109 | the list of a type is that of the earlier registrations followed by that of the later ones |
| Registry.ListedOne | bootstrap/registry.go:49-56 | a name is listed under its component's type and, for a pointer, under its element type |
| Registry.ListedTwiceIffOwnElement | bootstrap/registry.go:49-56 | a list names nobody twice exactly when no listed component's type is its own pointer element |
| Signals.Signals.ConnectHandler | common/signals.go:70-84 | publishes a fresh slice with the new handler and the next id |
| Signals.Signals.DisconnectHandler | common/signals.go:87-106 | publishes a fresh slice without the first handler of that id, or drops the event with its last handler |
| Signals.Signals.ClearEvents | common/signals.go:109-115 | drops the named events |
| Signals.Signals.EmitEvent | common/signals.go:120-130 | invokes exactly the handlers of the slice at the snapshot, in order, and what they do to the bus is what their scripts say; no published slice changes |
| Signals.Signals.RunScript | common/signals.go:120-130 | a handler's calls, nested emits and what their handlers do included, happen in the order its script gives them |
| SignalScripts.ScriptDoesItsItems | common/signals.go:70-130 | a script's log is the concatenation of its items' logs, in order and none left out: an operation happens, an emit invokes the handlers then connected and runs as many scripts |
| SignalScripts.ReactionsRunInOrder | common/signals.go:120-130 | the scripts of the first n invoked handlers run one after the other, each to its end, before the emitting script goes on |
| SignalScripts.QuietScriptHappens | common/signals.go:70-130 | when handlers make no calls, the k-th item of a script happens k-th; its operations are those it lists, and each emit invokes the handlers connected and not removed by those before it |
| SignalScripts.DisconnectedIsNotInvoked | common/signals.go:87-130 | connect, disconnect and emit in one script invokes nobody |
| Signals.EmitsInvokeStillConnected | common/signals.go:33-38 | in every run from an empty bus each emit, nested ones included, invokes exactly the handlers connected and not removed by the operations before it, in connection order |
| Signals.SlicesAreStillConnected | common/signals.go:70-115 | after any operations a slice holds exactly the handlers connected and not removed since, in connection order, with increasing ids |
| Signals.NoSliceIsEmpty | common/signals.go:87-115 | no event maps to an empty slice |
| Signals.LastIDCountsConnects | common/signals.go:74-75 | after any operations the last id is the number of connections made, modulo 2^64 |
| Signals.IdsAreUniqueIffNoWrap | common/signals.go:74-83 | the ids given to the connections of a run are pairwise different exactly when at most 2^64 connections were made |
| EnvLookup.TrimEnvValue | common/env.go:242-262 | comment and quotes are taken off as the value function says |
| EnvLookup.PlainValueStays | common/env.go:242-261 | an unquoted value without a `#` after a space or tab stays as it is |
| EnvLookup.UnclosedQuoteStays | common/env.go:244-261 | a quote of either kind that is not closed at the end leaves the value as it is, comment and all |
| EnvLookup.WrittenLine | common/env.go:217-272 | a name in any letter case, plain or after `export` in any letter case, assigns its upper-cased key |
| EnvLookup.QuotedRoundTrip | common/env.go:217-229 | an assignment in either kind of quotes, exported or not, reads back as its key and value exactly when the value has no blank at either end |
| EnvLookup.CommentIsDropped | common/env.go:244-254 | a comment after an unquoted value and a space or a tab is dropped |
| EnvLookup.LineReads | common/env.go:218-228 | a line with `=`: nothing if it is a comment or the key before the first `=` comes to nothing, otherwise that key and the trimmed value |
| EnvLookup.LineWithoutEquals | common/env.go:219-221 | a line without `=` assigns nothing |
| EnvLookup.EnvCache.LookupEnv | common/env.go:192-240 | one lookup's answer and cache are those of the lookup function |
| EnvLookup.CacheIsBacked | common/env.go:194-240 | in every run, under any eviction, each cached entry was given by one of the sources at its time |
| EnvLookup.ServedValuesAreRecent | common/env.go:207-213 | when sources change, a value served from the cache was given for that key by a source at most one TTL earlier |
| EnvStable.ScanAnswers | common/env.go:214-239 | the scan answers with the first line of the key, whatever is cached or evicted |
| EnvStable.AnswerIsKeptForTtl | common/env.go:192-240 | whatever the sources become, the answer of a call that looks at them is the answer of the next call of the key until the TTL is over, the boundary included, and not after, unless it was evicted or a blank of the environment |
| EnvStable.FoundIsCached | common/env.go:192-240 | without evictions everything found is cached, but for a blank of the environment |
| EnvStable.CacheIsInvisibleIffHarmless | common/env.go:192-240 | over fixed sources every run answers as without a cache exactly when the TTL is negative, there is no file, or repeated keys give one value at every place where a scan can end |
| EnvStable.UniqueKeysAreStable | common/env.go:214-239 | with unique normalized keys the cache never shows |
| ScanPool.PoolSafety | pentest/directory_scanner.go:89-126 | in every interleaving at most MaxConcurrent workers hold a token, no send blocks and none follows the close |
| ScanPool.ScanFindsExactlyTheExistingPaths | pentest/directory_scanner.go:89-130 | an uncancelled scan returns, as a multiset, exactly the existing paths |
| ScanPool.EveryStepDecreases | pentest/directory_scanner.go:100-128 | every step decreases a measure |
| ScanPool.ScanIsBounded | pentest/directory_scanner.go:100-128 | a scan of n paths takes at most 8n + 4 steps |
| ScanPool.SomeStepIsPossible | pentest/directory_scanner.go:100-128 | with a token to give some step is possible until the scan ends |
| ScanPool.NeverStuckIffTokens | pentest/directory_scanner.go:91 | no interleaving gets stuck exactly when MaxConcurrent is positive |
| Versions.CompareVersions | lingcli/fullmode.go:306-357 | the comparison loop gives the comparison function, or the panic |
| Versions.LeadingVIsIgnored | lingcli/fullmode.go:309-310 | a leading `v` does not count |
| Versions.ComparePanicsIff | lingcli/fullmode.go:313-315 | of versions without the `v`, a comparison panics exactly when both begin with `0.0.0-` and fewer than fourteen characters follow in one of them |
| Versions.NumberReads | lingcli/fullmode.go:331-347 | a part counts as the number it begins with, after blanks and whatever follows it; as 0 when it begins with none or one above 2^63-1 |
| Versions.CompareBytes | lingcli/fullmode.go:316-322 | timestamps compare as byte strings |
| Versions.CompareIsAntisymmetric | lingcli/fullmode.go:306-357 | swapping negates the result, panics included; a version equals itself |
| Versions.CmpIsEqual | lingcli/fullmode.go:331-355 | the sign is decided at the first place where the numbers differ |
| Versions.PlainVersionsCompareByNumbers | lingcli/fullmode.go:325-356 | versions printed from any numbers compare as those numbers, missing ones being zero, and so those above 2^63-1 |
| Versions.PseudoVersionsCompareByTime | lingcli/fullmode.go:314-323 | pseudo-versions compare as their 14-digit timestamps read as numbers, whatever their hashes |
| Versions.SuffixCountsIffNumbered | lingcli/fullmode.go:333-338 | a pre-release or build suffix never lowers a version, and counts exactly when a part after one of its dots is a number but zero: coarser than section 11 of Semantic Versioning 2.0.0 |
| Versions.IsTotalPreorderIffNoClash | lingcli/fullmode.go:306-357 | the comparison is a total preorder on a set exactly when no pseudo-version in it is too short for a timestamp and no plain version lies by numbers between two pseudo-versions that the timestamps do not separate that way |
| Versions.CollectRequires | lingcli/fullmode.go:255-297 | the map keeps, per module, what the fold of its versions keeps; it panics exactly when some module's fold does |
| Versions.EqualDoesNotReplace | lingcli/fullmode.go:291-295 | a version that compares equal to the one kept does not replace it |
| Versions.SomeWalkPanicsIffShort | lingcli/fullmode.go:314-317 | some walk over the versions panics exactly when one of them is a pseudo-version too short for a timestamp |
| Versions.KeepsMaximumIffUntangled | lingcli/fullmode.go:291-295 | every walk order keeps a maximum exactly when no pseudo-version is too short and no plain version is tangled with two pseudo-versions |
| Versions.WalkOrderDoesNotMatter | lingcli/fullmode.go:291-295 | two walks over the same versions, however often each, keep versions that compare equal |
| Versions.OrderNeverMattersIffUntangled | lingcli/fullmode.go:291-295 | any two orders of one walk keep equal versions exactly when no pseudo-version is too short and no plain version is tangled with two pseudo-versions |
| Versions.PseudoCountsAsZero | lingcli/fullmode.go:325-347 | a pseudo-version without a further dot has the numbers 0, 0, 0 |
| Versions.UsualVersions | lingcli/fullmode.go:306-357 | with usual pseudo-versions the comparison is a total preorder exactly when no plain all-zero version stands beside two times; the fold keeps a maximum even then |
| Versions.ZeroBesideTwoTimesExample | lingcli/fullmode.go:306-357 | 0.0.0 with two pseudo-versions of different times is not in order |
| ModulePaths.BestMatch | lingcli/lingbase_versions.go:119-127 | in any map order: the longest known path that the import extends |
| ModulePaths.MatchesIff | lingcli/lingbase_versions.go:119-127 | an import extends a path that it equals or continues after a slash |
| ModulePaths.BestIsUnique | lingcli/lingbase_versions.go:119-127 | only one path can be the longest match, so the map order does not matter |
| DataSources.OpenAll | common/dbs_multi.go:91-133 | succeeds exactly when there are configurations, all named apart with a DSN and openable, and one can write; then readers, writers and names are filled in order |
| DataSources.DataSourceManager.Write | common/dbs_multi.go:137-143 | the writer of the next ticket |
| DataSources.DataSourceManager.Read | common/dbs_multi.go:148-157 | the reader of the next ticket, or a writer when there is none |
| DataSources.FromContext | common/dbs_multi.go:222-238 | a selected known name, without taking a ticket; else the next reader or writer by role, taking one where there are several; without a selection the fallback; nil exactly when there is neither |
| DataSources.SelectedIs | common/dbs_multi.go:222-238 | a configured name; else for the read role the reader of the ticket modulo 2^64 and the number of readers, or a writer when there are none; else the writer likewise |
| DataSources.DocumentedIffGiven | common/dbs_multi.go:218-238 | that is the documented choice exactly when the context selects or a fallback is given, and nil exactly when neither is |
| DataSources.UnknownNameSelectsWriter | common/dbs_multi.go:208-232 | pinning a name that is not configured selects a writer |
| DataSources.UnwrappedWindowIsBalanced | common/dbs_multi.go:148-157 | in any window of picks without a counter wrap the replicas' counts differ by at most one |
| DataSources.AlwaysBalancedIffDivides | common/dbs_multi.go:155-156 | windows stay balanced across counter wraps exactly when the number of replicas divides 2^64 |
| InitSql.SplitIsProper | common/dbs.go:139-157 | each kept line lands in exactly one statement, in file order; each statement is closed by its last line and by no earlier one |
| InitSql.SplitIsUnique | common/dbs.go:139-157 | no other split has that property |
| InitSql.ReadLine | common/dbs.go:140-152 | one line changes the string builder and closes a statement as the split says |
| InitSql.KeptIs | common/dbs.go:143-145 | blank lines are dropped, and lines that begin, after blanks, with `#` or `--`; no others |
| InitSql.ClosesIff | common/dbs.go:149 | a line ends its statement exactly when its last character that is not blank is `;` |
| InitSql.StatementIs | common/dbs.go:146-150 | a statement is its lines, each ended, without the blanks around them all |
| InitSql.RunLines | common/dbs.go:139-159 | the line loop executes the closed statements in order up to the first failure |
| InitSql.RunInitSQL | common/dbs.go:125-167 | executes the script's statements up to the first that fails, and reports that failure or the scanner's |
| InitSql.CleanRunExecutesEveryLine | common/dbs.go:139-166 | a run in which none of the script's statements fails executes one statement per group of the one proper split, then the rest |
| InitSql.StatementsEndInSemicolon | common/dbs.go:149-152 | every statement but possibly the last ends in `;` |
| InitSql.FailingRunExecutesPrefix | common/dbs.go:153-164 | if any statement is to fail, exactly the statements up to the first such were executed and the run failed; otherwise all were, and only the scanner can have failed |
| DoomFont.LoadDoomFont | bootstrap/font_embed.go:49-90 | the line loop with its flushes reads the font of the parser function |
| DoomFont.MarkedLineReads | bootstrap/font_embed.go:66-83 | a line with `#` does nothing; a header ends the open glyph and opens that of the character it names by itself or as `space` or `dash`, or none |
| DoomFont.OtherLineReads | bootstrap/font_embed.go:85-87 | any other line joins the open glyph, or is ignored when there is none |
| DoomFont.TextArrives | bootstrap/font_embed.go:55-56 | the scanner delivers the printed lines without one carriage return at their ends |
| DoomFont.PrintedFontReads | bootstrap/font_embed.go:55-89 | a font printed as a text reads back, the later of two glyphs for one character counting, when its glyphs are printable |
| DoomFont.LoadedIsReadable | bootstrap/font_embed.go:55-89 | whatever the lines are, no cached glyph has a line that reads as a comment or a header, or a trailing newline |
| DoomFont.FontSurvivesIffPrintable | bootstrap/font_embed.go:55-89 | a font printed in any order and read back is the same exactly when no glyph has a comment line, a header line, a line that ends in a carriage return, or a trailing newline |
| Banner.SplitArt | bootstrap/banner.go:100-108 | trailing blank lines are dropped and the width is that of the longest line left |
| Banner.DrawChar | bootstrap/banner.go:98-130 | every row grows in place by the character's cell |
| Banner.GenerateBanner | bootstrap/banner.go:93-133 | the banner is the eight drawn rows, joined and stripped |
| Banner.GlyphIsDrawn | bootstrap/banner.go:100-119 | each row of a glyph shows its line followed by spaces only; dropped lines and missing rows are spaces; a character without a glyph is two columns, spaces or `? ` |
| Banner.RowsAreLevel | bootstrap/banner.go:110-129 | for any font and text all rows have one length after every character |
| Banner.RowsAppend | bootstrap/banner.go:98-130 | the banner of a joined text is the banners side by side |
| Banner.CellStandsInColumn | bootstrap/banner.go:98-130 | each character's cells stand in one column of every row |
| Banner.BannerSplitsIffWide | bootstrap/banner.go:131-132 | the result splits back into its rows, eight of them, exactly when the text has any width |
| Banner.NoWidthIffBlankGlyph | bootstrap/banner.go:101-108 | a character takes no room exactly when its glyph has blank lines only |

## Left out

- JSON encoding and decoding, HTTP, provider adaptors and request retries: events and chunks arrive decoded, and the decoder and the adaptor's writes are parameters.
- AnthropicStream.Parse: events are already decoded, with their deltas optional; the two fields of relay/anthropic_stream.go:73 and :81 share one JSON name, so nothing is said about raw JSON. The `data:` framing of relay/anthropic_stream.go:34-46 is part of the decoding.
- RichClient.RichChatStream: opening a stream is a parameter, per attempt and model; a context that is cancelled later shows only as the provider's error.
- Fallback.TryModels: the request hook and the logging around the attempts are not modelled.
- `richToClaudeRequest` and `richBlocksToClaudeContent` copy each field into an untyped JSON tree: no state, no branching across fields.
- LifecycleRun.RunRefinesLifecycle: in the interleaved model every place has its own component object; `Lifecycle` also allows one object under several names.
- Application.NextKeepsInv: a component's running flag changes only when it is asked to start or stop; components that go down by themselves in between are not modelled. The set of components is fixed during Run, the banner and published events are dropped, and migrations and init hooks are one phase that fails or succeeds.
- Lifecycle.LifecycleManager.Start: components answer as given; they return, and do not call back into the manager, whose lock is held.
- ShutdownManager.Manager.Shutdown: the timeout context handed to hooks is not modelled; hooks return.
- Signals.Signals.EmitEvent: handlers are scripts of bus calls and return; calls from other goroutines meanwhile are not interleaved into one emit. `Query` is an emit.
- Registry.Registry.Register: types are tokens with a pointer-to relation; slices are values, so sharing of their backing arrays is not modelled.
- EnvLookup.EnvCache.LookupEnv: one clock value per call; upper and lower case for ASCII letters only; which entries are evicted after a write is arbitrary, which covers the LRU policy; finding and reading the file is a parameter.
- ScanPool.PoolSafety: `checkPath` is an arbitrary function; cancellation may happen at any step.
- Versions.CollectRequires: requirement lines arrive split into path and version; finding and filtering them is left out. Characters stand for bytes.
- DataSources.OpenAll: opening a connection is a parameter; closing and pinging visit every connection once and are left out.
- InitSql.RunInitSQL: which statements fail is a parameter; the scanner's line limit appears only as its error.
- DoomFont.LoadDoomFont: characters stand for bytes; the embedded file, the once guard and the scanner's limit on the length of a line are left out.
- Banner.GenerateBanner: text is ASCII; the remote banner service is left out.
- Profiles, properties, MustRegister and the other one-line accessors return a field or call one modelled function.
- The loop that sorts command-line arguments into flags and positions, and the copying and rewriting of template files, which is I/O and text replacement.
- The other scanners' pools repeat the one modelled; detectors and payload tables are left out.
