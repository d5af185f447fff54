# Verified models of pi's streaming, agent and catalog cores

The modules here model the parts of the repository whose behaviour is hardest to see from one function: state
machines that interleave with callers, timers and the network, transformations that must keep a meaning, and fast
forms of simple definitions. Each is stated against something independent of its own code: a declarative definition,
a plain reference, a stream kept for specification only, or a grammar of whole traces.

| module | what it models |
|---|---|
| `Utf8`, `Bound`, `Output` | `boundOutput` and `OutputBuffer`: a running window over an unbounded stream shows what the window over the whole stream shows |
| `Progress` | commits paced by the bytes they wrote, and the waiters that ride on them |
| `Delta`, `Pending`, `Watch`, `NativeQueue` | JSON operations, their folding while a listener is slow, and one-call-at-a-time delivery with failures, endings and overflow |
| `ToolState`, `AgentTrace`, `AgentHost`, `AgentLoop`, `AgentReport`, `AgentRun` | tool declarations in a transcript, tool batches in sequence and in parallel, and the event trace of whole agent runs compared with what their host logged |
| `ModelRefresh`, `CatalogBuild` | the generation-checked publication protocol of provider refreshes, and the memoised depth-first catalog build |
| `SchemaRefs`, `JsonGraph` | replacing sub-schemas by references that expand back, and copying and checking possibly cyclic object graphs |
| `Framer`, `AsrSession`, `Segmenter` | the audio path: frames, the session's events, samples and `finish()`, and utterances with pre-roll |
| `Crc`, `Png` | CRC-32 by table and by bit, what it detects, and the chunk and row layout of PNG files |
| `Declarations` | rendering schemas with recursive references as types, within an expansion budget |
| `Proxy`, `Versions` | rebuilding a streamed message from lines and deltas, and version precedence with the catalog selection on it |

Every `await` of the source is a boundary between two steps, and everything between two awaits is one method. A class
has one method for each step; any order of calls that meets the preconditions is a run, so what `Valid()` and
`Onward()` say holds in every run under every interleaving. What the network, a timer, a hook, a detector or a caller
answers is a parameter or an arbitrary value. What an agent run asks for is answered by `AgentHost.Host`, whose own methods log each
answer; the contracts of a run compare its trace with that log. `hide` statements only keep definitions out of proofs that do not need them.

## Model

| member | source | states |
|---|---|---|
| Utf8.DecodeEncode | packages/chord/src/output.ts:105-116 | strict decoding undoes encoding, so kept bytes that start and end between characters are text again (section 3 of RFC 3629) |
| Utf8.BoundarySplitsText | packages/chord/src/output.ts:105-116 | every byte position that is no continuation byte lies between two characters of the text |
| Utf8.NewlinesEncoded | packages/chord/src/output.ts:118-123 | newline bytes of the encoding are the newlines of the text, and both end with one or neither does |
| Utf8.BoundaryAfterNewline | packages/chord/src/output.ts:64-102 | cutting after a newline splits no character |
| Bound.BoundOutput | packages/chord/src/output.ts:52-62 | what is kept is an exact prefix or suffix of the text and the window within the limits: the longest run of whole lines that fits, or a cut of one line between characters, with dropped bytes and lines that add up to the totals |
| Bound.BoundedUnique | packages/chord/src/output.ts:52-62 | a text has one bounded output only, so the description leaves nothing open |
| Bound.BoundedFits | packages/chord/src/output.ts:52-62 | what is kept is within the byte and the line limit |
| Bound.HeadRange | packages/chord/src/output.ts:64-79 | finds the end of the head window as the declarative window defines it |
| Bound.TailRange | packages/chord/src/output.ts:81-102 | finds the start of the tail window as the declarative window defines it |
| Bound.LineLimitEnd | packages/chord/src/output.ts:68-73 | the end after `maxLines` lines is the furthest line end with no more lines before it |
| Bound.LineLimitStart | packages/chord/src/output.ts:85-92 | the start of the last `maxLines` lines is the earliest line start with no more lines after it, a trailing newline starting none |
| Bound.CharacterEnd | packages/chord/src/output.ts:105-109 | the last character boundary at or before an index |
| Bound.CharacterStart | packages/chord/src/output.ts:112-116 | the first character boundary at or after an index |
| Bound.LineCount | packages/chord/src/output.ts:118-123 | newlines, and one more for an unterminated last line |
| Bound.TailOfSuffix | packages/chord/src/output.ts:246-264 | a suffix longer than the window by one byte or one newline has the same tail window as any text it ends |
| Bound.HeadOfPrefix | packages/chord/src/output.ts:192-220 | a prefix that fills the head window has the same head window as any text it begins |
| Bound.WholeTailInSuffix | packages/chord/src/output.ts:246-264 | whole lines that fit lie strictly inside such a suffix |
| Bound.TailMargin | packages/chord/src/output.ts:250-264 | the shortest suffix of whole characters that is longer than the window, or all of the text |
| Bound.MarginLineStart | packages/chord/src/output.ts:253-261 | the start of the newline before the last `maxLines` ones, and no later position has more newlines after it |
| Output.OutputBuffer.Push | packages/chord/src/output.ts:161-174 | the stream grows by what was pending, omitted and pushed, in that order; a skip with a head window is refused, and then nothing stored or counted changes; memory stays lean |
| Output.OutputBuffer.CountSkip | packages/chord/src/output.ts:177-185 | omitted output is counted in the totals and nothing stored before it remains |
| Output.OutputBuffer.End | packages/chord/src/output.ts:188-190 | an incomplete last character is part of the stream once the stream ends |
| Output.OutputBuffer.Accept | packages/chord/src/output.ts:192-220 | the stream grows by exactly the text, and what is stored is at most a window, its margin and one chunk |
| Output.OutputBuffer.DropLeading | packages/chord/src/output.ts:208-218 | leading chunks are dropped until a window, its margin and one chunk remain at most, and never so far that the window changes |
| Output.OutputBuffer.Snapshot | packages/chord/src/output.ts:223-244 | after any pushes, skips and snapshots it shows the sanitized text of `boundOutput` on the whole stream, with dropped bytes and lines exact against the whole stream |
| Output.TailOfStream | packages/chord/src/output.ts:223-244 | bounding what is stored of a tail is bounding the whole stream |
| Output.HeadOfStream | packages/chord/src/output.ts:223-244 | bounding what is stored of a head is bounding the whole stream |
| Output.CoversMore | packages/chord/src/output.ts:192-220 | what is stored stays sufficient when text is appended to it and to the stream |
| Output.CoversLess | packages/chord/src/output.ts:208-218 | and when its start is dropped while more than a window remains |
| Output.CoversAfterGap | packages/chord/src/output.ts:177-185 | after a skip, a chunk larger than the window is sufficient by itself |
| Output.CoversMargin | packages/chord/src/output.ts:229-237 | what a snapshot keeps of a tail stays sufficient for every later snapshot |
| Progress.Progress.Mark | packages/chord/src/output.ts:353-356 | a change starts a commit at once if it may, and is remembered otherwise |
| Progress.Progress.MarkAndWait | packages/chord/src/output.ts:359-364 | the new waiter rides on a commit that started after its change, or waits for one |
| Progress.Progress.Schedule | packages/chord/src/output.ts:375-385 | a commit starts now, a timer is set, or nothing changes, by timer, write in flight, stop and pace |
| Progress.Progress.Commit | packages/chord/src/output.ts:388-392 | a commit takes every waiter along and starts only when none is in flight and the pace allows it |
| Progress.Progress.TimerFires | packages/chord/src/output.ts:381-384 | a timer that fires early or late starts a commit only when the clock allows it |
| Progress.Progress.WriteSucceeds | packages/chord/src/output.ts:394-397 | the waiters of the commit are resolved by it, and it is charged for its bytes |
| Progress.Progress.WriteFails | packages/chord/src/output.ts:398-402 | the waiters of the commit are rejected by it |
| Progress.Progress.WriteFinally | packages/chord/src/output.ts:404-407 | changes made meanwhile start the next commit or a timer; none is forgotten |
| Progress.Progress.Stop | packages/chord/src/output.ts:367-371 | nothing starts any more |
| Progress.Progress.StopReturns | packages/chord/src/output.ts:371-373 | exactly the waiters that no commit took are handed back, so every waiter is settled once or handed back |
| Progress.RateBound | packages/chord/src/output.ts:305-327 | the bytes of all commits but the newest fit 100 KiB/s over the time between the first start and the last |
| Progress.RateBoundInBytes | packages/chord/src/output.ts:305-327 | the same in numbers: 102400 bytes a second |
| Progress.KeepsDistance | packages/chord/src/output.ts:375-392 | each commit is over when the next one starts, and holds it back for the minimum interval and for what it wrote |
| Delta.LeafCommutes | packages/chord/src/delta/pending.ts:107-155 | a write of a primitive or an append may move before one at another path, wherever both apply |
| Delta.MergeMeans | packages/chord/src/delta/pending.ts:167-173 | a merged leaf write does what the two did, wherever both apply |
| Delta.MergesIff | packages/chord/src/delta/pending.ts:167-173 | two leaf writes at one path fold exactly if some value admits both |
| Delta.EndsPersists | packages/chord/src/delta/pending.ts:107-155 | leaf writes elsewhere never turn the way to a leaf into something else |
| Delta.RunConcat | packages/chord/src/delta/index.ts:340-420 | applying two batches is applying one after the other, failures included |
| Delta.EditsOnly | packages/chord/src/delta/index.ts:383-419 | a write changes nothing at any path that does not lead through its own or under it, unless a removed item lets those after it move up |
| Delta.EditsSlot | packages/chord/src/delta/index.ts:383-419 | a write is one of the slot in its container, wherever that is, and fails exactly if there is none or the slot cannot be written |
| Delta.SlotReads | packages/chord/src/delta/index.ts:383-418 | what a slot holds after a write, and exactly when it can be written |
| Delta.ArrayEdited | packages/chord/src/delta/index.ts:364-380 | a splice or a permutation changes the array at its path and nothing apart from it, and fails exactly if there is no array there or the permutation does not fit |
| Delta.SpliceReads | packages/chord/src/delta/index.ts:364-373 | items before and after the removed ones stay, and the new ones are between them |
| Delta.PermuteReads | packages/chord/src/delta/index.ts:374-380 | item `i` of a permuted array is the one its permutation names |
| Pending.PendingOps.Push | packages/chord/src/delta/pending.ts:55-91 | what is kept still means everything received, or the queue has overflowed; a batch alone, or one that starts with a replacement, is kept as received and ends an overflow; nothing else does |
| Pending.PendingOps.Take | packages/chord/src/delta/pending.ts:93-106 | what is handed over is what waited and replays to the same value as everything received, or is `Replaced` exactly after overflow |
| Pending.PendingOps.Fold | packages/chord/src/delta/pending.ts:108-140 | folding keeps the meaning of pending operations, and overflows exactly if more than 10,000 operations wait at some time, each of which is folded wherever it can be |
| Pending.FollowedMerges | packages/chord/src/delta/pending.ts:142-155 | with only writes of other leaves between them, two writes of one leaf become one exactly if some value admits both, and otherwise both wait |
| Pending.FollowedWaits | packages/chord/src/delta/pending.ts:108-132 | a replacement drops everything, and an operation without an earlier write of its leaf, or with a structural one in between, waits at the end |
| Pending.MergeKeepsMeaning | packages/chord/src/delta/pending.ts:142-155 | replacing an older leaf write by its merge with the newest one changes no result |
| Pending.MeansReplaced | packages/chord/src/delta/pending.ts:111-114 | a root replacement makes everything before it irrelevant |
| Watch.WatchQueue.Advance | packages/chord/src/watch.ts:308-324 | the source's frame is what the listener will end at; a retirement is remembered |
| Watch.WatchQueue.Fail | packages/chord/src/watch.ts:334-343 | pending frames are dropped, the failure waits, and no retirement is lost |
| Watch.WatchQueue.Next | packages/chord/src/watch.ts:349-366 | the delivered operations turn what the consumer held into the delivered value; retirement is reported exactly if there was one; the first value after a failure is a root replacement |
| Watch.WatchQueue.NextAfterFailure | packages/chord/src/watch.ts:369-382 | the failure, or the value after it as a replacement |
| Watch.WatchQueue.Release | packages/chord/src/watch.ts:384-392 | nothing stays pending once the watch ended |
| Watch.Watch.Start | packages/chord/src/watch.ts:140-146 | a listener is installed once and never on an ended watch, and its first delivery is scheduled |
| Watch.Watch.Advance | packages/chord/src/watch.ts:308-324 | an open watch takes the frame and is woken; an ended or ending one takes nothing |
| Watch.Watch.Fail | packages/chord/src/watch.ts:330-343 | an open watch takes the failure and is woken |
| Watch.Watch.EndAfterDelivery | packages/chord/src/watch.ts:176-186 | the watch takes nothing more and ends at once exactly if nothing is pending and no call runs |
| Watch.Watch.Microtask | packages/chord/src/watch.ts:207-222 | a listener call starts exactly if one is installed, none runs, the watch has not ended and something is pending; it continues what the consumer held; an ending watch with nothing pending ends |
| Watch.Watch.Drain | packages/chord/src/watch.ts:220-247 | the call delivers what is pending, one at a time and none after the end, and an ending watch ends exactly when everything was delivered |
| Watch.Watch.ListenerReturns | packages/chord/src/watch.ts:224-235 | what arrived while the call ran is delivered next, at once; without it no call runs any more, and an ending watch ends |
| Watch.Watch.ListenerThrows | packages/chord/src/watch.ts:236-246 | the watch ends with the listener's error unless it ended before |
| Watch.Watch.Terminate | packages/chord/src/watch.ts:253-266 | the watch detaches and settles `closed` once, with its first end |
| Watch.ConsumeMore | packages/chord/src/watch.ts:349-382 | a consumer that applies each call's operations holds the value of the last value call |
| NativeQueue.NativeQueue.Advance | packages/chord/src/watch.ts:426-442 | the plain queue of at most 100 values grows by one or collapses to one; the array stays under 400 slots |
| NativeQueue.NativeQueue.Fail | packages/chord/src/watch.ts:444-451 | pending values are dropped and the failure waits alone |
| NativeQueue.NativeQueue.Next | packages/chord/src/watch.ts:458-483 | the failure, or the first value of the plain queue, is taken |
| NativeQueue.NativeQueue.DropFirst | packages/chord/src/watch.ts:467-482 | moving the read index, dropping the taken prefix or emptying the array all take one value of the plain queue |
| NativeQueue.NativeQueue.PendingContext | packages/chord/src/watch.ts:453-456 | the context of the next call, none exactly when nothing is pending |
| NativeQueue.NativeQueue.Release | packages/chord/src/watch.ts:485-491 | nothing stays pending once the watch ended |
| ToolState.DeclareToolChanges | packages/agent/src/agent-loop.ts:342-375 | computes the declared messages its lemmas are about |
| ToolState.DeclaredReplaysIff | packages/agent/src/agent-loop.ts:342-375 | replaying the transcript gives exactly the tools if and only if no two tools of one name differ |
| ToolState.DeclaredCarries | packages/agent/src/agent-loop.ts:342-375 | no pending message is lost or changed but for the tool fields of the last system message; without one, a system message without text that declares something may be put before them |
| ToolState.DeclaredKeeps | packages/agent/src/agent-loop.ts:342-375 | other messages keep their order; at most one message is added, and only without a pending system message |
| ToolState.DeclaredTwice | packages/agent/src/agent-loop.ts:342-375 | declaring is idempotent |
| ToolState.DeclaredSettles | packages/agent/src/agent-loop.ts:342-375 | once the declared messages are in the transcript nothing is left to declare |
| ToolState.ChangesLead | packages/ai/src/utils/transcript.ts:150-168 | applying the changes between two tool states to the first gives the second |
| ToolState.ReplaySystem | packages/ai/src/utils/transcript.ts:58-66 | after what precedes it, only the last system message's changes count |
| AgentTrace.Agent.Emit | packages/agent/src/agent.ts:575-613 | the state's messages are its old ones and those the trace ended, the pending calls those that run, the streaming message the one the trace shows, and the error state the one the trace shows |
| AgentTrace.Agent.Say | packages/agent/src/agent.ts:575-613 | a complete message becomes part of the state and leaves nothing streaming |
| AgentHost.Host.PrepareToolCall | packages/agent/src/agent-loop.ts:718-787 | a call is to run exactly if it is valid, no hook blocks it and the run is not aborted; otherwise an error outcome is logged, which asks for the end only if the hook that blocked it does |
| AgentHost.CountRans | packages/agent/src/agent-loop.ts:596-670 | the outcomes logged after an answer are those of its request, in the order they came |
| AgentHost.RequestReads | packages/agent/src/agent-loop.ts:272-326 | what the tally says of a request is what lies in the log between it and the next one: its outcomes, what was queued, and the decision of the hook |
| AgentHost.QuestionsRead | packages/agent/src/agent-loop.ts:190-326 | after a request, in this order: its tools, the hook at its end, steering unless the turn ended the run; follow-ups exactly if nothing asks for another turn yet; and only if something does, the hook before the next turn, steering again exactly if nothing was queued, and the update of the next request |
| AgentLoop.RunOneCall | packages/agent/src/agent-loop.ts:551-584 | a call starts, ends once and is answered after its end |
| AgentLoop.ExecuteSequential | packages/agent/src/agent-loop.ts:540-594 | every started call ends exactly once and is answered before the next one starts; results come in the order of the calls, all of them unless aborted; they are those of the logged outcomes, and the batch terminates exactly if there are some and every one of them asks for it |
| AgentLoop.ExecuteParallel | packages/agent/src/agent-loop.ts:596-670 | the same but for the order of the ends, for every order in which the calls end, which is the order of the log |
| AgentLoop.ReorderedTerminates | packages/agent/src/agent-loop.ts:700-702 | whether a batch terminates does not depend on the order in which its calls ended |
| AgentLoop.StartCall | packages/agent/src/agent-loop.ts:606-654 | what started has ended or is outstanding, and the agent knows no other running call |
| AgentLoop.FinishCall | packages/agent/src/agent-loop.ts:629-658 | whichever outstanding call ends next, it ends once |
| AgentLoop.AnswerAll | packages/agent/src/agent-loop.ts:656-669 | results are announced in the order of the calls, whatever order they ended in |
| AgentLoop.BatchGrows | packages/agent/src/agent-loop.ts:551-590 | one more answered call keeps the form of a batch |
| AgentRun.FailTruncated | packages/agent/src/agent-loop.ts:488-513 | every call of a truncated message is answered with an error, in order |
| AgentRun.RunTools | packages/agent/src/agent-loop.ts:272-534 | the tool events form a batch of the answer's calls with the logged outcomes, one call at a time if the host or one of the tools wants it; a truncated message never ends the run by its tools, others exactly if there are logged outcomes and every one of them asks for it |
| AgentRun.StreamAssistant | packages/agent/src/agent-loop.ts:390-479 | the answer is announced once, streamed or not, as the stream showed it; the context ends with it, and one request with exactly this context is logged |
| AgentRun.BeginTurn | packages/agent/src/agent-loop.ts:190-255 | what the host handed over since the last request is announced, system messages included, all of it and in that order, with at most the tool fields of one system message rewritten or one added; and the transcript of the next request declares the tools of its context unless a hook replaced it |
| AgentRun.AnswerTurn | packages/agent/src/agent-loop.ts:257-308 | the trace gains one turn, which is the logged request with its answer, its batch and its results; that is all the next context gains; the run stops on an error, an abort or the hook's decision only |
| AgentRun.RunTurn | packages/agent/src/agent-loop.ts:190-308 | the log gains one request and the trace one turn, and what the turn asks for next is what the log says |
| AgentRun.PollSteering | packages/agent/src/agent-loop.ts:185-185 | the messages of the queue wait for the next request, and the turn before is followed because of them |
| AgentRun.PollFollowUps | packages/agent/src/agent-loop.ts:312-319 | follow-ups are asked for only when the last turn neither stopped the run nor asks for more and the steering queue was empty; otherwise the log is out of order, which the report of a run excludes |
| AgentRun.RunLoop | packages/agent/src/agent-loop.ts:172-330 | in every run, finished or cut off: the i-th turn of the trace is the i-th request of the log, with the context the turns before it lead to; what the host handed over is announced in it exactly once, all of it and in order; its tool batch has the logged outcomes; another turn follows exactly when these, the queues or the hook ask for one; steering is polled again during a preparation exactly if nothing was queued, follow-ups are taken only when a turn rests, and nothing else is asked out of order; a finished run left nothing handed over behind; and it is cut off only after `fuel` requests |
| AgentRun.RunAgentLoop | packages/agent/src/agent-loop.ts:111-135 | the same from the prompts on, which are the first request's first messages; `agent_end` last and once, and the agent's messages are its old ones followed by the returned ones |
| AgentReport.TurnEnded | packages/agent/src/agent-loop.ts:240-308 | a begun turn and the events of its answer, batch and end make the trace match the log with one request more |
| AgentReport.BeginsFirst | packages/agent/src/agent-loop.ts:184-234 | the first request is made with the prompts and what was queued by then |
| AgentReport.BeginsNext | packages/agent/src/agent-loop.ts:190-234 | a later request is made with what the hook prepared and what was queued before or during that |
| AgentReport.TurnParts | packages/agent/src/agent-loop.ts:219-293 | a turn of a trace is read back into its inputs, its answer and its results |
| AgentReport.TurnFollows | packages/agent/src/agent-loop.ts:240-326 | in every run a turn is followed exactly if it neither failed nor was aborted nor was ended by the hook, and the hook wants to go on, something is queued, or it has calls and was truncated, has no logged outcome, or has one that does not ask to end |
| AgentRun.TurnFollowed | packages/agent/src/agent-loop.ts:295-326 | a run goes on after a turn exactly as the turn asks, or else as the steering queue does |
| AgentRun.RestFollowed | packages/agent/src/agent-loop.ts:311-326 | a turn that rests is followed exactly because of follow-ups or of its own continuation |
| AgentRun.RunAgentLoopContinue | packages/agent/src/agent-loop.ts:137-160 | the same without prompts; refused exactly without messages or after an assistant message |
| ModelRefresh.ModelsImpl.Supersede | packages/ai/src/models.ts:498-507 | a new generation aborts exactly the refreshes of the provider that run |
| ModelRefresh.ModelsImpl.SetProvider | packages/ai/src/models.ts:417-420 | replacing a provider supersedes its refresh |
| ModelRefresh.ModelsImpl.DeleteProvider | packages/ai/src/models.ts:422-425 | removing a provider supersedes its refresh |
| ModelRefresh.ModelsImpl.BeginRefresh | packages/ai/src/models.ts:509-514 | the new refresh is the only unaborted one of its provider that runs |
| ModelRefresh.ModelsImpl.FinishRefresh | packages/ai/src/models.ts:598-614 | a refresh lets its controller go, but not that of a newer one |
| ModelRefresh.ModelsImpl.Publish | packages/ai/src/models.ts:516-524 | a publication joins the end of its provider's chain |
| ModelRefresh.ModelsImpl.Resume | packages/ai/src/models.ts:524-531 | a live publication starts its store operation, or is published at once if it keeps the store; one that is not live is dropped; no other of the provider is in flight |
| ModelRefresh.ModelsImpl.StoreTakesEffect | packages/ai/src/models.ts:527-531 | an older generation never replaces the store entry of a newer one |
| ModelRefresh.ModelsImpl.StoreReturns | packages/ai/src/models.ts:533-535 | memory is updated exactly if the operation succeeded and the publication is still live, and then the store holds what was published |
| ModelRefresh.ModelsImpl.ForgetTail | packages/ai/src/models.ts:537-541 | the chain is forgotten exactly if no publication follows, and no order is lost by it |
| ModelRefresh.PublicationRuns | packages/ai/src/models.ts:524-541 | in every run, under every interleaving, a publication that is live when its turn comes and when its successful store operation returns is in the store and then in memory |
| ModelRefresh.SettledBefore | packages/ai/src/models.ts:522-524 | once its predecessor settled, all earlier publications of a provider have |
| ModelRefresh.OthersRest | packages/ai/src/models.ts:516-543 | publications of one provider never overlap |
| ModelRefresh.Joins | packages/ai/src/models.ts:522-541 | queueing behind the chain's tail keeps publications serial |
| ModelRefresh.NextGeneration | packages/ai/src/models.ts:498-507 | superseding keeps at most one unaborted controller a provider and all orders |
| ModelRefresh.Takes | packages/ai/src/models.ts:524-535 | what is written is of the newest generation that wrote |
| CatalogBuild.CatalogBuilder.BuildModels | packages/ai/catalog/build.ts:108-125 | terminates on every dependency graph; the result is the provider's value, its failure or a cycle it leads into; no hook is called twice |
| CatalogBuild.CatalogBuilder.CallHook | packages/ai/catalog/build.ts:115-116 | the hook gets the models it asks for, built when needed, and is called for the first time |
| CatalogBuild.CatalogBuilder.BuildAll | packages/ai/catalog/build.ts:127-127 | succeeds exactly if every provider has models; then the table holds exactly them, and every hook was called once |
| CatalogBuild.TableUnique | packages/ai/catalog/build.ts:108-127 | the table does not depend on the order of the definitions |
| CatalogBuild.ValueUnique | packages/ai/catalog/build.ts:108-125 | a provider's models do not depend on when they are built |
| CatalogBuild.EvalDeeper | packages/ai/catalog/build.ts:108-125 | a value found at one depth is the value at any greater depth |
| CatalogBuild.CycleDeep | packages/ai/catalog/build.ts:113-113 | nothing on the way into a cycle has models |
| CatalogBuild.NotDecided | packages/ai/catalog/build.ts:111-122 | a provider whose build fails has no models at any depth |
| CatalogBuild.Deduplicate | packages/ai/catalog/build.ts:130-137 | computes the models its lemmas are about |
| CatalogBuild.FirstWinsKeeps | packages/ai/catalog/build.ts:130-137 | every id is kept, and once |
| CatalogBuild.FirstWinsIsFirst | packages/ai/catalog/build.ts:130-137 | what is kept of an id is the first model that has it |
| CatalogBuild.FirstWinsGrows | packages/ai/catalog/build.ts:130-137 | they keep their order: what is kept of a list is the start of what is kept of a longer one |
| SchemaRefs.SplitAnnotations | packages/coding-agent/scripts/generate-schemas.ts:71-82 | splits an object into the shape and the annotations that `CanonSplit` puts together again |
| SchemaRefs.CanonSplit | packages/coding-agent/scripts/generate-schemas.ts:71-82 | shape and annotations together are the whole object |
| SchemaRefs.SplitOne | packages/coding-agent/scripts/generate-schemas.ts:60-82 | exactly the entries of seven keys are annotations |
| SchemaRefs.SplitConcat | packages/coding-agent/scripts/generate-schemas.ts:71-82 | shape and annotations keep the order of the entries |
| SchemaRefs.AddDefinitions | packages/coding-agent/scripts/generate-schemas.ts:84-127 | rejects exactly the first invalid name and unused definitions, and otherwise writes the compact schema with its `$defs` |
| SchemaRefs.ExpandsBack | packages/coding-agent/scripts/generate-schemas.ts:94-112 | unless an object of the schema has the shape of two definitions, expanding the replaced schema terminates and gives back the schema, per-use annotations included |
| SchemaRefs.DocumentMeansIff | packages/coding-agent/scripts/generate-schemas.ts:84-127 | a reader of the whole document can expand it if and only if no object of the schema has the shape of two definitions, and then gets the original schema |
| SchemaRefs.TwinsNeverMean | packages/coding-agent/scripts/generate-schemas.ts:94-120 | whatever an object is nested in, one with the shape of two definitions is never expanded |
| SchemaRefs.TwinsAccepted | packages/coding-agent/scripts/generate-schemas.ts:84-127 | two definitions of one shape are accepted together with a schema of that shape, and the document never expands |
| SchemaRefs.DefinitionsExpandIff | packages/coding-agent/scripts/generate-schemas.ts:84-127 | every definition can be expanded if and only if no two have the same shape |
| SchemaRefs.TwinsNeverExpand | packages/coding-agent/scripts/generate-schemas.ts:94-120 | definitions of equal shape refer to each other for ever |
| SchemaRefs.UsedMentioned | packages/coding-agent/scripts/generate-schemas.ts:91-125 | the definitions counted as used are those the compact schema refers to |
| JsonGraph.CopyJson | packages/chord/src/json.ts:30-87 | succeeds exactly on graphs that stand for a JSON tree; the copy stands for that tree, is made of new nodes only and shares none of them, and the graph stays as it was |
| JsonGraph.TreeAliasFree | packages/chord/src/json.ts:30-33 | in a copied tree no two places hold one object, and a node holds only later ones |
| JsonGraph.TreeRepresents | packages/chord/src/json.ts:35-80 | a copied tree is strict JSON and stands for what was copied |
| JsonGraph.IsJsonValue | packages/chord/src/json.ts:89-135 | holds exactly for the graphs that stand for a JSON tree, so exactly where copying without options succeeds |
| JsonGraph.JsonCopier.Copy | packages/chord/src/json.ts:35-80 | terminates on cyclic graphs, allocates exactly the nodes of the tree, changes nothing that was there, and restores the ancestor set on every return |
| JsonGraph.JsonChecker.Check | packages/chord/src/json.ts:93-135 | terminates on cyclic graphs, and the ancestor set is restored on every return |
| JsonGraph.RepresentsUnique | packages/chord/src/json.ts:35-80 | a graph stands for one tree at most |
| JsonGraph.HasTreeIff | packages/chord/src/json.ts:35-80 | a graph stands for a JSON tree, and so is copied or accepted, if and only if every node it leads to is strict and no way through it passes an object twice |
| JsonGraph.CycleHasNoTree | packages/chord/src/json.ts:43-46 | an object that is its own descendant stands for no tree |
| JsonGraph.DenseHasNoSymbol | packages/chord/src/json.ts:96-101 | the symbol test that only the checker makes on arrays accepts and refuses nothing by itself |
| JsonGraph.ChildBelow | packages/chord/src/json.ts:43-79 | no descendant of an object with a tree is one of its ancestors |
| Framer.AudioFramer.Push | packages/asr/src/framer.ts:77-91 | the sink got exactly the full frames of all samples pushed so far, however they were chunked; after `finish` it is refused |
| Framer.AudioFramer.Finish | packages/asr/src/framer.ts:93-124 | the sink got exactly the frames of the whole stream with padding and tail: so many for each wire, counted from the samples and the tail alone; and nothing on a second call |
| Framer.AllFramesAre | packages/asr/src/framer.ts:93-124 | frame `i` holds the samples from `i` frame lengths on, with silence after the last sample, and there are as many as the samples, the tail and the wire ask for |
| Framer.AudioFramer.Emit | packages/asr/src/framer.ts:134-145 | states are sent on the protobuf wire only: first, then middle unless forced |
| Framer.FullMore | packages/asr/src/framer.ts:77-91 | filling the pending frame is splitting the longer stream |
| Framer.FullAndRest | packages/asr/src/framer.ts:77-91 | the full frames and the rest are the pushed samples |
| Framer.FramesAreStream | packages/asr/src/framer.ts:93-124 | the frames joined are the pushed samples followed by silence, exactly as much as these frames leave |
| Framer.StatesGrammar | packages/asr/src/framer.ts:98-124 | on the protobuf wire: first, middle, ..., last, with at least two frames |
| AsrSession.EventQueue.Push | packages/asr/src/session.ts:131-136 | the event answers the longest waiting call or waits itself, so call `i` gets event `i` in every interleaving |
| AsrSession.EventQueue.End | packages/asr/src/session.ts:138-142 | every call without an event is told of the end |
| AsrSession.EventQueue.Next | packages/asr/src/session.ts:144-155 | the call is answered with its event, with the end, or later |
| AsrSession.AsrSession.Connect | packages/asr/src/session.ts:246-263 | a second call is refused and changes nothing |
| AsrSession.AsrSession.TransportConnects | packages/asr/src/session.ts:276-302 | the handshake begins with one round or two, by wire, or the start fails |
| AsrSession.AsrSession.ConnectResumes | packages/asr/src/session.ts:294-312 | streaming starts exactly after the last good answer; `open` comes first, then what was deferred, and the framer gets the whole pre-roll |
| AsrSession.AsrSession.FailStart | packages/asr/src/session.ts:828-844 | a failed start publishes what was deferred, then an error unless one was reported, then `closed`, and ends the event stream |
| AsrSession.AsrSession.Push | packages/asr/src/session.ts:324-350 | samples are dropped exactly after the end, kept before streaming and handed to the framer while streaming |
| AsrSession.AsrSession.Keep | packages/asr/src/session.ts:339-347 | the pre-roll is the longest run of whole latest chunks within the budget |
| AsrSession.LatestUnique | packages/asr/src/session.ts:342-346 | there is one such run |
| AsrSession.StreamedBlockIff | packages/asr/src/session.ts:324-350 | in every session that streams, however often it was closed and went on before: the framer got one contiguous block if and only if every dropped sample is harmless: nothing was kept before it, nothing was accepted after it, or the last chunk before it no longer fits into the budget with what was pushed between it and the start of streaming |
| AsrSession.GivenBlockIff | packages/asr/src/session.ts:324-350 | in every session, whatever became of it, the samples the framer got are one block if and only if no sample between the first and the last of them was dropped |
| AsrSession.OneBlock | packages/asr/src/session.ts:324-350 | unless `connect()` went on after the end that block starts where the pre-roll does |
| AsrSession.BlockIff | packages/asr/src/session.ts:324-350 | the same of every slice of the accepted samples |
| AsrSession.ClosedWhileConnecting | packages/asr/src/session.ts:246-312 | `close()` while the credentials or the transport are awaited, on both wires, for every budget and all sequences of non-empty pushes before it (`xs`), until `connect()` goes on (`bs`), before streaming (`ys`) and after its start (`zs`): one block exactly if `xs` is empty, `bs` is empty, both `ys` and `zs` are empty, or the last push of `xs` exceeds the budget together with `ys` |
| AsrSession.ClosedBeforeStreaming | packages/asr/src/session.ts:294-312 | the same for `close()` between the last answer and the moment `connect()` goes on with it, where there is no `ys` |
| AsrSession.LatestSheds | packages/asr/src/session.ts:342-346 | what the pre-roll sheds is a function of the pushed chunks and the budget, and a chunk is shed exactly when it and what follows exceed the budget |
| AsrSession.AsrSession.AskFinish | packages/asr/src/session.ts:353-419 | one promise for all calls: settled at once after the end, rejected before streaming, otherwise pending until settled once |
| AsrSession.AsrSession.FinishTimesOut | packages/asr/src/session.ts:406-416 | a finish still pending is settled as timed out and the session ends |
| AsrSession.AsrSession.Close | packages/asr/src/session.ts:358-371 | a pending finish is settled, the waiter is let go, `closed` is published once and nothing after it |
| AsrSession.AsrSession.GraceFires | packages/asr/src/session.ts:436-454 | a finish that waits for the last result after the terminal message is settled |
| AsrSession.AsrSession.IdleFires | packages/asr/src/session.ts:846-859 | what was deferred is published, then the error, then `closed`, and no `open` follows |
| AsrSession.AsrSession.Dispatch | packages/asr/src/session.ts:507-601 | the events and the final text of a message, by wire; a failing message closes a streaming session at once, with `closed` after its events, and answers a waiting `connect()` before; a pending finish is settled by a failure or by the first text it waited for |
| AsrSession.MessageReads | packages/asr/src/session.ts:507-575 | a message is received, then its heartbeat or results, one text a track, and an error last |
| AsrSession.TextReads | packages/asr/src/session.ts:527-548 | a message leaves the text of its last final track that has one, and a waiting `finish()` gets that of the first |
| AsrSession.NoTextReads | packages/asr/src/session.ts:527-548 | a message without such a track leaves the text as it was and settles nothing |
| AsrSession.AsrSession.ReportTracks | packages/asr/src/session.ts:527-548 | one text event a track, and the text of the last final track that has one |
| AsrSession.AsrSession.TransportCloses | packages/asr/src/session.ts:486-505 | no finish stays pending and the event stream ends, with an error before it exactly if receiving failed |
| AsrSession.AsrSession.Finale | packages/asr/src/session.ts:641-652 | timers, waiter and finish first, then `closed`, once |
| Segmenter.Segmenter.Accept | apps/p2/voice-server/segmenter.py:35-61 | whole windows are fed; what is returned is, window by window, a start when speech is first heard and every segment that is ready, each as a contiguous slice of the audio fed |
| Segmenter.Segmenter.Feed | apps/p2/voice-server/segmenter.py:42-48 | the history is exactly the last samples, as many as are kept |
| Segmenter.Segmenter.Drain | apps/p2/voice-server/segmenter.py:53-60 | every segment that is ready is returned; utterances are disjoint, in order, and each ends where its segment ended; only the first may begin earlier |
| Segmenter.Segmenter.Extend | apps/p2/voice-server/segmenter.py:63-73 | the pre-roll starts at most `preroll` before the detection, after the last utterance, and as early as both allow |
| Crc.CrcTable | packages/bridge/web/build-icons.ts:82-90 | entry `n` is eight bitwise steps from `n` |
| Crc.Crc32 | packages/bridge/web/build-icons.ts:92-96 | the table-driven CRC is the bitwise one on every byte string (section 5.5 of the PNG specification) |
| Crc.StepsByTable | packages/bridge/web/build-icons.ts:94-94 | eight bitwise steps are one look-up and a shift |
| Crc.StepDivides | packages/bridge/web/build-icons.ts:86-86 | the register steps by the polynomial of section 5.5 of the PNG specification |
| Crc.CrcOfEnd | packages/bridge/web/build-icons.ts:92-96 | the CRC of the chunk that ends every PNG file is the known one |
| Crc.StepsLinear | packages/bridge/web/build-icons.ts:86-86 | stepping is linear over exclusive or |
| Crc.StepsInjective | packages/bridge/web/build-icons.ts:86-86 | different registers never become equal |
| Crc.BurstDetected | packages/bridge/web/build-icons.ts:92-96 | messages that differ only within four consecutive bytes never share a CRC |
| Png.WriteChunk | packages/bridge/web/build-icons.ts:98-105 | a chunk is written as a reader expects it, and refused when its length does not fit four bytes |
| Png.ReadAllWritten | packages/bridge/web/build-icons.ts:98-105 | chunks written one after the other parse back to their types and data (section 5.3 of the PNG specification) |
| Png.BurstRefused | packages/bridge/web/build-icons.ts:98-105 | a reader refuses a chunk in which up to four consecutive bytes of type and data were changed |
| Png.FilterRows | packages/bridge/web/build-icons.ts:143-149 | the rows, each after a zero filter byte, that `UnfilteredBack` reads back |
| Png.UnfilteredBack | packages/bridge/web/build-icons.ts:143-149 | removing the filter bytes gives back the raster |
| Png.RowReads | packages/bridge/web/build-icons.ts:143-149 | row `y` of the raw data starts with a zero, and its bytes follow in their order |
| Png.EncodePng | packages/bridge/web/build-icons.ts:142-162 | signature, header, data and end in order; refused exactly when a number does not fit four bytes |
| Png.FileReads | packages/bridge/web/build-icons.ts:151-162 | the file byte by byte: signature, a 13-byte header with 8 bits a sample and colour type 6, the data, and the known last twelve bytes |
| Png.BigEndianReads | packages/bridge/web/build-icons.ts:100-103 | a length is written with its most significant byte first |
| Png.DecodeEncoded | packages/bridge/web/build-icons.ts:142-162 | the file decodes to the size and the raster, for every deflate that has an inverse |
| Declarations.Renderer.ToType | packages/codemode/src/declarations.ts:172-229 | terminates on every schema, expands at most 32 references, and the references being expanded are the caller's again when it returns |
| Declarations.RendersInlined | packages/codemode/src/declarations.ts:176-188 | a schema whose references can be inlined within the budget renders as the inlined schema does; the test for recursive references refuses none of them |
| Declarations.InlinedAnywhere | packages/codemode/src/declarations.ts:172-229 | a schema without references renders the same in every context and spends nothing |
| Declarations.InlineDeeper | packages/codemode/src/declarations.ts:156-170 | what a schema inlines to does not depend on how deep it may go |
| Declarations.InlineReads | packages/codemode/src/declarations.ts:156-188 | a schema can be inlined exactly if all of its parts can, each reference within one level less, and its parts are the inlined ones |
| Declarations.JoinConcat | packages/codemode/src/declarations.ts:125-129 | parts are joined in order with the separator between every two of them |
| Declarations.UniqueReads | packages/codemode/src/declarations.ts:125-129 | a union names every type once, where it first occurs |
| Declarations.WrappedConcat | packages/codemode/src/declarations.ts:195-202 | the parts of an intersection keep their order |
| Declarations.WrappedNext | packages/codemode/src/declarations.ts:195-202 | of them `unknown` is dropped and a union put in parentheses |
| Proxy.Client.ProcessProxyEvent | packages/agent/src/proxy.ts:260-397 | the partial message and the events after one event, or the error it throws |
| Proxy.BlockRebuilt | packages/agent/src/proxy.ts:269-331 | a text or thinking block holds exactly the deltas since it was last started, in their order, and the signature of its last end |
| Proxy.ToolCallRebuilt | packages/agent/src/proxy.ts:333-371 | a tool call holds what its last end said; before it ended, its name and what the parser makes of all deltas since it was last started |
| Proxy.EventThrows | packages/agent/src/proxy.ts:269-360 | exactly a delta or an end of a text or thinking block that is not there throws, and a delta of a tool call that is not there or has ended |
| Proxy.LinesEvents | packages/agent/src/proxy.ts:180-235 | unless something threw, the message is what the events of the lines make of it |
| Proxy.BlockStreamed | packages/agent/src/proxy.ts:194-331 | so a block of a streamed response that did not end holds exactly the deltas of the lines since the one that started it |
| Proxy.Client.StreamProxy | packages/agent/src/proxy.ts:194-254 | what the consumer sees and the message that was rebuilt are functions of the whole text, however it was cut into chunks, errors and aborts included |
| Proxy.LinesConcat | packages/agent/src/proxy.ts:202-208 | more text only goes on with the line that is not ended |
| Proxy.LinesJoined | packages/agent/src/proxy.ts:202-208 | the lines are the text, and none holds a newline |
| Proxy.FailedEnds | packages/agent/src/proxy.ts:236-246 | what threw decides, whatever text follows |
| Proxy.AlwaysEnds | packages/agent/src/proxy.ts:222-235 | the consumer is always told of an end; the client adds its own exactly if something threw or the server sent none |
| Versions.ComparePiVersions | scripts/model-catalog-protocol.ts:220-259 | computes the comparison its lemmas are about |
| Versions.TotalOrder | scripts/model-catalog-protocol.ts:220-259 | on versions without leading zeros and with safe numbers only equal versions compare equal, and swapping the two swaps the result |
| Versions.Transitive | scripts/model-catalog-protocol.ts:220-259 | and the comparison is transitive |
| Versions.EqualIff | scripts/model-catalog-protocol.ts:246-253 | exactly when two versions compare equal: they are equal, or first differ in two numerals with one number |
| Versions.LeadingZero | scripts/model-catalog-protocol.ts:249-253 | with a leading zero the comparison is not transitive |
| Versions.ComparesPrecedence | scripts/model-catalog-protocol.ts:220-259 | on those versions the comparison is the precedence of section 11 of Semantic Versioning 2.0.0, in the order of `localeCompare` |
| Versions.SelectModelCatalog | scripts/model-catalog-protocol.ts:131-157 | the default without a version; otherwise none exactly if every entry is above the request, and on those versions the first of the highest entries not above it |

## Where code and documentation differ

- `scripts/model-catalog-protocol.ts:77` promises Semantic Versioning precedence. The code orders identifiers with
  `localeCompare`, not in ASCII order, and equal numbers end the comparison even when the identifiers differ
  (`Versions.EqualIff`, `Versions.LeadingZero`). The model follows the code.
- `packages/asr/src/session.ts:314-317` says that audio after the end is dropped. After `close()` during `connect()`'s
  wait for credentials the phase becomes `handshaking` again and later audio is accepted (`AsrSession.ClosedWhileConnecting`;
  `AsrSession.StreamedBlockIff` says exactly when the framer's audio has a gap by it).
- `addDefinitions` accepts two definitions of one shape, which then refer to each other (`SchemaRefs.TwinsAccepted`). The
  document cannot be expanded exactly when an object of the schema has that shape (`SchemaRefs.DocumentMeansIff`).

## Left out

- Text decoding in `output.ts`: chunks arrive as decoded scalar values, what a decoder flush yields is a parameter, and lone surrogates split over chunks are not modelled; `sanitizeOutput` is any function.
- Output.OutputBuffer.Push: the decoder's state; where a skip is refused the source has flushed its decoder before it throws, so an incomplete character that was pending is lost.
- Clocks and timers: a timer fires at any time while it is set; times are readings of a clock that does not go back.
- `Progress` write callbacks that call back into it before they return.
- The lifecycle of `NativeWatch` is the one of `Watch` and modelled there only; `report` callbacks are left out.
- `Delta`: object members addressed by number and key order; compact wire encoding of operations.
- AgentRun.RunLoop: `fuel` bounds the provider requests of a run, so a run that never ends is seen through its finite beginnings; thrown errors, model and thinking-level configuration, and the aliasing of the caller's context array are left out.
- AgentHost.Host.PrepareToolCall: lookup, argument validation and hooks answer arbitrarily.
- `PendingMessageQueue` modes: the queues hand over any messages.
- ModelRefresh.ModelsImpl.StoreReturns: a store operation that failed, for instance because its signal was aborted, is assumed to take no effect afterwards; a late write would come after the publications that waited for it.
- ModelRefresh.ModelsImpl.FinishRefresh: credentials, authentication and the two phases of a refresh are left out; a refresh publishes any number of times.
- `currentModels`, `mergeHeaders`, `calculateCost`, `clampThinkingLevel` and `clearProviders` in `models.ts`: single-pass members with nothing to relate.
- CatalogBuild.CatalogBuilder.BuildModels: hooks are pure functions of the models they asked for; recorded sources and the later per-model stages of the build are left out.
- SchemaRefs.AddDefinitions: comparison by `JSON.stringify` is taken as equality of ordered entries, and integer-like keys keep their place.
- `JsonGraph`: proxies and getters with effects, and property names that are array indices on plain objects.
- `Framer`: conversion of byte input, the Opus encoder and a sink that throws.
- AsrSession.AsrSession.Push: a framer that throws while streaming passes its error on to the caller and changes nothing in the session.
- `AsrSession`: wire formats, configuration, authentication, statistics, and whether a message is the one waited for, which is a parameter.
- `Segmenter`: the detector itself; it returns any slices in order and without overlap.
- `renderIcon`: cell boundaries are rounded one by one, so cells can differ by a pixel; deflate is any function with an inverse.
- `Proxy`: requests, usage figures, ids of tool calls, and the parser of partial tool arguments.
- Versions.SelectModelCatalog: parsing of versions; `Number` beyond safe integers is any integer, so results that are not a number are not modelled.
- Declarations.Renderer.ToType: reading JSON keywords into forms, doc comments, constraint tags and the length limit of `schemaToType` are left out; looking up a reference is a map.
