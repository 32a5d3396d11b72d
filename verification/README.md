# A verified model of Pincer's agent core

Pincer is a self-hosted agent gateway. This project models the parts of it that carry hard
guarantees and proves those guarantees with Dafny 4.11. `dafny verify dfyconfig.toml` checks the
whole project.

| file | what it models |
|---|---|
| `Llm.dfy`, `Sequences.dfy` | messages, tool calls and results, provider events, what a well paired conversation is |
| `Context.dfy` | the context builder: budgeted selection of history, pairing of calls and results |
| `Memory.dfy`, `MemorySteps.dfy`, `SmartContext.dfy` | the memory store with its incremental context, its concurrent use, and how a turn's prompt tells it to a session |
| `ChatRetry.dfy`, `Recovery.dfy`, `Retry.dfy`, `ToolBatch.dfy` | provider retries, error classification, strategy rotation, one batch of tools with its recovery |
| `Turn.dfy`, `TurnLoop.dfy`, `Pairing.dfy`, `Transcript.dfy` | the agentic turn as a state machine, the loops of turn and subagent proved against it, results that answer their calls by id, and what a turn stores, shows, counts and tells, message by message |
| `Store.dfy`, `Compaction.dfy` | the message table, session compaction, the start of a turn |
| `ExecutorSteps.dfy`, `SessionLocks.dfy`, `Approval.dfy`, `CacheSteps.dfy` | concurrent protocols: every interleaving of their atomic steps |
| `CacheEntry.dfy`, `FileCache.dfy` | the file cache used sequentially, and the file tools |
| `Utf8.dfy`, `Splitter.dfy` | UTF-8 (section 4 of RFC 3629), and splitting of outbound messages |
| `Anthropic.dfy`, `OpenAI.dfy`, `Gemini.dfy` | stream reassembly against complete responses, message conversion, call ids and names |

How to read it:

- The environment is arbitrary. Replies of the provider, outcomes of tools, verdicts, database results
  and cancellations are functions or parameters that the theorems quantify over.
- Loops and objects of the source are methods, loops and classes here, each proved against a
  specification function; the guarantees are lemmas about those functions or clauses of the methods.
- A concurrent component is a transition system whose steps are its critical sections, channel
  operations and disk accesses. A run is any sequence of enabled steps.
- JSON encoding and decoding are an inverse pair (`Llm.Content` carries what each decoder would
  yield), content hashes are injective, a file's modification time is a strictly increasing version
  and one disk read is atomic.

What the code does not guarantee. Each point names the lemmas that show it: a run or an input where the
guarantee fails only sometimes, and the exact condition under which it does:

- A tool that ran into its deadline is classed as transient and yet never retried, because its error is
  flattened to text first: `Recovery.DeadlineIsNotRetried`, exactly when: `Recovery.RetriedExactlyWhen`.
- A subagent runs its batch on the executor whose slot its own tool call holds. Such batches can take all
  slots and then nothing happens until a deadline passes (`ExecutorSteps.NestedBatchStalls`, exactly when:
  `ExecutorSteps.StalledIffDeadlocked`). Deadlines always resolve it, and every batch returns
  (`ExecutorSteps.EveryBatchReturns`); only a negative configured timeout, which leaves tasks without a
  deadline, makes it last (`ExecutorSteps.StuckExactlyWhen`).
- An immutable memory key is overwritten when looking it up fails and the write succeeds:
  `Memory.OverwriteImmutable`, exactly when, for operations one after the other:
  `Memory.ImmutableChangesExactlyWhen`. It is also overwritten, with every lookup succeeding, when two sets both
  look it up before either writes: `MemorySteps.SetsRace`, exactly when: `MemorySteps.CanChangeExactlyWhen`.
- A session may never be told a changed memory value, because its snapshot is taken before anything is sent. The
  context builder may take the value for what it last sent to another session
  (`SmartContext.SecondSessionIsNotTold`), or the prompt may leave no room for history, or every model call of the
  turn may fail, so that no request is accepted (`SmartContext.PromptLeavesNoRoom`). Exactly when:
  `SmartContext.ToldExactlyWhen` with `SmartContext.LostExactlyWhen`.
- A load that read before a write can store after the invalidation that follows the write:
  `CacheSteps.InvalidateCanLoseRace`, exactly when: `CacheSteps.StaleExactlyWhen`. The next undisturbed
  refresh repairs it.
- A write that breaks off is not followed by an invalidation: `FileCache.StaleAfterBrokenOffWrite`; the
  cache stays coherent exactly if it held nothing else for that path: `FileCache.FileWrite`.
- If inserting the summary fails after the old messages are deleted, they are lost and the session keeps
  its last ten messages only: `Compaction.SummaryIsLost`, exactly when: `Compaction.CompactionEffect`.
- If another writer appends to a session between the counting and the loading of its messages, the previous
  summary stays and the session ends up with two: `Compaction.TwoSummaries`, exactly when:
  `Compaction.OldestSurvivesExactlyWhen`.
- A message of a writer without the session lock can be read inside a turn's block of messages, even if it is
  appended after all of them: `SessionLocks.OutsiderSplitsBlock`, exactly when: `SessionLocks.SplitExactlyWhen`.
  This is why pairing is stated for requests and not for the store.
- An OpenAI stream delivers every call once per finish mark, so none without a mark and all twice with two
  (`OpenAI.SecondFinishDuplicates`). A stream none of whose tool deltas comes after a mark agrees with the
  complete response exactly when it has one mark or no calls: `OpenAI.AgreesExactlyWhen`.
- A stream that is over before its stop line counts as a complete reply: `Anthropic.HalfReply`, exactly when it is
  reported as failed: `Anthropic.FailureExactlyWhen`. The OpenAI and Gemini readers report an error only when their
  context is done: `OpenAI.ReadStream`, `Gemini.ReadStream`.
- The context builder is shared by all sessions, so `RebuildMessages` may use the token count of another one
  and select something else (`Context.RebuildAfterAnotherSession`). It selects the same messages exactly when none
  of those that only the larger budget takes in survives sanitising: `Context.SameSelectionExactlyWhen`. The turn
  theorems therefore let the history budget of every iteration be arbitrary.
- A turn cancelled during its cooldown emits no terminal event, exactly when: `Turn.CooldownExactlyWhen`. It
  leaves calls without results in the store, which take one place in later loads and are never sent
  (`Turn.BrokenOffTurnHeals`). A later turn sends exactly what it would send without them if and only if none of
  the messages that they crowd out of the load or of the budget would be sent: `Turn.HealsFullyExactlyWhen`.
- An answer that fails verification is stored, but the retry does not see it: it is not in the in-memory
  history, and the hint is all the model is told (`Turn.StoreMirrorsHistory`).
- Splitting looks for a cut outside the fence that is open at the limit, but may cut inside an earlier block:
  `Splitter.CutInsideBlock`, exactly when: `Splitter.CutIsInsideExactlyWhen`.

## Model

| member | source | states |
|---|---|---|
| Context.MessageToLLM | pkg/agent/context.go:221-249 | decoding keeps the role, calls and results come only from bodies that decode as such and never together, and an undecodable body is passed on as text |
| Context.SanitizeToolPairs | pkg/agent/context.go:198-219 | the greedy loop yields the specified list, which is well paired and equals the local filter when no message carries both |
| Context.SanitizeIsLocalFilter | pkg/agent/context.go:198-219 | two-at-a-time greedy removal keeps exactly plain messages and adjacent call/results pairs |
| Context.SanitizeSound | pkg/agent/context.go:198-219 | the result is well paired and sanitising again changes nothing |
| Context.PrefixIsMissedExactlyWhen | pkg/agent/context.go:198-219 | taking the first messages away changes nothing exactly when all of them would be removed anyway |
| Context.TruncationKeepsSuffix | pkg/agent/context.go:198-219 | sanitising any suffix gives a suffix of sanitising the whole |
| Context.LongestFit | pkg/agent/context.go:114-159 | the selected start is the one from which on exactly the suffixes fit the budget |
| Context.SelectHistory | pkg/agent/context.go:95-167 | the backward loop selects the longest suffix that fits, images charged and kept only in the three most recent image-bearing messages, then sanitised |
| Context.LargerBudgetExtends | pkg/agent/context.go:95-167 | a larger budget yields a list that has the smaller budget's list as a suffix |
| Context.SelectedPaired | pkg/agent/context.go:161-166 | every selection is well paired |
| Context.SentImagesAreCharged | pkg/agent/context.go:114-159 | a history costs a token per four bytes of each message, and 1600 for each image that is actually sent with it |
| Context.ThreeNewestKeepImages | pkg/agent/context.go:117-150 | exactly the three newest image-bearing messages, or all if there are fewer, are sent with their images |
| Context.BuildContext | pkg/agent/agent.go:761-767 | without a context builder the whole history is decoded and sanitised |
| Context.DanglingOnlyCosts | pkg/agent/context.go:95-219 | under a budget, what is sent with such calls in the history is a suffix of what is sent without them |
| Context.DanglingCostsNothingExactlyWhen | pkg/agent/context.go:95-219 | under a budget they make no difference exactly when none of the messages that their tokens crowd out would be sent |
| Context.DisplacedExactlyWhen | pkg/agent/context.go:95-219 | the same when they have also displaced messages from the front of the load |
| Context.DanglingLeavesNoTrace | pkg/agent/context.go:198-219 | taking stored calls without results out of a history changes nothing in what is sent |
| Context.OldestIsMissedExactlyWhen | pkg/agent/agent.go:761-767 | dropping the oldest loaded message changes what is sent exactly if that message would be sent |
| Context.SameStartExactlyWhen | pkg/agent/context.go:169-177 | two budgets select the same part of a history exactly when each suffix fits both or neither |
| Context.SameSuffixExactlyWhen | pkg/agent/context.go:169-177 | for budgets that leave room: exactly when no suffix cost lies between them |
| Context.SameSelectionExactlyWhen | pkg/agent/context.go:169-177 | two budgets select the same messages exactly when none of those that only the larger one takes in survives sanitising |
| Context.RebuildAfterAnotherSession | pkg/agent/context.go:169-177 | a run in which the rebuild for one session, after a build for another, selects nothing of what it selected before |
| Context.ContextBuilder.constructor | pkg/agent/context.go:29-43 | defaults for budget and reserve |
| Context.ContextBuilder.AddWorkspace | pkg/agent/context.go:49-70 | text, counted tokens and remembered hashes are those of the files included |
| Context.IncludedExactlyWhen | pkg/agent/context.go:49-70 | each file is left out exactly when what was last sent under its key is the same and it would take the prompt past half the budget |
| Context.PromptTells | pkg/agent/context.go:68-75 | the prompt has one section per included file, the content behind its own key and ahead of the next section |
| Context.ContextBuilder.Build | pkg/agent/context.go:45-92 | the prompt is the system prompt followed by one section per included file, in order, its content behind its own key; when messages come back, prompt, files, history and output reserve together fit the budget |
| Context.ContextBuilder.RebuildMessages | pkg/agent/context.go:169-177 | the same selection as Build for the same history and the same counted tokens |
| Recovery.RetriedExactlyWhen | pkg/agent/agent.go:495-500 | a failure is retried (or replanned) exactly if it is not permanent and its text names one of three conditions, below (or at) the retry limit; and the result it is reported as |
| Recovery.DeadlineIsNotRetried | pkg/agent/executor/recovery.go:37-69 | a deadline error is transient for runTool and skipped by Decide |
| Retry.SortByPriority | pkg/agent/retry/strategy.go:38-43 | the copy is in descending priority and a permutation |
| Retry.FirstIsHighest | pkg/agent/retry/strategy.go:55-72 | the first untried applicable strategy has the highest priority of all such |
| Retry.Rotator.constructor | pkg/agent/retry/strategy.go:38-49 | a fresh rotator holds the sorted strategies, nothing tried |
| Retry.Rotator.Next | pkg/agent/retry/strategy.go:51-72 | dispenses the highest-priority untried applicable strategy and marks it; nothing exactly when attempts are used up or none qualifies |
| Retry.Rotator.Reset | pkg/agent/retry/strategy.go:77-81 | all state is cleared |
| ToolBatch.AttemptDiscipline | pkg/agent/agent.go:520-558 | between 1 and MaxRetries+1 attempts; again exactly after transient failures, never after success or permanent error |
| ToolBatch.AttemptedExactlyWhen | pkg/agent/executor/recovery.go:37-69 | under the default policy attempt k+1 is made exactly when attempt k was made, k is below the limit, and attempt k was not started, or failed with a transient kind and a text that contains one of three words |
| ToolBatch.ReplannedExactlyWhen | pkg/agent/agent.go:549-555 | exactly the calls all of whose allowed attempts fail that way are reported for replanning, in order, by name |
| ToolBatch.UncancelledSlots | pkg/agent/agent.go:483-515 | one result per call, in call order, with its id and its last attempt's outcome |
| ToolBatch.ReplansExhaustRetries | pkg/agent/agent.go:549-555 | every replan entry records exactly MaxRetries retries |
| ToolBatch.SlotId | pkg/agent/agent.go:492-494 | a slot carries its call's id if some attempt ran the tool, and is still at its zero value if none did |
| ToolBatch.SlotIsLastRun | pkg/agent/agent.go:492-500 | a slot holds content, error mark, images and kind of the last attempt that ran the tool |
| ToolBatch.RunBatch | pkg/agent/agent.go:483-517 | the parallel phase fills each slot from its own task, or leaves the zero value when the task was not started |
| ToolBatch.Recover | pkg/agent/agent.go:525-557 | the inner loop makes exactly the specified attempts, and replans exactly if the last one is transient |
| ToolBatch.RunToolCalls | pkg/agent/agent.go:483-558 | batch and recovery together produce the specified results and replan entries |
| ChatRetry.ChatCorrect | pkg/agent/agent.go:30-75 | at most LLMMaxRetries+1 provider calls; success exactly if some reached attempt is accepted |
| ChatRetry.DelaysDouble | pkg/agent/agent.go:42-48 | each announced delay is the provider's own or five seconds doubled per attempt; the maximum never comes into play |
| ChatRetry.ChatWithRetry | pkg/agent/agent.go:30-75 | the loop computes the specified call: reply, attempts and delays |
| Turn.TurnSafety | pkg/agent/agent.go:289-648 | every turn ends; every request is well paired; bounds on provider calls, verification retries and strategies; one terminal event, matching the end and last, except that there is none exactly if an iteration breaks off |
| Turn.CooldownExactlyWhen | pkg/agent/agent.go:560-590 | a turn is cancelled at an iteration exactly if the model calls tools, the calls are stored, some tool has to be replanned, fewer than three strategies are used, one applies, and the cooldown is cancelled |
| Turn.CancelledExactlyWhen | pkg/agent/agent.go:577-583 | the same for any number of iterations |
| Turn.FinalEvents | pkg/agent/agent.go:289-648 | the terminal event goes with the end of the turn |
| Turn.RunKeeps | pkg/agent/agent.go:337-644 | the invariant of the loop after any number of iterations |
| Turn.FailsOnThirdInARow | pkg/agent/agent.go:364-420 | a turn fails at an iteration exactly if it is the third consecutive one whose model call fails |
| Turn.AnswersExactlyWhen | pkg/agent/agent.go:435-470 | a turn ends with an answer at an iteration exactly if the model answers without tools, the answer is persisted, and it passes verification or two were rejected before |
| Turn.UnheardExactlyWhen | pkg/agent/agent.go:337-378 | no request of a turn is accepted exactly when there is nothing to send, or every call fails until the turn gives up or its iterations run out |
| Turn.StrategyIsBest | pkg/agent/agent.go:560-590 | a strategy is used exactly when tools failed, attempts are left and one applies, and it is the best one |
| Turn.HistoryGrowsByPairs | pkg/agent/agent.go:592-633 | the in-memory history is the loaded one plus the pairs of some iterations: their text and calls, and one result per call with what the last attempt that ran the tool reported, or the zero value exactly where none did |
| Turn.StoreMirrorsHistory | pkg/agent/agent.go:435-633 | throughout a turn the store gets the tool messages of the in-memory history, in order, plus dangling calls only when the turn broke off between calls and results, and one answer per verification retry |
| Transcript.CallsDecode | pkg/agent/agent.go:732-744 | encoded calls are read back with their text and their calls |
| Transcript.ResultsDecode | pkg/agent/agent.go:746-752 | encoded results are read back as they were, but for the kinds of their errors |
| Transcript.TextDecodes | pkg/agent/context.go:221-249 | a text is read back as it is |
| Transcript.StoreIsTranscript | pkg/agent/agent.go:435-633 | what a turn has stored reads back as exactly the saved answers and, for each batch, text and calls, followed by the results if the batch completes; the history grows by the completed pairs only |
| Transcript.AnswersAreStored | pkg/agent/agent.go:435-441 | the plain messages stored are, in order, the texts of exactly the replies without tool calls that were saved |
| Transcript.StoreFailsExactlyWhen | pkg/agent/agent.go:435-605 | a turn fails over the store at an iteration exactly when something it has to store there is not stored |
| Transcript.ListenerIsShown | pkg/agent/agent.go:380-401 | the listener is shown every token and every call of every reply, in order, and no other |
| Transcript.RunTallies | pkg/agent/agent.go:337-401 | one request per iteration that has something to send, the provider calls and accepted requests those took, and one progress event per announced wait and per iteration that goes on |
| Transcript.RequestIsTold | pkg/agent/agent.go:342-590 | every request carries the selected messages and is told exactly what the iteration before led to: failed call, broken stream, rejected answer, strategy, tools given up, or nothing |
| Turn.BrokenOffTurnHeals | pkg/agent/agent.go:300-309 | after any end between calls and results, what a later turn sends from its last messages, behind a summary or not, is what it would send without the dangling calls from one place fewer; under a budget a suffix of it |
| Turn.HealsFullyExactlyWhen | pkg/agent/agent.go:300-315 | under any budget a later turn sends the same as without the dangling calls exactly if none of the messages would be sent that they crowd out of the load or of the budget |
| Turn.HealsWithoutBudgetExactlyWhen | pkg/agent/agent.go:761-767 | without a builder, exactly if the session fits into the load or the displaced message would not be sent anyway |
| Pairing.RequestsAnswer | pkg/agent/agent.go:315-361 | in every request over a matching history each results message answers the calls right before it: one result per call, under its id, or the zero value where the tool never ran |
| Pairing.SessionMatches | pkg/agent/agent.go:300-309 | a session whose tool messages are those of its turns is matching, whatever other messages are between them, however the turns ended, and also when only its end is loaded behind a summary |
| Pairing.ChosenMatched | pkg/agent/context.go:95-219 | selection, image stripping and sanitising keep results with their own calls |
| Pairing.ConversationMatched | pkg/agent/agent.go:837-949 | a subagent's results answer their calls at every iteration |
| Turn.HintIsSentOnce | pkg/agent/agent.go:342-346 | a recovery hint goes out with the next request only |
| TurnLoop.Consume | pkg/agent/agent.go:380-401 | text, calls and failure of a stream, and the forwarded events |
| TurnLoop.HandleReplans | pkg/agent/agent.go:560-590 | the rotator's strategy or the summary of failed tools becomes the next hint, and the cooldown may end the turn |
| TurnLoop.HandleCalls | pkg/agent/agent.go:473-638 | the batch, the strategy rotation, the cooldown and the recorded pair |
| TurnLoop.HandleReply | pkg/agent/agent.go:403-471 | what a settled call leads to, including verification |
| TurnLoop.RunIteration | pkg/agent/agent.go:337-363 | one pass of the loop is one step of the state machine |
| TurnLoop.RunAgenticLoop | pkg/agent/agent.go:332-648 | the loop reaches the final state of the state machine |
| TurnLoop.RunTurn | pkg/agent/agent.go:253-315 | a whole turn on the store: the history is the end of the session, with the user message last if nobody else wrote during compaction; whatever fails, one terminal event except after a cancelled cooldown, paired requests, bounded provider calls |
| TurnLoop.ConversationPaired | pkg/agent/agent.go:837-949 | a subagent's conversation is well paired at every iteration |
| TurnLoop.FirstRequest | pkg/agent/agent.go:837-849 | the first thing a subagent is asked is its prompt |
| TurnLoop.AppendedExactly | pkg/agent/agent.go:849-949 | what an iteration adds to a subagent's conversation: a notice of failure, nothing, or text and calls with what each call reported |
| TurnLoop.SubIteration | pkg/agent/agent.go:849-949 | one iteration of a subagent |
| TurnLoop.RunSubturn | pkg/agent/agent.go:816-953 | depth limit; the exact, well paired conversation sent at each iteration; it stops exactly at the first answer, the third failure in a row or the last iteration, and what each result means; provider calls counted and bounded |
| Splitter.FindCodeBlockSafeCut | pkg/channels/split.go:48-88 | the in-place scan returns exactly the fence the recursive automaton leaves open |
| Splitter.CutIsOutside | pkg/channels/split.go:48-88 | scanning only the text before a positive result ends outside any fence |
| Splitter.OpeningLineStaysOpen | pkg/channels/split.go:74-84 | nothing in the line that opens a block closes it |
| Splitter.RuneAlignedCut | pkg/channels/split.go:90-102 | the last character start up to the limit, or the whole first character |
| Splitter.FindCutPoint | pkg/channels/split.go:27-46 | paragraph, line, word or character boundary, in this preference, within the window |
| Splitter.CutSound | pkg/channels/split.go:27-46 | a cut makes progress, fits or takes one character, and never breaks a character |
| Splitter.CutPrefers | pkg/channels/split.go:27-46 | a cut comes behind the last empty line of the window, else behind its last line, else behind its last word, else behind its last character |
| Splitter.CutIsInsideExactlyWhen | pkg/channels/split.go:27-46 | the text is inside a fence at a cut exactly when the cut falls into a block closed within the limit, or the text starts with a block still open there |
| Splitter.CutWithinWindow | pkg/channels/split.go:27-46 | every cut lies within the window, except behind a first character that exceeds the limit |
| Splitter.CutInsideBlock | pkg/channels/split.go:33-41 | a text that is cut inside a closed block |
| Splitter.SplitMessage | pkg/channels/split.go:8-25 | chunks concatenate to the input, each reaches up to the cut of what is left, are non-empty, fit when maxLen >= 4, and are valid UTF-8 when the input is |
| Utf8.SplitsAtStart | pkg/channels/split.go:90-102 | valid text splits into valid parts at every character start |
| Utf8.EncodedIsValid | pkg/channels/split.go:90-102 | every sequence of scalar values encodes to valid text |
| Utf8.ValidIsEncoded | pkg/channels/split.go:90-102 | valid text is the encoding of some sequence of scalar values |
| CacheSteps.InvAlways | pkg/filecache/filecache.go:76-132 | the version invariant in every interleaving |
| CacheSteps.CacheSafety | pkg/filecache/filecache.go:76-147 | modTime <= data <= current version, a matching modTime means current content, and the capacity bound |
| CacheSteps.GoesExactlyWhen | pkg/filecache/filecache.go:93-220 | an entry goes at a step exactly when it is invalidated, expired, dropped by a refresh or evicted; the evicted one is the least recently used of a full cache |
| CacheSteps.ComesExactlyWhen | pkg/filecache/filecache.go:116-127 | an entry comes at a step exactly when a load stores it, with what the load read and the time of storing |
| CacheSteps.RenewedExactlyWhen | pkg/filecache/filecache.go:76-91 | only being read or loaded renews an entry, and its content and modification time are those last stored by a load or a refresh |
| CacheSteps.ReadsExactlyWhen | pkg/filecache/filecache.go:100-115 | a thread gets to storing a file exactly by reading it while it is there, and a load only if it was not too large |
| CacheSteps.RefreshLeavesCurrent | pkg/filecache/filecache.go:165-220 | a refresh that starts with nothing in flight and sees no file change leaves every entry equal to disk |
| CacheSteps.InvalidationHolds | pkg/filecache/filecache.go:94-98 | an invalidation with nothing stale in flight holds in every interleaving until the file changes |
| CacheSteps.StaleExactlyWhen | pkg/filecache/filecache.go:94-220 | right after an invalidation, a stale entry can come up before the file changes exactly when some thread is about to store outdated content |
| CacheSteps.InvalidateCanLoseRace | pkg/filecache/filecache.go:94-127 | a run in which the cache keeps old content after write and invalidation |
| FileCache.Cache.Get | pkg/filecache/filecache.go:73-91 | a cached read of a coherent cache is a direct read; a hit renews only its access time |
| FileCache.Cache.Load | pkg/filecache/filecache.go:100-132 | reads, and caches unless too large |
| FileCache.Cache.Insert | pkg/filecache/filecache.go:116-127 | at capacity one entry of minimal last access goes; the cache stays within max(1, maxEntries) |
| FileCache.Cache.EvictOne | pkg/filecache/filecache.go:134-147 | removes an entry of minimal last access |
| FileCache.Cache.Invalidate | pkg/filecache/filecache.go:93-98 | removes the path and nothing else |
| FileCache.Cache.RefreshAll | pkg/filecache/filecache.go:165-220 | exactly the entries stay that were accessed within the time to live and whose file is there and unchanged or small enough; they are refreshed |
| FileCache.Cache.RefreshEntry | pkg/filecache/filecache.go:189-219 | one round of the refresh loop |
| FileCache.RefreshedIsCurrent | pkg/filecache/filecache.go:189-219 | survivors equal disk with its modification time, access times are kept, and which entries survive |
| FileCache.FileWrite | pkg/agent/tools/file.go:156-174 | what each outcome leaves on disk and in the cache; write then invalidate keeps the cache coherent; a broken-off write does exactly if the cache held nothing else |
| FileCache.StaleAfterBrokenOffWrite | pkg/agent/tools/file.go:162-169 | a run that reads stale content after a broken-off write |
| FileCache.FileRead | pkg/agent/tools/file.go:64-86 | the content on disk, or its start up to a character boundary with a notice; valid text stays valid |
| FileCache.NoticeReads | pkg/agent/tools/file.go:83-83 | the notice in words |
| FileCache.Truncate | pkg/agent/tools/file.go:74-84 | the last character start up to the limit |
| FileCache.Replay | pkg/agent/tools/file.go:64-69 | every sequential run of reads, writes and refreshes returns what the run without a cache returns |
| ExecutorSteps.ExecutorSafety | pkg/agent/executor/executor.go:43-94 | slots held are the tasks between acquire and release, within the limit; a returned batch wrote each slot once, with its id, and holds none |
| ExecutorSteps.CancelReaches | pkg/agent/executor/executor.go:55-61 | cancelling a batch lets every task give up that waits for a slot in it or in any batch started below it |
| ExecutorSteps.DeadlineReaches | pkg/agent/executor/executor.go:67-72 | a passed deadline does the same for everything below the task |
| ExecutorSteps.GivesUpExactlyWhen | pkg/agent/executor/executor.go:55-61 | a task can give up exactly when it waits and a batch above it was cancelled or started by a task past its deadline |
| ExecutorSteps.StalledIffDeadlocked | pkg/agent/executor/executor.go:55-61 | an unfinished executor can only wait for a deadline exactly when all slots are held by tasks waiting for nested batches |
| ExecutorSteps.StuckExactlyWhen | pkg/agent/executor/executor.go:55-72 | at any point of any run an unfinished executor is stuck exactly when it is deadlocked and a negative timeout was configured |
| ExecutorSteps.EveryBatchReturns | pkg/agent/executor/executor.go:43-94 | with deadlines the executor takes boundedly many steps by itself, and when none is left every batch has returned |
| ExecutorSteps.ProgressWithoutDeepNesting | pkg/agent/executor/executor.go:14-22 | with fewer nested waits than slots a step is enabled without waiting for a deadline |
| ExecutorSteps.NestedBatchStalls | pkg/agent/agent.go:918-944 | a run in which nothing can happen before the outer task's deadline |
| SessionLocks.TurnsAreSerialised | pkg/agent/agent.go:242-287 | one turn per session between lock and unlock, one unlock per turn, contiguous blocks that start with the user message, by appending and by creation time |
| SessionLocks.WaiterGetsIn | pkg/agent/agent.go:242-287 | a waiting turn finds its lock free, or held by a turn of the same session that can get out and then lets it in |
| SessionLocks.StoredGoesOn | pkg/agent/agent.go:263-287 | a turn that stores its user message goes on to its loop and can finish |
| SessionLocks.SplitExactlyWhen | pkg/gateway/router.go:252-273 | over every run a message without author is read, by creation time, inside a turn's block exactly when it was made for the session while the turn ran, the turn appended again, and it was appended at any time |
| SessionLocks.OutsiderSplitsBlock | pkg/gateway/router.go:252-273 | a run in which a message appended after a turn's block is read inside it |
| Approval.ApprovalSafety | pkg/agent/approval.go:47-89 | the pending map is the requests in flight; an asking request returns true only on a first delivered approval |
| Approval.RespondNeverBlocks | pkg/agent/approval.go:78-89 | a responder that found a channel has exactly one of send and default enabled, and is done after it; what it sends is delivered, what it discards comes second |
| Approval.RequestReturns | pkg/agent/approval.go:47-76 | a waiting request can time out, which denies it, or takes the response in its channel; a decided one returns just that and is no longer pending |
| Approval.SomebodyAnswered | pkg/agent/approval.go:55-89 | a request that does not time out returns what a responder was called with for this very request while it was in flight |
| Approval.ToolRunsExactlyWhen | pkg/agent/agent.go:656-695 | a tool is reached exactly without approver, auto-approved, in auto mode, or with a first delivered approval in time, which somebody gave for this request |
| Anthropic.ReadFull | pkg/llm/anthropic.go:350-387 | the events of a complete response: its text, and each call with id, name and input; or an error for a body that does not decode |
| Anthropic.ReadStream | pkg/llm/anthropic.go:257-343 | the loop over lines emits the specified events, also when the context is done or the connection breaks |
| Anthropic.StreamingAgrees | pkg/llm/anthropic.go:257-387 | for any fragmentation and noise: same text, same call list, same usage, and these are what the response says; an input that is not sent stands for the empty object |
| Anthropic.FailureExactlyWhen | pkg/llm/anthropic.go:268-343 | a stream is reported as failed exactly if the context is done or the connection breaks before its stop line, and as done exactly if that is reached |
| Anthropic.HalfReply | pkg/llm/anthropic.go:268-343 | a stream that is over after its first words is read without an error |
| OpenAI.ConvertToOpenAIMessages | pkg/llm/openai.go:172-206 | the loops build the specified messages |
| OpenAI.BatchConverts | pkg/llm/openai.go:172-206 | a batch becomes one tool_calls message and one tool message per call, in order, with the last outcome |
| OpenAI.WireRoundTrip | pkg/llm/openai.go:172-206 | a conversation that is sent can be read back, message by message: roles, texts, calls, and id and content of every result |
| OpenAI.EmitCalls | pkg/llm/openai.go:298-314 | the multiset of pending calls, for every iteration order |
| OpenAI.ReadChoice | pkg/llm/openai.go:282-315 | content, argument accumulation by index, and emission at a finish mark |
| OpenAI.ReadStream | pkg/llm/openai.go:240-319 | text, multiset of calls, last usage and end of the whole stream, up to the end mark or the line at which the context is done |
| OpenAI.ReadFull | pkg/llm/openai.go:335-372 | text, calls and usage of a complete response with any number of choices, or an error for a body that does not decode |
| OpenAI.StreamingAgrees | pkg/llm/openai.go:240-372 | for any fragmentation and interleaving with one finish mark: same text and same multiset of calls |
| OpenAI.EachFinishEmits | pkg/llm/openai.go:298-314 | every finish mark delivers all calls once more |
| OpenAI.AgreesExactlyWhen | pkg/llm/openai.go:240-372 | for deltas up to the first finish mark, the calls of stream and complete response agree exactly when there is one mark or no call |
| OpenAI.SecondFinishDuplicates | pkg/llm/openai.go:298-314 | a further finish mark, after any stream, emits all pending calls again |
| Gemini.ReadParts | pkg/llm/gemini.go:304-322 | text and calls of every part, with ids from a counter that goes on within a response and restarts with the next |
| Gemini.EventsDeliver | pkg/llm/gemini.go:269-288 | the events deliver the texts of the parts and their calls in order, with name, arguments and an id made of name and number |
| Gemini.ReadStream | pkg/llm/gemini.go:237-292 | text and calls, with name, arguments and number, of all parts up to the line at which the context is done; then the last usage, or an error |
| Gemini.ReadFull | pkg/llm/gemini.go:294-330 | text and calls, with name, arguments and number, of all parts of a complete response, and its usage; or an error for a body that does not decode |
| Gemini.StreamingAgrees | pkg/llm/gemini.go:237-330 | however the parts are distributed over chunks and candidates: the same events, ids and usage in the same order |
| Gemini.IdDetermines | pkg/llm/gemini.go:276-286 | an id determines name and number |
| Gemini.ResponseIdsDistinct | pkg/llm/gemini.go:276-286 | ids of one response are distinct and in the format |
| Gemini.ConvertMessages | pkg/llm/gemini.go:153-162 | every message but the system ones is sent, at its place among them, with the names that the overwriting map holds at that point |
| Gemini.ConvertToGeminiContent | pkg/llm/gemini.go:184-221 | role and parts of one message |
| Gemini.MessageIsSent | pkg/llm/gemini.go:184-221 | the assistant's messages go out as the model's; text, each call with name and arguments, and the content of each result are sent |
| Gemini.ResponseCarriesName | pkg/llm/gemini.go:184-221 | a result that answers any earlier call is sent under that call's name |
| Gemini.AdjacentCarriesName | pkg/llm/gemini.go:203-216 | for ids of any origin, results right behind calls with distinct ids are named right |
| Store.ReverseInPlace | pkg/store/store.go:178-180 | the slice is reversed |
| Store.OrderedWithout | pkg/store/store.go:204-212 | deletion keeps the order of the rest |
| Store.WithoutInfix | pkg/store/store.go:204-212 | deleting consecutive messages leaves those before and those behind |
| Store.Store.AppendMessage | pkg/store/store.go:160-165 | a row is added, or nothing changes |
| Store.Store.RecentMessages | pkg/store/store.go:167-183 | the newest messages, oldest first, or nothing when the query fails |
| Store.Store.MessageCount | pkg/store/store.go:185-192 | counting the rows of a session gives the length of its ordered view |
| Store.Store.DeleteMessages | pkg/store/store.go:204-212 | exactly the given ids go, or nothing changes |
| Compaction.SummarySortsFirst | pkg/agent/compaction.go:138-149 | summary first, then the last ten in order, other sessions untouched |
| Compaction.SummaryReads | pkg/agent/compaction.go:138-149 | the summary reads back as the assistant's words, dated a second before the first kept message |
| Compaction.StoredReads | pkg/store/store.go:160-165 | storing a message does not change what it reads as |
| Compaction.TrimmedKeepsUncounted | pkg/agent/compaction.go:54-66 | as many of the oldest messages stay as were not counted, next to the ten newest |
| Compaction.CompactSession | pkg/agent/compaction.go:37-162 | the rows are those specified for the outcome, which is the first failure met, or success |
| Compaction.CompactionEffect | pkg/agent/compaction.go:37-162 | without other writers success leaves exactly the summary and the last ten in order, any failure before deletion changes nothing, no outcome touches another session |
| Compaction.OldestSurvivesExactlyWhen | pkg/agent/compaction.go:40-66 | the session's first message, the previous summary if there is one, survives exactly when others appended between counting and loading |
| Compaction.LateWritersComeAfter | pkg/agent/compaction.go:112-149 | what others append while the old messages are summarised is as if appended after the compaction |
| Compaction.TwoSummaries | pkg/agent/compaction.go:40-66 | a run that ends with two summaries |
| Compaction.SummaryIsLost | pkg/agent/compaction.go:138-153 | a run that loses the old messages and their summary |
| Compaction.SessionHoldsSummaryAndTail | pkg/agent/compaction.go:59-149 | over every run of turns and undisturbed compactions, whatever fails: a session is the tail of what was said, in order and at least the last ten, behind at most one generated summary |
| Compaction.BeginTurn | pkg/agent/agent.go:264-309 | store, compact, load: what the rows are when any of them fails; without other writers the load ends with the user message, and is the whole session unless compaction failed |
| Memory.Store.Set | pkg/memory/memory.go:56-79 | upsert, refused exactly for an immutable key that is found present; lookup and upsert may fail; as one sequential operation |
| Memory.Store.Delete | pkg/memory/memory.go:81-96 | deletion, refused for immutable and missing keys |
| Memory.Store.BuildContext | pkg/memory/memory.go:131-152 | each key that differs from the last snapshot is emitted exactly once, in key order; nothing when listing fails |
| Memory.BeforeIsLexicographic | pkg/memory/memory.go:98-105 | the order in which keys are listed is lexicographic |
| Memory.BuildInforms | pkg/memory/memory.go:137-151 | after a build the reader of the deltas knows every live value |
| Memory.ReplayAgrees | pkg/memory/memory.go:131-152 | over any run, replayed deltas agree with the store on every live key |
| Memory.ImmutableChangesExactlyWhen | pkg/memory/memory.go:56-79 | a present immutable key changes at a sequential operation exactly when its lookup fails, the upsert succeeds and the value differs |
| Memory.ImmutableValue | pkg/memory/memory.go:56-96 | through every sequential run its value is that of the last such write, or the first one |
| Memory.ImmutableStays | pkg/memory/memory.go:56-96 | it keeps its first value through every sequential run in which no lookup before a write to it fails |
| Memory.OverwriteImmutable | pkg/memory/memory.go:59-79 | a run that overwrites an immutable key |
| MemorySteps.TwoStepsAreSet | pkg/memory/memory.go:56-79 | a lookup directly followed by its upsert is the sequential operation |
| MemorySteps.ChangesExactlyWhen | pkg/memory/memory.go:56-79 | in any interleaving a present immutable key changes at a step exactly if that upserts another value for it |
| MemorySteps.ImmutableStays | pkg/memory/memory.go:56-79 | it keeps its value in every interleaving while no other value for it is in flight at the start and no lookup of it fails |
| MemorySteps.CanChangeExactlyWhen | pkg/memory/memory.go:56-79 | with lookups that succeed it can change exactly when a set that looked it up before carries another value |
| MemorySteps.SetsRace | pkg/agent/executor/executor.go:50-53 | a run of two parallel sets that overwrites an immutable key with every lookup succeeding |
| SmartContext.ToldExactlyWhen | pkg/agent/agent.go:782-808 | a session that knew its snapshot knows it after a turn exactly when what changed was not lost, or was known already |
| SmartContext.LostExactlyWhen | pkg/agent/agent.go:337-378 | a turn loses a change exactly if the builder skips it, nothing fits beside it, or every model call fails |
| SmartContext.ChangesArePrompted | pkg/agent/agent.go:782-808 | every changed value that the builder does not skip stands in the prompt of the turn, in a line of its own behind its key |
| SmartContext.ViewIsTold | pkg/agent/agent.go:782-808 | whatever counts as told stands in the prompt of a turn of the session with an accepted request, as the last told of its key |
| SmartContext.SessionIsInformed | pkg/agent/agent.go:782-808 | over every run of changes and turns of all sessions, in a session none of whose turns loses a change every live value stands in the prompt of a turn with an accepted request, and no later one tells another |
| SmartContext.LostIsNotRepeated | pkg/agent/agent.go:794-804 | what a turn lost does not count as changed at the next one |
| SmartContext.PromptLeavesNoRoom | pkg/agent/agent.go:348-351 | a run in which a value is in the prompt, no request goes out, and the value is never told |
| SmartContext.SecondSessionIsNotTold | pkg/agent/context.go:56-62 | a run in which the second session of an agent is told nothing |

## Left out

- HTTP, WebSocket, gRPC, MCP, browser and chat-platform adapters, command line, setup and web page: wiring over libraries that are not part of this model.
- Credential encryption, skill signatures, sandboxing and path resolution: foreign cryptography and operating system behaviour.
- Verification gates, checkpoints, scheduler, session map, spawn results and A2A tasks: short lookups that would add easy members only.
- Logs, metrics, audit rows, prompt and error wording, wall-clock delays: no effect on the modelled state.
- Image bytes: images are counted, kept or stripped; loading their data from disk is not modelled.
- TurnLoop.HandleCalls: the start, approval and done events of one batch are one marker event, so their interleaving is not modelled.
- ToolBatch.RunBatch: runs the tasks in index order; that each fills its own slot once under every interleaving is `ExecutorSteps.ExecutorSafety`.
- FileCache.Cache.Get: the copy made after unlocking is one atomic read of the entry.
- OpenAI.ReadStream: scanner errors are not told apart from the end of the stream, as in the source; the same holds for `Gemini.ReadStream`.
- OpenAI.AgreesExactlyWhen: a stream with tool deltas after a finish mark is not covered.
- Memory.Store.Set: one operation; the interleaving of its lookup and its upsert with other threads is module MemorySteps.
- Pairing.SessionMatches: that the tool messages of turns follow one another, turn by turn, is `SessionLocks.TurnsAreSerialised`.
- Store.Store.RecentMessages: among equal timestamps the newest insertion counts as newest; the database leaves that order open.
- Retry.SortByPriority: the order among equal priorities is left open, as in the source.
- Compaction.CompactSession: the text handed to the summariser is not modelled; others write between counting and loading only, and `Compaction.LateWritersComeAfter` covers what they write later.
- ChatRetry.ChatWithRetry: the waiting itself; the delay of each wait is computed.
- Turn.StoreMirrorsHistory: ids and times of the persisted messages are left out.
- Turn.TurnSafety: the answer's text and usage, which the done event repeats, are not part of the event; a hint is told by its kind and content, not by its wording.
- TurnLoop.RunTurn: what the loop persists is listed in its final state and not written to the store object.
- Recovery.RetriedExactlyWhen: the waits between retries of a tool are not computed.
- CacheSteps.StaleExactlyWhen: assumes one idle thread, which any further read of the file provides.
