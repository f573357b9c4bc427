# RavBot: a verified model

RavBot is a chat-agent gateway. This project models the parts of it that are algorithms and state
machines, and proves what they promise for every input, every run and every interleaving:

* **The command queue** (`QueueText`, `SessionLane`, `CommandQueue`, `QueueRuns`, `QueueSafety`,
  `QueueLaws`, `QueueBounds`, `QueueSummaries`, `Subsequences`): per-session lanes with five modes
  and three overflow policies, and the dispatcher with its global limit. The classes are proved
  against functions on their views; runs are sequences of critical sections in any order, with a
  ledger of what became of each command.
* **The message pipeline** (`Messages`, `ToolPairing`, `TurnCollapse`, `TurnMerging`, `ReplayTrim`,
  `TurnValidator`, `RequestSanitizer`, `StepLaws`, `ReplayHints`, `RequestLaws`): from the
  conversation to the request that is sent, and the pairing of tool calls with tool results that
  Anthropic's API demands.
* **The agent loop** (`ProviderRetry`, `AgentTurns`, `AgentLaws`, `TurnLaws`, `OverflowRecovery`,
  `OverflowLimits`): retries, failover, tool calls, the two guards and the overflow recovery. All
  that the agent does not control (stop flag, replies, resolved providers, tool outcomes) is an
  `Environment` of arbitrary functions of the moment at which the agent looks, so the laws hold for
  every behaviour of the outside.
* **History pruning and compression** (`ContextPruner`, `PruneLaws`), and what cuts do to tool calls
  (`PairingCuts`).
* **Telegram** (`TelegramChunker`, `Delivery`): cutting long messages, and the way of an update
  from the duplicate check to its chat's worker.
* **Indexes** (`RankFusion`, `Ranking`, `HnswIndex`, `MappingCuts`, `FailedLoads`, `Bytes`,
  `PostingLists`, `StructuredMemory`, `MemoryImports`, `EmbeddingCache`): each shown to agree with
  something simpler.
* **Smaller cores** (`LineProtocol`, `ConfigPaths`, `Subagents`, `SpawnRaces`). `Seqs` holds
  sequence facts.

A loop of the source is a method with a loop here. A method with several results of interest is
proved equal to a specification function or predicate, and the lemmas are about that; what each such
function computes is also said without it, message by message or command by command (`StepLaws`,
`ReplayHints`, `RequestLaws`, `TurnLaws`, `QueueLaws`, `PruneLaws`). Where the source iterates a
hash map, the order is arbitrary; where it reads a clock or makes an id, that is a parameter.

`dafny verify dfyconfig.toml` checks everything.

## What the code does against what it says

* Telegram chunks can have 4001 bytes; the limit is documented as 4000 (`TelegramChunker.OverlongIff`).
* "At most one active command per session" fails after an interrupt or abort, because completion
  frees the lane whatever it holds; `QueueSafety.InFlightLaw` gives the exact count and
  `QueueSafety.AbortOverlaps` an instance.
* Steering messages bypass the cap, and by how much is `QueueBounds.WithinCapIff` and
  `QueueBounds.QueueBounded`. An interrupt keeps the most recent pending command. Followup mode
  drains nothing when a single command is left (`QueueBounds.DispatchLeavesIff`).
* A raw message that begins with the summary marker is believed, or loses its text
  (`QueueText.ForgedHeaderBelieved`, `QueueText.MarkedTextLost`); `QueueText.AbsorbRenderedIff`
  says exactly when a summary reads as what was merged.
* The comment in the agent loop says that tool choice is reset to auto except during the guard's
  retry. The flag is never cleared: if the first answer is rejected a tool call is forced for the
  rest of the turn, and a later rejection is retried without forcing (`AgentLaws.ToolChoice`).
* The overflow recovery can lengthen a short request and, for a single message, reads before the
  beginning of the list (`AgentLaws.CompactionShrinksIff`, `AgentLaws.OutOfRangeIff`). Told from
  the request, it needs that only the user has messages in it (`OverflowLimits.NeverOutOfRangeIff`).
* A truncated mapping file always loads as success; it does no harm exactly when only zero bytes
  are missing (`MappingCuts.CutFileAccepted`, `MappingCuts.CutFileHarmlessIff`).
* A mapping file that fails to load midway leaves its first entries behind with a next label of 0,
  so later vectors get labels that are taken (`FailedLoads.LabelTwiceIff`).
* Compression is told to keep tool calls and results, but its cut may tear a result from its call,
  and so may the overflow recovery (`PairingCuts.CompressedPairedIff`, `PairingCuts.CompressTearsPair`,
  `PairingCuts.RecoveryPairedIff`); only requests to Anthropic are repaired afterwards.
* An update that changes a title leaves the words counted from the old one, so an import of an
  export need not restore an entry (`StructuredMemories.ImportExportIff`). One that changes a metadata
  id can make an export hold an id twice; importing it may leave stale postings
  (`MemoryImports.ImportValidIff`).
* The limit on running children does not hold back a parent's first spawn
  (`Subagents.LimitHoldsIff` is exact), nor spawns that race between check and insertion
  (`SpawnRaces.RacingBounded`, `SpawnRaces.BoundReached`).
* After the watermark is lowered, older updates come through after newer ones
  (`Delivery.LoweringReordersIff`).
* After the trim step only the forward direction of pairing is safe (`ReplayTrim.TrimPairedIff`),
  and the collapse step is idempotent only where no finished turn answers an unfinished one
  (`TurnCollapse.CollapseIdempotentIff`).

## Model

| member | source | states |
|---|---|---|
| `Messages.PairedIff` | src/core/agent_loop.cpp:601-683 | the head-first notion of two-way pairing used in the proofs is exactly: every tool call with an id is answered by the user message right after it, and every tool result of a user message answers a call of the assistant message right before it |
| `ToolPairing.RepairAnthropicToolPairing` | src/core/agent_loop.cpp:601-683 | the index loop with its two look-ahead branches computes `Repair`, the function the next four rows are about |
| `ToolPairing.RepairPaired` | src/core/agent_loop.cpp:601-683 | for every message list the repaired list is paired in both directions |
| `ToolPairing.RepairFixpoints` | src/core/agent_loop.cpp:601-683 | repair changes nothing exactly when the list is already paired and tidy (no empty user message, no nameless call beside named ones, no timestamp it would drop) |
| `ToolPairing.RepairIdempotent` | src/core/agent_loop.cpp:601-683 | repairing twice is repairing once |
| `ToolPairing.RepairRemovesNothingElse` | src/core/agent_loop.cpp:601-683 | apart from assistant tool calls and user tool results the flattened (role, block) sequence is unchanged but for inserted "[tool calls omitted]" texts, and no user word is touched |
| `StepLaws.RepairExactly` | src/core/agent_loop.cpp:601-683 | for every list the repaired one has, in order and in their roles, exactly these blocks and placeholders: results that answer a call of the assistant message before, calls that the user message after answers (all of a message without ids), and everything else |
| `TurnCollapse.CollapseCompletedToolTurns` | src/core/agent_loop.cpp:774-799 | the loop computes `Collapse`: a calling turn, its results and the assistant reply after them shrink to the reply |
| `TurnCollapse.CollapsePaired` | src/core/agent_loop.cpp:774-799 | collapsing keeps two-way pairing, whatever calls were open before the list |
| `TurnCollapse.CollapseUserWords` | src/core/agent_loop.cpp:774-799 | collapsing loses nothing a user wrote |
| `StepLaws.CollapseKeepsPlain` | src/core/agent_loop.cpp:774-799 | every message that neither calls tools nor holds results alone stays, as it was and in order |
| `TurnCollapse.CollapseUnchanged` | src/core/agent_loop.cpp:774-799 | a list is left alone exactly when no completed tool turn stands anywhere in it; it never grows |
| `TurnCollapse.CollapseNotIdempotent` | src/core/agent_loop.cpp:774-799 | a concrete list on which a second pass collapses more |
| `TurnCollapse.CollapseIdempotentIff` | src/core/agent_loop.cpp:774-799 | for every list a second pass changes nothing exactly when nowhere a calling turn and its results are followed by a turn that itself collapses |
| `TurnMerging.MergeConsecutiveUserMessages` | src/core/agent_loop.cpp:685-700 | appending to the last result in place computes `Merge` with the first timestamp kept |
| `TurnMerging.MergeNoAdjacent` | src/core/agent_loop.cpp:685-700 | after merging no two neighbours have the merged role |
| `TurnMerging.MergeFlatten` | src/core/agent_loop.cpp:685-700 | merging leaves the flattened (role, block) sequence exactly as it was |
| `TurnMerging.MergeUsersPaired` | src/core/agent_loop.cpp:685-700 | merging user messages keeps two-way pairing |
| `TurnMerging.MergeUnchanged` | src/core/agent_loop.cpp:685-700 | a list without such neighbours is unchanged |
| `StepLaws.MergeIsMerged` | src/core/agent_loop.cpp:685-700 | each merged message is a run of neighbours, of several only in the merged role: their blocks in order, and the first timestamp or, for the validator, the last one that is not empty |
| `ReplayTrim.TrimReplayToCurrentTurn` | src/core/agent_loop.cpp:735-772 | a conversation that ends in a result-only message, and in which a user speaks somewhere after the leading system messages, is cut to those system messages and everything from the last message in which a user speaks; any other is left alone |
| `ReplayTrim.TrimmedUnique` | src/core/agent_loop.cpp:735-772 | that description determines the result |
| `ReplayTrim.TrimForward` | src/core/agent_loop.cpp:735-772 | trimming keeps every remaining call answered |
| `ReplayTrim.TrimPairedIff` | src/core/agent_loop.cpp:735-772 | of a paired list the trimmed one is paired in both directions exactly when the trim does not start at a user message that also answers a call |
| `ReplayTrim.TrimUserWords` | src/core/agent_loop.cpp:735-772 | what remains of the users' words is the end of them, and is empty only if there were none |
| `ReplayTrim.CollectTrailingReplayToolNames` | src/core/agent_loop.cpp:813-852 | the ids answered by the last message, if it is the user's (result-only or not), are looked up backwards: the result is the names of the calls with those ids in the nearest earlier assistant message that has any |
| `ReplayHints.ReplayNamesIff` | src/core/agent_loop.cpp:813-852 | a name is among the result exactly when the last message is the user's and the nearest earlier assistant message with a named call whose id it answers has such a call of this name |
| `ReplayTrim.MaybeAddReplayInstruction` | src/core/agent_loop.cpp:854-882 | adds the hint as a system message after the leading ones when a web search is replayed and no system text has it yet |
| `ReplayTrim.AddHintOnce` | src/core/agent_loop.cpp:854-882 | after the step the hint is there, and running it again on its own output, for any tool names, changes nothing |
| `RequestLaws.HintSentIff` | src/core/agent_loop.cpp:854-939 | the request for a paired and tidy conversation that ends in results and has no hint yet has the hint exactly if a call of web_search is answered there, right behind the leading system messages, which all stay, as do the calls and results at the end |
| `TurnValidator.StripDanglingToolUses` | src/core/turn_validator.cpp:67-140 | computes `Strip`: calls the following user message leaves unanswered are dropped, a placeholder taking the place of an emptied message |
| `TurnValidator.StripUnchanged` | src/core/turn_validator.cpp:67-140 | stripping leaves a forward-paired tidy list alone |
| `StepLaws.StripExactly` | src/core/turn_validator.cpp:67-140 | message by message: a message that calls tools before a user message keeps exactly the calls that one answers and its other blocks, or a placeholder; every other message is untouched |
| `TurnMerging.MergeConsecutiveRole` | src/core/turn_validator.cpp:143-173 | skipping empty messages and extending the last result in place is merging what has content, the newest timestamp kept |
| `TurnValidator.ValidateAndFix` | src/core/turn_validator.cpp:23-42 | dispatches to the fix registered for the provider and leaves other providers' messages alone |
| `TurnValidator.FixAnthropicLaws` | src/core/turn_validator.cpp:50-57 | no two user messages in a row, forward pairing kept, no user word lost |
| `TurnValidator.FixGoogleLaws` | src/core/turn_validator.cpp:60-64 | no two assistant messages in a row, every block in its place |
| `RequestSanitizer.SanitizeRequestMessages` | src/core/agent_loop.cpp:921-948 | the whole chain repair, collapse, merge, trim, hint, validate, in order and per provider |
| `RequestSanitizer.AnthropicRequestSound` | src/core/agent_loop.cpp:921-948 | for every conversation the request has no two user messages in a row and answers every call with an id in the very next message; what is left of the users' words is the end of them, and empty only if they said nothing |
| `RequestLaws.CurrentTurnOnly` | src/core/agent_loop.cpp:921-939 | without a validator a request that ends in results alone has a user's words only in its first message after the leading system messages: earlier turns are gone |
| `RequestLaws.FinishedTurnsGone` | src/core/agent_loop.cpp:921-939 | if no finished tool turn answers an unfinished one, the request, without a validator, contains no finished tool turn |
| `RequestSanitizer.SettledUnchanged` | src/core/agent_loop.cpp:921-948 | a conversation that already has the required shape is sent unchanged |
| `ProviderRetry.TryProvider` | src/core/agent_loop.cpp:1131-1211 | the retry loop on one provider: it ends the execution, or leaves the failure that failover starts from |
| `ProviderRetry.ExecuteWithRetry` | src/core/agent_loop.cpp:1121-1267 | for every environment (stop flag, replies, resolver) the calls made, their requests, the final outcome and the provider are those of `Executed`: each call follows from the one before by the retry and failover rules |
| `ProviderRetry.CallsBounded` | src/core/agent_loop.cpp:1128-1266 | at most 20 * (max_retries + 1) provider calls in one execution |
| `ProviderRetry.AllAttemptsUsedIff` | src/core/agent_loop.cpp:1128-1266 | that many calls are made exactly when the last call is the last retry of the twentieth provider and every call before it failed for a reason worth a retry or with its retries used up |
| `ProviderRetry.OutageUsesAllAttempts` | src/core/agent_loop.cpp:1128-1266 | one case of it: an outage that never ends and in which every failover finds another provider makes all these calls and ends with every attempt used up |
| `ProviderRetry.OnlyTheLastIsFinal` | src/core/agent_loop.cpp:1137-1165 | every reply but the last is a provider error other than a context overflow |
| `ProviderRetry.CallsFollow` | src/core/agent_loop.cpp:1131-1266 | call by call: the first goes to the given provider, none only if stopped right away; after a rate limit, transient error or timeout with retries left the same provider is called again, after every other failure but an overflow the one the resolver then gives, with what was sent before made fit for it |
| `ProviderRetry.FailureEndsIff` | src/core/agent_loop.cpp:1167-1266 | an execution whose last call failed ends in that error exactly without a resolver, exhausted exactly when a resolver has no other provider to give or the twentieth failed, and stopped exactly when a stop was seen |
| `ProviderRetry.RetryOrFailover` | src/core/agent_loop.cpp:1167-1256 | the next call repeats the provider exactly after a retryable error with retries left; otherwise it is the next round, on a different provider unless it is the first failover |
| `ProviderRetry.RequestsSound` | src/core/agent_loop.cpp:1138-1140 | every request an Anthropic provider gets in an execution is well-formed, however often the messages were rewritten before |
| `AgentTurns.HandleToolCalls` | src/core/agent_loop.cpp:2256-2294 | exactly one result per call, in order: the tool's text, "Error executing tool: " and the cause, or the abort text from the first stop seen on |
| `TurnLaws.ToolTextsAre` | src/core/agent_loop.cpp:2256-2294 | text i is what tool call i returned, or "Error executing tool: " and what it threw, or the abort text if a stop was seen before it or before an earlier call |
| `AgentTurns.RunTools` | src/core/agent_loop.cpp:1584-1618 | the assistant message with the calls and the user message with one result per call, truncated |
| `TurnLaws.ToolsAnswered` | src/core/agent_loop.cpp:1584-1623 | a reply with calls adds the assistant message with its text, if any, and every call, and the user message with one result per call, under its id and with its own text truncated, to the next request and to what is returned, and uses up an iteration |
| `AgentTurns.TakeResponse` | src/core/agent_loop.cpp:1583-1707 | what the loop makes of a response: tool round, one of the two guard retries, final answer, or leaving the loop |
| `TurnLaws.TextAnswered` | src/core/agent_loop.cpp:1624-1707 | a reply without calls is answered with the lookup correction if it defers the lookup, once a turn, else with the search correction if it dumps raw results of a replayed web_search, once a turn, and else ends the turn |
| `AgentTurns.CompactOverflow` | src/core/agent_loop.cpp:1718-1730 | the request after an overflow: prompt, notice, and the last max(2, n/2) messages |
| `TurnLaws.OverflowAnswered` | src/core/agent_loop.cpp:1711-1735 | the first three overflows leave prompt, notice and the newer half of the request, at least two messages, and use up no iteration; later ones are raised |
| `AgentTurns.ProcessTurn` | src/core/agent_loop.cpp:1561-1761 | for every environment the passes of the loop and its result are those of `TurnOf` |
| `TurnLaws.GivesUpIff` | src/core/agent_loop.cpp:1561-1761 | a turn that nobody stops gives up exactly when a reply has neither text nor calls, or when max_iterations replies are used up and the last one does not conclude it |
| `TurnLaws.RaisedIff` | src/core/agent_loop.cpp:1708-1744 | a turn ends in a failure exactly when its last pass has it and it is not an overflow that is recovered from, and that failure is what it ends with |
| `AgentLaws.PassesBounded` | src/core/agent_loop.cpp:1556-1714 | at most max_iterations + 3 passes |
| `AgentLaws.TurnBounded` | src/core/agent_loop.cpp:1556-1714 | at most (max_iterations + 3) * 20 * (max_retries + 1) provider calls in a turn |
| `AgentLaws.EveryRequestSound` | src/core/agent_loop.cpp:1561-1730 | in every pass of every turn, after any tools, errors, corrections and compactions, an Anthropic provider only gets requests without consecutive user messages and with every call answered |
| `AgentLaws.NoCallAfterStop` | src/core/agent_loop.cpp:1133-1135 | once the stop flag stays set no provider is called any more |
| `AgentLaws.ReturnedMessages` | src/core/agent_loop.cpp:1600-1693 | the returned list is rounds of calls, each answered one result per call in the calls' order, and one final text; it is forward-paired, and two-way paired exactly when every call has an id |
| `AgentLaws.ReturnedExactly` | src/core/agent_loop.cpp:1583-1757 | the returned list is exactly what the passes called and got for it, in order and each once, followed by the text of the last response if no guard rejects it and by the stop notice otherwise |
| `AgentLaws.LookupGuardOnce` | src/core/agent_loop.cpp:1634-1661 | the lookup guard rejects at most one reply per turn |
| `AgentLaws.ToolChoice` | src/core/agent_loop.cpp:1542-1567 | a request forces a tool call exactly for a lookup before the first answer, or, for all the rest of the turn, when that first answer was the rejected one |
| `AgentLaws.CompactionShrinksIff` | src/core/agent_loop.cpp:1718-1730 | the overflow recovery shortens the request exactly from four messages on, five with a system prompt |
| `AgentLaws.CompactionKeepsEnd` | src/core/agent_loop.cpp:1718-1730 | it keeps the last two messages |
| `PairingCuts.RecoveryPairedIff` | src/core/agent_loop.cpp:1718-1730 | of a paired request the recovery leaves a paired one exactly when the messages it keeps do not start with an answer to calls |
| `AgentLaws.OutOfRangeIff` | src/core/agent_loop.cpp:1718-1730 | the loop copies from before the beginning of the list exactly when one of the first three overflows meets a request of fewer than two messages; the next four rows tell this from the request a turn starts with |
| `OverflowRecovery.PromptedNeverOutOfRange` | src/core/agent_loop.cpp:1561-1730 | with a system prompt, no turn whose request starts with a system message and has words of a user does so, for every environment and whatever failovers rewrite the request on the way |
| `OverflowLimits.NeverOutOfRangeIff` | src/core/agent_loop.cpp:1561-1730 | for every request without empty messages that ends with words of the user: no turn does so exactly when somebody besides the user has a message in it, or no pass is made at all; otherwise there is a turn that does |
| `OverflowLimits.OutOfRangeOnlyFirst` | src/core/agent_loop.cpp:1561-1730 | for such requests only the first overflow of a turn can, with or without a prompt: a request once compacted stays long enough for every provider |
| `OverflowLimits.DanglingResultsOverflowLater` | src/core/agent_loop.cpp:1561-1730 | a request that ends in results nobody asked for can also do so after it has been compacted, once a failover lets the pairing repair remove them |
| `AgentLaws.LoneMessageOverflows` | src/core/agent_loop.cpp:1718-1730 | which does happen for a first message without history and system prompt |
| `QueueText.FirstSummaryIs` | src/gateway/command_queue.cpp:116-181 | the text that two raw messages become, word for word: the header with count 2 and the first 150 characters of each |
| `QueueText.HeaderReadBack` | src/gateway/command_queue.cpp:116-181 | the count and the body printed into a summary header are parsed back unchanged |
| `QueueText.AbsorbRendered` | src/gateway/command_queue.cpp:116-181 | absorbing one more message into a message or a summary of n messages reads as the summary of n + 1 |
| `QueueText.ForgedHeaderBelieved` | src/gateway/command_queue.cpp:116-181 | a raw message that starts with a well-formed header is taken for a summary, its forged count included |
| `QueueText.AbsorbedAsRawIff` | src/gateway/command_queue.cpp:116-181 | a message is merged as the raw text it is exactly when it does not start with the marker, or reads by accident as one message whose text is its own beginning |
| `QueueText.ShortAbsorbedIff` | src/gateway/command_queue.cpp:116-181 | up to 150 characters: exactly when it does not start with the marker |
| `QueueText.MarkedTextLost` | src/gateway/command_queue.cpp:116-181 | a message with the marker and no end of a header loses its whole text |
| `QueueText.AbsorbRenderedIff` | src/gateway/command_queue.cpp:116-181 | absorbing gives the summary of one message more exactly when there were two or more messages already or the only one reads as raw |
| `SessionLanes.SessionLane.TryActivate` | src/gateway/command_queue.cpp:92-106 | activates the oldest pending command exactly when none is active and its debounce has passed |
| `SessionLanes.SessionLane.CompleteActive` | src/gateway/command_queue.cpp:108-114 | clears the marker without looking at which command finished, and returns what it held as completed |
| `SessionLanes.SessionLane.ApplyCapOverflow` | src/gateway/command_queue.cpp:116-181 | the loop terminates with the queue and the dropped ids of `Overflow` |
| `SessionLanes.SessionLane.DrainPendingAsSteeringText` | src/gateway/command_queue.cpp:183-192 | empties the queue into its texts, in order, separated by blank lines |
| `QueueLaws.SteeringIs` | src/gateway/command_queue.cpp:183-192 | the text is the messages in order, joined by blank lines, from the first one on that is not empty |
| `QueueLaws.SteeringConcatIff` | src/gateway/command_queue.cpp:183-192 | the text of two queues behind each other is both texts joined by a blank line exactly when the second starts with a message that is not empty or is a single one |
| `SessionLanes.SessionLane.CancelPending` | src/gateway/command_queue.cpp:194-202 | removes the first pending command with the id, and says whether there was one |
| `SessionLanes.SessionLane.InterruptActive` | src/gateway/command_queue.cpp:204-215 | clears the marker and all pending commands but the most recent |
| `SessionLanes.OverflowSize` | src/gateway/command_queue.cpp:116-181 | with cap >= 1 exactly min(size, cap) commands stay, under every policy |
| `SessionLanes.DropOldestKeepsNewest` | src/gateway/command_queue.cpp:116-181 | drop-oldest keeps the newest cap in order and drops the others oldest first |
| `SessionLanes.RejectKeepsOldest` | src/gateway/command_queue.cpp:116-181 | reject keeps the oldest cap in order and drops the others newest first |
| `SessionLanes.SummarizeDrops` | src/gateway/command_queue.cpp:116-181 | summarize drops the ids right behind the head |
| `SessionLanes.SummaryReadsItsMessages` | src/gateway/command_queue.cpp:116-181 | n raw submissions under summarize, overflow applied after each, leave min(n, cap) commands whose head reads as the count and the 150-character quotes of the messages it absorbed |
| `SessionLanes.SummarizeRenders` | src/gateway/command_queue.cpp:116-181 | one overflow of any excess, over any queue whose head reads as n messages, leaves a head that reads as those and exactly the messages merged into it, the rest of the queue as it was |
| `CommandQueues.CommandQueue.Submit` | src/gateway/command_queue.cpp:301-379 | new state and dropped ids of a submission: lane creation, effective mode, interrupt, steering bypass, overflow, id bookkeeping |
| `QueueLaws.SubmitIs` | src/gateway/command_queue.cpp:301-379 | a default mode is replaced by the session's; interrupting frees the lane and leaves the newest command; the new one comes last; a steering one to a busy lane is queued whatever the cap; any other beyond the cap cuts the queue down by the policy, with exactly these ids dropped |
| `CommandQueues.CommandQueue.Cancel` | src/gateway/command_queue.cpp:381-390 | new state of a cancellation; the id is forgotten only if it was pending |
| `CommandQueues.CommandQueue.AbortSession` | src/gateway/command_queue.cpp:392-404 | new state of an abort: marker cleared, all pending but the newest forgotten |
| `QueueLaws.AbortIs` | src/gateway/command_queue.cpp:392-404 | the lane is freed with its newest command left, the active id is forgotten and no other, and no other lane changes |
| `CommandQueues.CommandQueue.ConfigureSession` | src/gateway/command_queue.cpp:406-417 | changes only the given settings of the one lane |
| `QueueLaws.ConfigureIs` | src/gateway/command_queue.cpp:406-417 | every setting given is taken, every other stays as the session or, for a new one, the queue has it |
| `CommandQueues.CommandQueue.DispatchRound` | src/gateway/command_queue.cpp:453-537 | for every iteration order of the lanes: state and commands of one dispatcher round, idle lanes dropped at its end |
| `QueueLaws.RoundIs` | src/gateway/command_queue.cpp:453-537 | a round hands on, in lane order and one a lane, only what due lanes dispatch: nothing active and the oldest command older than the debounce time |
| `QueueLaws.DispatchedIs` | src/gateway/command_queue.cpp:481-525 | the command dispatched is the oldest one but for its state and, in collect mode, collectedMessages: the messages of all the others in order of submission, joined by blank lines |
| `QueueLaws.DispatchLeaves` | src/gateway/command_queue.cpp:481-525 | the lane has that command active and nothing pending in collect mode or in followup mode with more than one other, and all the others else |
| `CommandQueues.CommandQueue.CompleteCommand` | src/gateway/command_queue.cpp:555-577 | the worker's completion: the count goes down and the lane's marker is cleared whatever it holds |
| `QueueRuns.DispatchKeysAgree` | src/gateway/command_queue.cpp:453-537 | the dispatch that keeps the ledgers is the manager's own dispatch |
| `QueueSafety.RunInv` | src/gateway/command_queue.cpp:301-577 | over all interleavings of submits, cancels, aborts, reconfigurations, rounds and completions every session's books balance: owners, ledgers, counts and markers agree |
| `QueueSafety.EveryCommandAccountedFor` | src/gateway/command_queue.cpp:301-577 | a submitted command is in exactly one place, once: pending, in flight, finished, dropped or merged, drained, cancelled, interrupted |
| `QueueSummaries.SummariesReadTheirMessages` | src/gateway/command_queue.cpp:116-379 | in every reachable state, after any submits, cancels, aborts, drains and changes of cap and policy, each session's head reads as the texts of its own and of dropped commands, in the order of submission, and every other pending command as its own text |
| `QueueBounds.WithinCapIff` | src/gateway/command_queue.cpp:301-379 | after a submission the lane is within its cap exactly when the command did not steer past the overflow check or there was room |
| `QueueBounds.QueueBounded` | src/gateway/command_queue.cpp:301-577 | over every run a session never has more pending than the largest cap configured plus the number of its submissions that steered past the check |
| `QueueBounds.DispatchLeavesIff` | src/gateway/command_queue.cpp:481-525 | a dispatch leaves commands pending exactly when there were others than the head, in followup mode exactly one other, and not in collect mode; it then leaves all of them |
| `QueueSafety.StartedInOrder` | src/gateway/command_queue.cpp:481-525 | what a session activated, followed by what it still has pending, is a subsequence of what was submitted to it, in that order |
| `QueueSafety.CancelSucceedsIffPending` | src/gateway/command_queue.cpp:381-390 | in every reachable state Cancel succeeds exactly on pending ids, and takes nothing else from any session |
| `QueueSafety.InFlightLaw` | src/gateway/command_queue.cpp:108-114 | the exact number of a session's commands in flight: marker plus interrupts minus completions that found no marker; without interrupts at most one, and two or more exactly when interrupts exceed such completions enough |
| `QueueSafety.ConcurrencyBounded` | src/gateway/command_queue.cpp:481-537 | active_count is the number of dispatched, unfinished commands and never exceeds a fixed limit >= 0 |
| `QueueSafety.RoundIsWorkConserving` | src/gateway/command_queue.cpp:481-537 | after a round a lane with a due head command and no active one is left waiting only if the limit is reached |
| `QueueSafety.AbortOverlaps` | src/gateway/command_queue.cpp:392-404 | aborting an active command with room left, submitting again and a round that looks at the session first, and at any other lanes after it, put two commands of the session in flight at once |
| `TelegramChunker.NextCut` | src/channels/telegram_channel.cpp:38-66 | each cut is at the last sentence end in reach, else the last space, else backed off to a character start |
| `TelegramChunker.CutIs` | src/channels/telegram_channel.cpp:38-66 | byte by byte: a rest of up to 4000 bytes is one chunk; else the cut is behind the last of the next 4000 bytes but the first that ends a sentence, else behind the last white space, else before the last one that starts a character, else after 4000 bytes |
| `TelegramChunker.SplitMessage` | src/channels/telegram_channel.cpp:29-68 | terminates with the chunks those cuts make, a single empty chunk for an empty message |
| `TelegramChunker.SplitCorrect` | src/channels/telegram_channel.cpp:29-68 | for every non-empty message: the chunks join to it, each has 1 to 4001 bytes, and valid UTF-8 (section 3 of RFC 3629) gives valid UTF-8 chunks |
| `TelegramChunker.OverlongIff` | src/channels/telegram_channel.cpp:38-66 | a chunk has 4001 bytes exactly when more text follows and the byte just past the limit is the break chosen |
| `TelegramChunker.CutAtBoundary` | src/channels/telegram_channel.cpp:56-62 | in valid text every cut falls between characters |
| `TelegramChunker.ContinuationMask` | src/channels/telegram_channel.cpp:56-62 | the bit test for continuation bytes is the range test the other proofs use |
| `Delivery.DeduplicationStore.Check` | src/channels/deduplication_store.cpp:22-32 | seen exactly when at or below the watermark or in the id set |
| `Delivery.NothingSeenYet` | src/channels/deduplication_store.cpp:22-32 | at first exactly the ids up to 0 count as seen |
| `Delivery.DeduplicationStore.MarkProcessed` | src/channels/deduplication_store.cpp:36-48 | the id is recorded and the watermark only rises |
| `Delivery.DeduplicationStore.Cleanup` | src/channels/deduplication_store.cpp:67-82 | erasing from the smallest id upwards removes exactly the ids below the retention threshold |
| `Delivery.CleanupKeepsIff` | src/channels/deduplication_store.cpp:67-82 | exactly the ids at most 10000 a day of the retention below the watermark stay |
| `Delivery.CleanupInvisible` | src/channels/deduplication_store.cpp:67-82 | with a non-negative retention a cleanup changes no answer of the store |
| `Delivery.LaneProcessor.Submit` | src/channels/lane_processor.cpp:17-55 | queues the handler in its lane, creating the lane, unless shut down |
| `Delivery.LaneProcessor.Fetch` | src/channels/lane_processor.cpp:98-133 | once the wait is over the worker takes the oldest handler, even when stopping, and stops only on an empty queue |
| `Delivery.WorkerIs` | src/channels/lane_processor.cpp:98-133 | a worker goes on while its lane runs, takes the oldest handler whenever there is one, waits on an empty queue while the lane runs and ends otherwise |
| `Delivery.TelegramChannel.HandleUpdate` | src/channels/telegram_channel.cpp:343-380 | an update without an id or already seen changes nothing; any other is recorded and, if it is a message, queued in its chat's lane |
| `Delivery.FeedIs` | src/channels/telegram_channel.cpp:343-380 | an update without an id, at or below the watermark or recorded changes nothing; any other is recorded, and a message goes last into the lane of its chat, or of "default", and into no other |
| `Delivery.DeliveredInOrder` | src/channels/telegram_channel.cpp:343-380 | under every interleaving of one poller, the workers, cleanups and a shutdown: accepted ids strictly increase, the handlers a chat started are a prefix of its accepted updates in that order, each once, and at most one runs |
| `Delivery.NothingLostBeforeShutdown` | src/channels/lane_processor.cpp:17-133 | until a shutdown every accepted update of a chat has been started or waits in its lane |
| `Delivery.LoweringReorders` | src/channels/deduplication_store.cpp:59-63 | setting the watermark below its value lets an older update through after a newer one |
| `Delivery.LoweringReordersIff` | src/channels/deduplication_store.cpp:59-63 | after the watermark is set to any value the next update keeps the accepted ids increasing exactly when it is refused, at or below the watermark or in the id set, or is newer than every accepted one |
| `ContextPruner.SoftPrune` | src/core/context_pruner.cpp:349-381 | line splitting and rejoining computes `SoftPruned` |
| `ContextPruner.SoftPruneKeepsEnds` | src/core/context_pruner.cpp:349-381 | a text of few lines is unchanged; of any other the first and last lines survive word for word, with exactly the notice of its size and of the number of lines left out between them |
| `PruneLaws.LinesAre` | src/core/context_pruner.cpp:349-381 | the lines hold no line break and put together are the text |
| `ContextPruner.Prune` | src/core/context_pruner.cpp:31-150 | the index lists and thresholds the loops build prune exactly the messages of `Pruned` |
| `PruneLaws.PruneIs` | src/core/context_pruner.cpp:31-150 | block by block: a result past the first user message and older than the last protect_recent assistant messages becomes the placeholder if it is older than the last hard_prune_after of them, else is shortened if it is longer than the limit; every other block stays |
| `PruneLaws.OldestGoFirst` | src/core/context_pruner.cpp:31-150 | a result is never made a placeholder where an older one that may be pruned is not |
| `PruneLaws.EffectiveIs` | src/core/context_pruner.cpp:31-75 | within the budget the thresholds are those given; over it they are lowered in proportion, stated with integers, down to 200, 1 and 3 |
| `ContextPruner.PruneKeepsPairing` | src/core/context_pruner.cpp:31-150 | pruning neither breaks nor mends the pairing of calls and results |
| `ContextPruner.PruneKeepsStart` | src/core/context_pruner.cpp:31-150 | everything up to and including the first user message is untouched |
| `ContextPruner.PruneKeepsTail` | src/core/context_pruner.cpp:31-150 | everything from the N-th last assistant message on is untouched |
| `ContextPruner.Compress` | src/core/context_pruner.cpp:152-227 | computes `Compressed`: pruned when over target, and cut when still over |
| `PruneLaws.CompressIs` | src/core/context_pruner.cpp:152-227 | a history within the target is returned as it is; one that pruning brings within it, or of no more than min_messages, is pruned; exactly the others are cut |
| `PruneLaws.CutKeeps` | src/core/context_pruner.cpp:190-222 | a cut keeps the newest n messages, and all system messages if they are preserved, n being the share of the messages that the target is of the tokens, at least min_messages, stated with integers |
| `PruneLaws.CompressOptionsAre` | src/core/context_pruner.cpp:152-188 | the thresholds compression prunes with, in proportion to target and tokens and no lower than 3, 5 and 500, by strategy |
| `ContextPruner.CompressedParts` | src/core/context_pruner.cpp:152-227 | a cut that preserves system messages returns all of them in order and then a suffix of the pruned others |
| `PairingCuts.CompactedPairedIff` | src/core/context_pruner.cpp:190-222 | cutting a paired history, system messages kept or not, leaves it paired exactly when the cut is not right before an answer to calls |
| `PairingCuts.CompressedPairedIff` | src/core/context_pruner.cpp:152-227 | compressing a paired history leaves it paired exactly when it is not cut or not cut right before an answer; the place of the cut is computed from the history given |
| `PairingCuts.CompressTearsPair` | src/core/context_pruner.cpp:152-227 | a paired history of nine messages that the default strategy cuts between a call and its result |
| `ContextPruner.CompressWithStats` | src/core/context_pruner.cpp:229-246 | messages removed and tokens saved are the true differences, and the first is never negative |
| `PruneLaws.EstimateIs` | src/core/context_pruner.cpp:14-29 | a history is estimated message by message, a message at a fourth, cut off, of the characters of its role and of the texts, results and call arguments of its blocks |
| `RankFusion.ApplyRrf` | src/core/vector_database.cpp:924-934 | adds each rank's weight to its id and keeps the first hit seen for it |
| `RankFusion.HybridSearch` | src/core/vector_database.cpp:891-959 | returns the min(limit, found) best ids, each once, scores non-increasing, none omitted better than one returned, with the vector hit's data where there is one; a negative limit is an error |
| `RankFusion.FusedHitIs` | src/core/vector_database.cpp:914-956 | a returned hit has the text and metadata of the first vector hit with its id, else of the first text hit, and as distance minus the sum of 1 / (61 + place) over the lists it is in |
| `RankFusion.CandidateLimitIs` | src/core/vector_database.cpp:901-902 | each search is asked for the larger of 30 and three times the limit |
| `Ranking.RankByScore` | src/core/vector_database.cpp:940-948 | any order an unstable sort may leave: all ids once, best first |
| `RankFusion.HigherScorePrecedes` | src/core/vector_database.cpp:940-956 | a returned id is preceded by every found id of higher score |
| `RankFusion.Dominance` | src/core/vector_database.cpp:920-956 | an id that ranks above another in both duplicate-free lists, and is in one of them, precedes it |
| `RankFusion.BothPrecedeOne` | src/core/vector_database.cpp:901-956 | up to limit 20 every id found by both searches precedes every id found by one |
| `RankFusion.BothFirstIff` | src/core/vector_database.cpp:901-934 | for duplicate-free candidate lists the ids found by both always outscore the ids found by one exactly for limits up to 20 |
| `HnswIndexes.HnswIndex.GetLabel` | src/core/hnsw_index.cpp:87-97 | returns the id's label, the next one if it had none |
| `HnswIndexes.HnswIndex.AddVector` | src/core/hnsw_index.cpp:107-153 | labels the id before the graph takes the point; success and new state, the rejected inputs included |
| `HnswIndexes.HnswIndex.AddVectorsBatch` | src/core/hnsw_index.cpp:155-210 | skips unusable vectors and succeeds exactly when one was added or none was given |
| `HnswIndexes.PointsAre` | src/core/hnsw_index.cpp:107-210 | after any vectors the graph holds a point under exactly the labels it did and those of the usable vectors it took |
| `HnswIndexes.SuccessesIff` | src/core/hnsw_index.cpp:155-210 | the count that decides success is positive exactly when a usable vector was taken |
| `HnswIndexes.HnswIndex.SaveMapping` | src/core/hnsw_index.cpp:324-345 | writes count, length-prefixed ids with labels in an arbitrary order, and the next label, in 8-byte little-endian words |
| `HnswIndexes.HnswIndex.LoadIndex` | src/core/hnsw_index.cpp:356-444 | what any file, truncated and oversized ones included, makes of the maps, byte by byte |
| `HnswIndexes.SaveThenLoad` | src/core/hnsw_index.cpp:324-425 | loading a saved mapping into a fresh or initialized index gives back both maps and the next label for every map order |
| `HnswIndexes.TruncatedFileAccepted` | src/core/hnsw_index.cpp:405-425 | a file cut off after its count loads as success with maps that contradict the next label |
| `MappingCuts.CutFileAccepted` | src/core/hnsw_index.cpp:405-425 | every saved file, cut off anywhere, loads as success |
| `MappingCuts.CutFileHarmlessIff` | src/core/hnsw_index.cpp:405-425 | the load restores the saved index exactly when all bytes cut off are zero |
| `HnswIndexes.AlwaysConsistent` | src/core/hnsw_index.cpp:87-105 | after any adds, batches, deletes, clears, saves and reloads of what was saved the maps are inverses, labels stay below the next one, and every graph point has a name |
| `FailedLoads.FailedLoadConsistentIff` | src/core/hnsw_index.cpp:356-444 | a load that fails leaves maps and next label consistent exactly when the first id already cannot be allocated; the index is then empty, and otherwise keeps labels with a next label of 0 |
| `FailedLoads.FailedLoadKeeps` | src/core/hnsw_index.cpp:405-444 | a saved file whose j-th id is the first that cannot be allocated leaves exactly the entries before it |
| `FailedLoads.LabelTwiceIff` | src/core/hnsw_index.cpp:87-153 | initialized anew and given n new ids, the index gives one of them a label that a loaded id already has exactly when an entry before the failing one has a label below n |
| `HnswIndexes.LabelsAreStable` | src/core/hnsw_index.cpp:87-97 | until a clear an id keeps its label |
| `LineProtocol.RpcServer.ProcessBuffer` | sidecar/src/rpc-server.ts:108-117 | the loop hands on the non-blank trimmed lines and leaves the unterminated rest |
| `LineProtocol.RpcServer.OnData` | sidecar/src/rpc-server.ts:68-71 | the same for the buffer with the chunk appended |
| `LineProtocol.LineHandled` | sidecar/src/rpc-server.ts:108-117 | a line is handed on as what is left without the white space around it, and not at all if that is nothing |
| `LineProtocol.WhiteAre` | sidecar/src/rpc-server.ts:108-117 | white space is that of ECMAScript, by code point |
| `LineProtocol.ChunkInvariant` | sidecar/src/rpc-server.ts:68-71 | however the stream is cut into data events, the lines handled are those of the whole stream and the buffer is its unterminated end |
| `LineProtocol.FramesReceived` | sidecar/src/rpc-server.ts:177-181 | any sequence of frames, cut anywhere, is received exactly |
| `LineProtocol.ReceivedIffFrame` | sidecar/src/rpc-server.ts:108-117 | a text sent as a line comes back as itself exactly when it is not empty, has no newline and no white space at its ends |
| `ConfigPaths.SplitDotPath` | src/core/config.cpp:524-537 | the scanning loop computes `Segments` |
| `ConfigPaths.SplitJoinIff` | src/core/config.cpp:524-537 | splitting undoes joining exactly for dot-free segments the last of which is not empty |
| `ConfigPaths.JoinSplitIff` | src/core/config.cpp:524-537 | joining undoes splitting exactly for paths that do not end in a dot |
| `ConfigPaths.SetValue` | src/core/config.cpp:571-590 | error on an empty path, type error on a root that is neither object nor null, else the tree of `Put` |
| `ConfigPaths.UnsetValue` | src/core/config.cpp:592-610 | error, type error, no write when the way is missing, else the tree of `Without` |
| `ConfigPaths.PutThenLookup` | src/core/config.cpp:571-590 | after a set the path and all below it read as the value |
| `ConfigPaths.PutFrame` | src/core/config.cpp:571-590 | a set changes nothing at any path that is neither prefix nor extension of it, even where it replaced non-objects |
| `ConfigPaths.DivergeIff` | src/core/config.cpp:571-610 | parting ways means that neither path is a prefix of the other |
| `ConfigPaths.PutTwice` | src/core/config.cpp:571-590 | the later of two sets at a path counts |
| `ConfigPaths.PutUnchangedIff` | src/core/config.cpp:571-590 | a set changes nothing exactly where the value was there already |
| `ConfigPaths.WithoutAbsent` | src/core/config.cpp:592-610 | after an unset the path and all below it are absent |
| `ConfigPaths.WithoutFrame` | src/core/config.cpp:592-610 | an unset changes nothing at any path that parts ways with it |
| `ConfigPaths.UnsetUndoesSetIff` | src/core/config.cpp:571-610 | unset undoes set exactly where the place was empty but the way to it was there |
| `PostingLists.PostAllCount` | src/core/structured_memory.cpp:67-73 | posting an id under keys adds one occurrence per key and touches no other id |
| `PostingLists.UnpostAllCount` | src/core/structured_memory.cpp:99-107 | taking an id back removes all its occurrences under those keys and touches no other id |
| `StructuredMemories.StructuredMemory.AddMemory` | src/core/structured_memory.cpp:46-88 | stores the entry and posts it under its dimensions, in any order, and its tags |
| `StructuredMemories.StructuredMemory.UpdateMemory` | src/core/structured_memory.cpp:90-130 | takes the old postings back, replaces content and metadata, with words counted under the old title, and posts anew; false and unchanged for an unknown id |
| `StructuredMemories.UpdateIs` | src/core/structured_memory.cpp:90-130 | only that entry changes, to the content and metadata given, and its words are those of content and title exactly if the change of title makes no difference to them |
| `StructuredMemories.StructuredMemory.DeleteMemory` | src/core/structured_memory.cpp:132-155 | takes the postings back and drops the entry |
| `StructuredMemories.AlwaysValid` | src/core/structured_memory.cpp:46-155 | over all adds under fresh ids, updates and deletes an id stands once under each of its dimension values and under each tag as often as its entry has it, and nowhere else |
| `StructuredMemories.StructuredMemory.SearchByDimension` | src/core/structured_memory.cpp:157-192 | the posted ids that have an entry, cut to the maximum if positive |
| `StructuredMemories.ResultsAre` | src/core/structured_memory.cpp:157-192 | each result is its entry's title, content and metadata under its id |
| `StructuredMemories.DimensionSearchIsFilter` | src/core/structured_memory.cpp:157-192 | unlimited, exactly the entries with that value, each once |
| `StructuredMemories.StructuredMemory.SearchByTags` | src/core/structured_memory.cpp:194-232 | counts postings per id, ranks, drops ids without entry, cuts, and scores by the share of the query |
| `StructuredMemories.TagSearchIsFilter` | src/core/structured_memory.cpp:194-232 | unlimited, exactly the entries that share a tag with the query, each once, more shared tags first |
| `StructuredMemories.StructuredMemory.SelectCandidates` | src/core/structured_memory.cpp:279-313 | the ids matching some dimension filter, if any, and some tag filter, if any, as the indexes have them |
| `StructuredMemories.CandidatesAre` | src/core/structured_memory.cpp:279-313 | which are exactly the matching entries |
| `StructuredMemories.StructuredMemory.ExportToJson` | src/core/structured_memory.cpp:415-439 | one element per entry, all fields, in any order |
| `StructuredMemories.StructuredMemory.ImportFromJson` | src/core/structured_memory.cpp:441-491 | clears, then stores and posts the elements one by one under their own ids |
| `StructuredMemories.ImportExportIff` | src/core/structured_memory.cpp:415-491 | importing an export restores the entries exactly when each is filed under its metadata id and its words are counted from its present content and title; the indexes are then in step |
| `MemoryImports.ImportValidIff` | src/core/structured_memory.cpp:441-491 | after importing any elements the indexes are in step with the entries exactly when of the elements with one id only the last has tags or dimensions |
| `Subagents.SubagentManager.Begin` | src/core/subagent.cpp:54-121 | a spawn that nothing interrupts is accepted exactly within depth, children and allow-list limits, and then recorded with its place in the parent's list |
| `Subagents.SpawnRecorded` | src/core/subagent.cpp:102-121 | the run recorded: label or the first 50 characters of the task, session key by agent, the rest as asked for, running |
| `Subagents.SubagentManager.CheckLimits` | src/core/subagent.cpp:54-98 | the three checks, with the one lock they take |
| `Subagents.MaySpawnIff` | src/core/subagent.cpp:54-98 | that is: depth below the limit, agent allowed, and a parent that has never spawned or has fewer running children, counted over all runs, than the limit |
| `Subagents.SubagentManager.Settle` | src/core/subagent.cpp:134-178 | an empty answer leaves the run running, a text completes it, an exception fails it, whatever state it is in by then |
| `Subagents.SubagentManager.CancelRun` | src/core/subagent.cpp:180-189 | cancels exactly a running run |
| `Subagents.SubagentManager.CleanupCompleted` | src/core/subagent.cpp:222-254 | the erase loops remove exactly the flagged runs that are over, from the index too, and return how many |
| `Subagents.AlwaysSound` | src/core/subagent.cpp:54-189 | after any steps with fresh ids, spawns inside a handler included but no two racing ones, every run stands exactly once in its own parent's list and nowhere else, and no parent has more than max(1, max_children) running children |
| `Subagents.RunningChildrenBounded` | src/core/subagent.cpp:54-189 | counted over all runs, a parent never has more than max(1, max_children) running children |
| `Subagents.NeverRestarts` | src/core/subagent.cpp:158-189 | a run that is over or cleaned up never runs again |
| `Subagents.FirstSpawnUnchecked` | src/core/subagent.cpp:69-88 | with a limit of zero or less a parent's first spawn is still accepted, under any allow-list it passes |
| `Subagents.LimitHoldsIff` | src/core/subagent.cpp:54-121 | every run keeps every parent at no more than max(0, max_children) running children exactly when max_children is at least 1, or max_depth allows no spawn at depth 0, or no spawn can pass the allow-list |
| `SpawnRaces.RacingBounded` | src/core/subagent.cpp:54-121 | with the lock let go between check and insertion, and at most k spawns of a parent between the two at a time, the parent has at most max(0, max_children - 1) + k running children in every run |
| `SpawnRaces.BoundReached` | src/core/subagent.cpp:54-121 | that bound is reached for every k of at least 1 and every limit: spawns one after the other up to one below the limit, then k that all check before one inserts |
| `Subagents.CleanupExact` | src/core/subagent.cpp:222-254 | the runs that stay are unchanged, the lists keep their order, and the index stays consistent |
| `EmbeddingCache.EmbeddingManager.GetEmbedding` | src/core/embedding_manager.cpp:120-143 | the answer is the current provider's for every faithful cache, hits and misses counted |
| `EmbeddingCache.EmbeddingManager.GetEmbeddingBatch` | src/core/embedding_manager.cpp:145-196 | answer i is the provider's for text i, whatever is cached, repeated or evicted on the way; every text is counted once as hit or miss |
| `EmbeddingCache.EmbeddingManager.AddToCache` | src/core/embedding_manager.cpp:257-270 | a full cache loses exactly one entry, an arbitrary one; the new one is there and every vector stays the provider's |
| `EmbeddingCache.EmbeddingManager.SetProvider` | src/core/embedding_manager.cpp:198-209 | an unknown name changes nothing; any other switches and empties the cache, so no stale vector survives |
| `EmbeddingCache.EmbeddingManager.SetMaxCacheSize` | src/core/embedding_manager.cpp:236-248 | any maximum, 0 included, is taken; a cache over it is emptied altogether |

## Left out

- HTTP, WebSocket, process, file and signal handling, channel send and receive loops, the command line.
- The streaming variants of execute_with_retry and ProcessMessage: the same retry rules with a callback.
- What ProcessMessage does before its loop (duplicate search, auto-compaction, focusing on the latest turn, prompt building) and the indexing after it.
- Text heuristics (lookup intent, deferred or negative replies, raw result dumps, cutting of tool results): arbitrary functions in `AgentTurns.Turn`.
- Backoff times, Retry-After, and the failover resolver's own bookkeeping: the wait is one look at the stop flag, and what the resolver returns is arbitrary.
- ProviderRetry.ExecuteWithRetry: needs a provider that is there and max_retries >= 0, because the source follows the pointer unchecked and only ever passes its default of 3.
- narrow_anthropic_tools_for_replay: disabled in the source; it returns at once and filters nothing.
- JSON parameters of a command are a map of strings; JSON texts of tool arguments are not looked into.
- SessionLanes.SummaryReadsItsMessages: up to 2147483647 messages, because beyond that the source's int count overflows; likewise SessionLanes.SummarizeRenders, QueueText.AbsorbRenderedIff and QueueSummaries.SummariesReadTheirMessages, and submissions that do not themselves begin with the marker.
- QueueText.MarkedTextLost: also where a single forged header claims 2147483647 messages and the source's int overflows on the next merge; the model's count goes on. QueueText.AbsorbedAsRawIff and QueueText.ShortAbsorbedIff likewise.
- OverflowLimits.NeverOutOfRangeIff: for requests without empty messages that end with words of the user, because in others a later overflow may hit (`OverflowLimits.DanglingResultsOverflowLater`); `AgentLaws.OutOfRangeIff` and `OverflowRecovery.PromptedNeverOutOfRange` cover those.
- SessionLanes.SessionLane.ApplyCapOverflow: needs a non-negative cap or a non-empty queue, because the source takes the front of an empty queue for a negative cap.
- The queue's worker threads are steps of the run; events, waiting and Stop of the dispatcher are not modelled, and the collect mode's pending list is drained in the same critical section as in the source.
- Random ids are parameters, taken to be fresh where a theorem says so.
- ContextPruner.Prune: needs protect_recent >= 1 and hard_prune_after >= 1, because the source indexes past the end of a list otherwise.
- ContextPruner.Compress: leaves out an empty history with a negative target, where the source divides by zero; floating-point ratios are exact reals.
- ContextPruner has_important_tail and TruncateToolResult are not used by the modelled functions.
- Delivery.DeliveredInOrder: for runs in which the watermark is never set below its value; `Delivery.LoweringReorders` shows why.
- Loading and saving of the duplicate store on disk, and a Submit that races with the destruction of the lane processor.
- RankFusion: the searches themselves; ranks of an id listed twice are added up, but the ordering laws are for duplicate-free lists. Single-precision rounding is exact here.
- HnswIndexes.HnswIndex.AddVector: vector values, normalisation and the graph's search are not modelled, only whether the graph takes the point; labels do not wrap at 64 bits (the file format is for labels below that).
- HnswIndexes.HnswIndex.LoadIndex: a string longer than `capacity` stands for an allocation that throws.
- LineProtocol.RpcServer.OnData: on decoded text; the reassembly of UTF-8 across data events and the dispatch of a line to its handler are not modelled.
- ConfigPaths.SetValue: the tree is a value that each assignment replaces; that the source shares and mutates one tree through a pointer is not captured. Reading and writing the file, and the .bak copy, are not modelled.
- StructuredMemories.StructuredMemory.ImportFromJson: elements have all fields; defaults for missing ones and type errors are not modelled. Full-text scores and the average document length (which updates and deletes leave stale) are not modelled.
- Subagents.SubagentManager.Begin: check and insertion without a step in between; `SpawnRaces` has them as two steps.
- EmbeddingCache: the provider registry is fixed; a provider registered anew under the current name, or a changed default while no name is set, would leave the old one's vectors in the cache.
- EmbeddingCache.EmbeddingManager.GetEmbedding: needs a maximum of at least 1 while the cache is on and a model is set, because with 0 the source erases from an empty map.
- EmbeddingCache.EmbeddingManager.GetEmbeddingBatch: the provider is deterministic and its batch call returns one vector per text; a provider that throws is not modelled.
