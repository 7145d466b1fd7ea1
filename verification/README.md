# Verified model of the executor core

The gateway turns OpenAI-style requests into calls to many upstream providers. Most of its provider
code is tables; the parts modelled here are those that carry laws over all inputs and all runs:

- **Bedrock** (`BedrockPairs`, `BedrockMessages`, `BedrockHistory`, `BedrockStream`). A chat history
  becomes a Bedrock message list, whose tool uses and tool results are then repaired in place, in two
  passes that share one budget per tool id. A Bedrock event stream becomes OpenAI chunks, and must
  mean the same as the buffered reply.
- **Retry and fallback** (`BaseRetry`, `AntigravityRetry`, with `AttemptLog`; `RetryAnswers` and
  `AntigravityAnswers` say which fetch each outcome is the answer to). Two loops that step
  their own URL index back to try a URL again. The network, the request builder and the learning
  stores are arbitrary functions of how often they were asked, so a lemma for all of them is a
  statement about every run; each wait adds to a counter.
- **Adapta** (`AdaptaStream`). Reassembly of lines from arbitrarily cut reads, the event loop over
  them, and the buffered collection of the same text.
- **Bounded caches** (`IdentityCache`, `CreditCache`). Both are ordered maps that must agree with a
  log of the writes made to them.
- **Antigravity contents** (`AntigravityContents`). Filtering and merging of turns.
- **Registries** (`EmbeddingRegistry`, `RegistryIndex`). Printing and parsing of model ids, for
  arbitrary registries.
- **Order and sums** (`Fingerprint`, `GlmUrl`, `FreeModels`). Reordering of fields and headers, joining
  of URLs, and pool-deduplicated totals.

`OrderedMap` models a JavaScript `Map` or object as its list of entries in insertion order; `JsText`
holds the string operations, `Sequences` the selection of list elements by position. Each imperative method is proved equal to a specification function, and
the laws are proved about that function.

## How the pieces fit

`BedrockPairs` defines, on values, what the repair should leave (`Sanitized`). `SanitizeBedrockToolPairs`
does it on mutable messages, with the budget held in a map, and is proved to leave exactly that.
`SanitizedExactly` then says when the repair works: idempotence, "every use answered next door" and
"every result belongs next door" all hold under one condition on the merged input (`NoEarlySurplus`),
and all fail without it. `MessagesFromOpenAI` feeds the repair; `SanitizedSelects` and `HistoryTurns` say
block by block what is sent, without the specification functions.

`BaseRetry.Run` and `AntigravityRetry.Run` are the loops with the index written as "up to k tries of each
URL, in order"; `Execute` and `ExecuteOnce` run with `urlIndex - 1` and a table of retries, terminate, and
compute the same result and the same final state. Neither ever falls out of its loop. A run's state also
holds its trace (bodies sent, the fetches of each try), and `ReturnedIsLastAnswer` and `LastAnswerWins` tie
what comes back to what the network answered.

`BedrockStream.Translation` is the chunk list of a run, `Assembled` the content blocks that the same events
stand for, `Reassembled` what a client makes of the chunks. `StreamRefinesBuffered` ties the three.

## Where the code does not do what it promises

Each of these has a lemma that says when the law holds, and a lemma with an input on which it fails.

- A tool id used twice can starve its second use: results beyond the first spend the budget that the
  later pair earns (`SanitizedExactly`, `EarlySurplusExample`; for whole chat histories `HistoryExactly`,
  `DoubledAnswerExample`).
- Tool calls never ask again for an id that still waits for its answer, but inline uses do (`NoDoubleAsk`,
  `InlineExample`).
- Input for a Bedrock block that was never opened is booked on tool 0 and spoils it: its arguments, and its
  name too when the input comes before the tool is opened (`StreamRefinesBuffered`,
  `UnopenedDeltaSpoilsToolZero`, `EarlyDeltaSpoilsToolZero`).
- Text that goes back to an earlier block is heard in order of arrival, not in block order
  (`StreamRefinesBuffered`, `WordsAsTheyCome`, `InterleavedTextDiffers`).
- A Bedrock block that is opened twice is two tools for the client and one for the blocks
  (`ReopenedBlockDiffers`, `ReopenedExample`).
- After an upstream has rejected `context_management`, the base executor promises to keep it out of every
  later body (`open-sse/executors/base.ts:743-745`). A request builder that adds the field for active
  thinking (`:1010-1017`) puts it back on every later iteration, a retry of the same URL included
  (`RejectionKeptExactly`, `RejectedFieldReturns`).
- A field stripped after a 400 comes back with the next iteration's fresh body and is not stripped a second
  time, so that a 400 for it is then returned (`StripKeptExactly`, `StrippedFieldReturns`).
- The buffered Adapta path keeps collecting text after a `done`, an `end` or a bare JSON `null`, where the
  stream ends (`StreamedIsBuffered`, `TextAfterStop`, `TextAfterNull`); it makes strings of deltas that the
  stream ignores, drops the errors that the stream shows (`OneEventDiffers`), and misses texts with blanks
  before them that trimming removes and the JSON parser rejects (`BlankGoesUnheard`).
- When no part of an Antigravity request survives the filter, the request goes out with its unfiltered
  contents (`NormalFormExactly`, `UnfilteredExample`).
- The comments on the Antigravity retry (`open-sse/executors/antigravity.ts:887-891`, `:1379-1381`,
  `:1503-1506`) say that, when a reply does not say when to come back, a 429 is always tried again and a
  transient 5xx when its text matches a known pattern. The code tries a readable 503 again, known text or
  not, and a 500, 502 or 504 never; and a 429 or 503 whose JSON text tells of an exhausted quota gets a
  default wait of a day and is not tried again either (`UnnamedExactly`, `PromiseKeptExactly`,
  `PromiseBroken`).
- Joining a GLM base with `/v1/messages` twice eats one `/v1` of a base that ends in `/v1/v1`, and changes
  the spelling of a `/V1` (`MessagesJoinIdempotentExactly`, `DoubledVersionIsEaten`,
  `UpperCaseVersionIsChanged`). For `/chat/completions`, `/models` and `/v1/models` the join is idempotent
  on every base.
- A provider that lists both `m` and its own prefix followed by `m` cannot have both parsed back
  (`EmbeddingRegistry.RoundTripExactly`, `ListedTwiceExample`); a provider that goes by an earlier
  provider's name cannot have its ids parsed back (`RegistryIndex.RoundTripExactly`, `ShadowedExample`).
- A fingerprint's user agent is not the one sent when another spelling of the name ends up behind it and
  the headers are ordered (`UserAgentSentExactly`, `UserAgentLost`).

## Model

| member | source | states |
|---|---|---|
| BedrockMessages.MergeConsecutiveToolResultMessages | open-sse/executors/bedrock.ts:179-190 | the merge, done by pushing blocks into earlier message objects, yields exactly the folded list, made only of input messages and without sharing |
| BedrockPairs.MergedProperties | open-sse/executors/bedrock.ts:179-190 | merging keeps the flattened sequence of (role, block) and leaves no two neighbouring result-only messages |
| BedrockPairs.MergedLength | open-sse/executors/bedrock.ts:179-190 | the merged list has one message for every message but those with results only right behind another such user message |
| BedrockPairs.MergedFixed | open-sse/executors/bedrock.ts:179-190 | a list without neighbouring result-only messages is left as it is |
| BedrockMessages.FirstPass | open-sse/executors/bedrock.ts:200-225 | the first pass leaves in each assistant message the uses answered by the next message and every block that is no use, and a budget that counts, per id, the messages answered so |
| BedrockMessages.Spend | open-sse/executors/bedrock.ts:229-236 | a block is kept exactly if it is no result or its id has budget left, and then costs its id, and no other, one unit |
| BedrockMessages.SecondPass | open-sse/executors/bedrock.ts:227-238 | the second pass leaves in user messages the first results of each id in conversation order, as many as the id has pairs, and a blank where nothing is left |
| BedrockMessages.SanitizeBedrockToolPairs | open-sse/executors/bedrock.ts:198-241 | the whole repair, in place, on shared-nothing messages, computes the specified list |
| BedrockPairs.SanitizedSelects | open-sse/executors/bedrock.ts:198-241 | for every conversation, message by message of the merged list: what comes out is the in-order selection of the blocks that are no tool uses (assistant) or no tool results (user), of the uses whose id is answered by the next message, and of the results that are within the number of pairs of their id; and a blank exactly when that selection is empty (an assistant message that was empty stays so) |
| BedrockPairs.TextStaysExample | open-sse/executors/bedrock.ts:217-225 | an assistant message keeps its text when its only use is answered too late |
| BedrockPairs.Conservation | open-sse/executors/bedrock.ts:198-241 | for every conversation and id, results left in user messages, assistant messages still asking, and answered pairs are equal in number |
| BedrockPairs.PairsWithinResults | open-sse/executors/bedrock.ts:202-225 | every answered assistant message is matched by a result in the message right after it, so the budget never exceeds the results there are |
| BedrockPairs.KeptCount | open-sse/executors/bedrock.ts:227-238 | the budget keeps of each id exactly the part of its results that the running minimum with the number of pairs allows |
| BedrockPairs.AdjacentExactly | open-sse/executors/bedrock.ts:198-241 | every surviving use has exactly one result in the next message and every surviving result its use in the message before, if and only if no message holds a surplus of results of an id that is paired again later |
| BedrockPairs.AnsweredExactly | open-sse/executors/bedrock.ts:198-241 | the same condition decides whether every surviving use is answered by the next message at all |
| BedrockPairs.OneHomeSuffices | open-sse/executors/bedrock.ts:198-241 | the condition holds whenever all results of an id sit in one user message |
| BedrockPairs.KeepsEverythingExactly | open-sse/executors/bedrock.ts:198-241 | a merged list is left untouched if and only if its uses are answered next door and every id has as many results as messages asking |
| BedrockPairs.SanitizedExactly | open-sse/executors/bedrock.ts:198-241 | the repair is idempotent, adjacent and answered, each if and only if the merged input has no early surplus |
| BedrockPairs.EarlySurplusExample | open-sse/executors/bedrock.ts:200-236 | a conversation with one repeated id and one doubled result on which all three fail |
| BedrockPairs.SanitizedHasContent | open-sse/executors/bedrock.ts:192-196 | no message comes out empty and no conversation comes out without messages |
| BedrockHistory.CollectAnsweredToolUseIds | open-sse/executors/bedrock.ts:143-160 | an id is found if and only if some message of the history is a tool message for it or holds a result part for it, ids compared trimmed |
| BedrockHistory.TextBlocksFromContent | open-sse/executors/bedrock.ts:56-107 | a string is one block with exactly that text, or none if it is blank; a part list gives, in order and one for one, the blocks of the parts that are shown (texts that are not blank, images that can be read, uses that are answered and not repeated by a call or have no id, all results), each with its own payload and trimmed or drawn id; anything else gives nothing |
| BedrockHistory.CallIdsExactly | open-sse/executors/bedrock.ts:271-274 | the ids that inline uses must not repeat are the trimmed ids of the message's calls that have one |
| BedrockHistory.PushToolCalls | open-sse/executors/bedrock.ts:279-299 | the content is what was there and behind it, in order, the uses (own input, name or `unknown_tool`, trimmed or drawn id) of exactly the calls whose id is answered, was not pending and is no earlier call's; pending is what was and every answered id a call goes by; and each newly pending id stands for one new use |
| BedrockHistory.HistoryTurns | open-sse/executors/bedrock.ts:245-311 | every history, turn by turn: each message but the system and developer ones gives one turn, in order; a tool message its one result, with its id and payload, any other what its content shows, then the uses of its calls, or a blank, as the assistant exactly for the role `assistant`; and without such messages one blank user turn |
| BedrockHistory.AnsweredExactlySoFar | open-sse/executors/bedrock.ts:246-255 | the ids known to be answered after any prefix are those some message anywhere brings a result of and those tool messages so far were given |
| BedrockHistory.PendingExactly | open-sse/executors/bedrock.ts:245-292 | the ids pending after any prefix are exactly those, known to be answered, that a call has gone by since a tool message last answered them |
| BedrockHistory.DrawnExactly | open-sse/executors/bedrock.ts:253-290 | the random ids taken by any prefix are one for each tool message, use part or call without an id |
| BedrockHistory.GreetingExample | open-sse/executors/bedrock.ts:56-66 | a string is sent as it is, and of a part list a blank text goes |
| JsText.TrimPads | open-sse/executors/bedrock.ts:52-54 | trimming takes blanks off both ends and nothing else |
| BedrockHistory.MessagesFromOpenAI | open-sse/executors/bedrock.ts:243-313 | the result is the repaired translation of the history, in fresh messages |
| BedrockHistory.BedrockListIsWellFormed | open-sse/executors/bedrock.ts:243-313 | whatever the history: at least one message, none empty, no neighbouring result-only messages, results and askers balanced for every id |
| BedrockHistory.NoDoubleAsk | open-sse/executors/bedrock.ts:245-299 | after every prefix of every history an id has been asked for, apart from kept inline uses, at most once more than answered, and then it is pending |
| BedrockHistory.InlineExample | open-sse/executors/bedrock.ts:82-94 | a history whose first message asks twice inline for an id that is not answered yet |
| BedrockHistory.HistoryExactly | open-sse/executors/bedrock.ts:243-313 | a history reaches Bedrock with every use answered next door, every result next to its use, and nothing left to repair, each if and only if its merged translation has no early surplus |
| BedrockHistory.OneReplySuffices | open-sse/executors/bedrock.ts:243-313 | it does whenever the history has, for every id, at most one tool message or result part outside assistant messages (drawn ids being new) |
| BedrockHistory.OneResultAnswered | open-sse/executors/bedrock.ts:243-313 | and whenever the translated user turns hold at most one result of every id |
| BedrockHistory.DoubledAnswerExample | open-sse/executors/bedrock.ts:252-298 | a history with one id called twice and answered twice the first time, which reaches Bedrock with a use unanswered |
| BedrockStream.Translator.Handle | open-sse/executors/bedrock.ts:521-590 | one event: the chunks it sends and the memory it leaves, field by field in the order the code looks at them |
| BedrockStream.Translator.Run | open-sse/executors/bedrock.ts:511-603 | a run, ended by its source, by an exception event or by a read error, sends exactly the specified chunks |
| BedrockStream.RunShape | open-sse/executors/bedrock.ts:517-602 | on every run the role comes first and once, `[DONE]` last and once, one final or error chunk before it, and no error without a cause |
| BedrockStream.FinalSays | open-sse/executors/bedrock.ts:376-386 | on every run but one whose reading threw: the final chunk says `tool_calls` exactly when the last stop event handled says `tool_use`, `length` exactly when it says `max_tokens`, else `stop`; and its usage is that of the last usage event, if any |
| BedrockStream.FailureSays | open-sse/executors/bedrock.ts:521-603 | a run whose reading threw ends with that error; a fault event is sent on under its own name, last before the final chunk |
| BedrockStream.HandledExactly | open-sse/executors/bedrock.ts:520-537 | the events handled are the front of all, up to the first fault if there is one |
| BedrockStream.SaidInOrder | open-sse/executors/bedrock.ts:538-578 | between role and ending a run sends, event by event: for a start its id and name under the number of starts so far, for a delta its text, reasoning and input in this order, where not empty, the input under its block's latest start |
| BedrockStream.ToolStopExample | open-sse/executors/bedrock.ts:580-596 | a run that stops for its tools and says so |
| BedrockStream.ContentBlocksToOpenAIMessage | open-sse/executors/bedrock.ts:399-427 | the buffered message: joined texts, joined reasoning if there is any, tools in block order, and null content only for an empty text beside tools |
| BedrockStream.WordsAsTheyCome | open-sse/executors/bedrock.ts:559-568 | on every run a client's text and reasoning are all the deltas of the handled events, in order of arrival |
| BedrockStream.InterleavedTextDiffers | open-sse/executors/bedrock.ts:559-563 | a run that goes back to an earlier block, whose client hears "xyz" where the blocks hold "xzy" |
| BedrockStream.ToolsRefined | open-sse/executors/bedrock.ts:538-578 | when every tool start opens a new block, a tool's index is its block's place among tool blocks, and the client's tools differ from the blocks' by exactly the characters of stray input, all in tool 0, and by the name of tool 0 if some stray input came before it |
| BedrockStream.StreamRefinesBuffered | open-sse/executors/bedrock.ts:399-603 | on every run the client ends up with the blocks' text and reasoning (if in block order), and, when every tool start opens a new block, with the blocks' tools, ids, names and arguments in order, if and only if stray input is empty and none comes before the first tool (or that tool has the client's own name for nameless ones) |
| BedrockStream.ToolsAsTheyStart | open-sse/executors/bedrock.ts:538-578 | on every run, whatever blocks are touched or opened when: the client holds one tool per start, in order, under its id and name, with exactly the input that came while it was its block's latest start, strays going to the first |
| BedrockStream.ReopenedBlockDiffers | open-sse/executors/bedrock.ts:538-541 | on every run that opens a block twice the client holds more tools than the blocks do |
| BedrockStream.ReopenedExample | open-sse/executors/bedrock.ts:538-541 | a fault-free run that opens one block twice |
| BedrockStream.UnopenedDeltaSpoilsToolZero | open-sse/executors/bedrock.ts:569-571 | a fault-free run, every tool start opening a new block, on which the client's tools are not the blocks': stray input after a tool is opened |
| BedrockStream.EarlyDeltaSpoilsToolZero | open-sse/executors/bedrock.ts:569-571 | the same with stray input before the tool is opened |
| BaseRetry.Clamp | open-sse/executors/nestedThinkingBudget.ts:67-79 | clamping keeps the number of budgets and makes each the smaller of itself and the maximum |
| BaseRetry.Execute | open-sse/executors/base.ts:743-1501 | the loop with its index stepping back terminates, never leaves at the bottom, and computes the run of "up to three tries of each URL" |
| BaseRetry.AttemptSound | open-sse/executors/base.ts:1318-1454 | one attempt makes at most two fetches beyond the one-shot repairs it uses up |
| BaseRetry.RunBounds | open-sse/executors/base.ts:743-1498 | from any point of any run: bounds on iterations, fetches and waiting left, one-shot repairs at most once, no field stripped twice |
| BaseRetry.ExecuteBounds | open-sse/executors/base.ts:743-1498 | over N URLs at most 3N iterations, 6N+2 fetches, 4000N ms; with upstream retries off one iteration and four fetches |
| BaseRetry.RunExplained | open-sse/executors/base.ts:1456-1500 | from any point of any run, what is returned is explained by the tries that were made |
| BaseRetry.FirstDecisiveUrlWins | open-sse/executors/base.ts:1456-1500 | the response returned is that of the first URL whose tries ended in neither a 429 nor an error; a 429 means the last URL, three times; an error only comes from the last URL |
| BaseRetry.FetchesAccounted | open-sse/executors/base.ts:743-1498 | in every run the fetches are exactly one for each iteration that got to send and one for each repair |
| BaseRetry.RepairsNarrow | open-sse/executors/base.ts:1318-1454 | within an attempt no body is sent twice: each repair retry asks for strictly less than the fetch before it, and the last body lacks every field stripped |
| RetryAnswers.AttemptStory | open-sse/executors/base.ts:1318-1454 | one attempt from its first fetch on: the first body; each repair retry is made exactly when the reply to the last body calls for it, and sends that body without what was rejected; the reply kept is the answer to the last fetch, but for a learnt field whose retry threw; and what is remembered afterwards |
| RetryAnswers.OutcomesAreAnswers | open-sse/executors/base.ts:1318-1454 | on every run each outcome logged is the answer to the last fetch of its iteration, but for the retry of a learnt field that threw, where it is the answer to the fetch before |
| RetryAnswers.ReturnedIsLastAnswer | open-sse/executors/base.ts:1456-1500 | with retries or without, the status returned is that of the answer the last iteration got to its last fetch; an error returned is that fetch's, or the builder's |
| RetryAnswers.WaitsExactly | open-sse/executors/base.ts:1456-1474 | a run waits 2000 ms for every try that goes to the URL of the try before it, and for nothing else |
| RetryAnswers.LoweredBudgetExample | open-sse/executors/base.ts:1348-1389 | a 400 that names a maximum, a lowered budget, and the answer to that comes back |
| BaseRetry.LessonsAreKept | open-sse/executors/base.ts:751-757 | after a 400 has taught a thinking maximum, no later body of the run exceeds it |
| BaseRetry.FieldsReturnExactly | open-sse/executors/base.ts:743-1454 | on every run, for every field and fetch: the first body of an iteration carries the field if and only if the builder put it in or context editing, still on, did; a retry only if the fetch before it did |
| BaseRetry.RejectionKeptExactly | open-sse/executors/base.ts:743-746 | no later body of a run carries the rejected field if and only if no iteration begun after the rejection has a builder that puts it in |
| BaseRetry.RejectedFieldReturns | open-sse/executors/base.ts:1010-1017 | a run over one URL (rejected, limited, answered) that sends the rejected field again |
| BaseRetry.StripKeptExactly | open-sse/executors/base.ts:747-750 | a stripped field is gone from every later body of the run if and only if no iteration begun after the strip puts it in again; and none is stripped twice |
| BaseRetry.StrippedFieldReturns | open-sse/executors/base.ts:1402-1418 | a run over one URL that sends a stripped field again and returns the 400 it earns |
| AntigravityRetry.HandleRateLimit | open-sse/executors/antigravity.ts:1344-1501 | a limited reply: the wait named by headers or text, the credits retry, then same URL, next URL or back to the caller |
| AntigravityRetry.AttemptUrl | open-sse/executors/antigravity.ts:1206-1289 | one pass through the loop body, including the second send after a 403 |
| AntigravityRetry.ExecuteOnce | open-sse/executors/antigravity.ts:1104-1197 | the loop terminates, never leaves at the bottom, and computes the run of "up to four tries of each URL" |
| AntigravityRetry.RunBounds | open-sse/executors/antigravity.ts:1133-1194 | from any point of any run: sends left, at most three waits on any URL, none longer than a minute |
| AntigravityRetry.ExecuteOnceBounds | open-sse/executors/antigravity.ts:1104-1197 | over N URLs at most 4N sends of at most two fetches each, one credits retry, and 180 000 ms of waiting on any URL |
| AntigravityRetry.FirstDecisiveUrlWins | open-sse/executors/antigravity.ts:1206-1289 | earlier URLs were given up; a 429 or 503 comes back only from the last URL once that is given up too; a wait above a minute is handed to the caller when the body can carry it |
| AntigravityAnswers.RepliesAreAnswers | open-sse/executors/antigravity/executeAttempt.ts:356-378 | on every run each reply logged is the answer to its send's first fetch, or to its second exactly when the request has the project header and the first answer is a 403; sends follow each other without a gap but for the credits retry, made exactly once, right behind the first send that could be paid for |
| AntigravityAnswers.FetchesAccounted | open-sse/executors/antigravity/executeAttempt.ts:356-378 | the fetches of a run are its sends, the second sends after a 403, and one credits retry exactly if some send was payable |
| AntigravityAnswers.LastAnswerWins | open-sse/executors/antigravity.ts:1206-1289 | every run returns the reply it heard last, unless the credits retry got anything but a 429 or a passing error: then that answer is returned, or the run is aborted; and it is aborted in no other case but the caller's own |
| AntigravityAnswers.SecondSendExample | open-sse/executors/antigravity/executeAttempt.ts:367-378 | a 403 with the project header, then a good answer, which comes back |
| AntigravityAnswers.PauseExactly | open-sse/executors/antigravity.ts:1344-1399 | a retry of the same URL waits as long as the headers ask, else as the text names, else by the category of the text (2, 5 or 60 seconds), else 2, 4 and 8 seconds; never above a minute |
| AntigravityAnswers.WaitsExactly | open-sse/executors/antigravity.ts:1364-1399 | on every run and URL the waits are those pauses after each of its tries but the last, unless the builder ends the run after one |
| AntigravityRetry.SameUrlExactly | open-sse/executors/antigravity.ts:1344-1411 | with tries left and no credits to pay with, the same URL is tried again exactly for a 429 or 503 naming a short wait, a 429 naming none, and a readable 503 naming none |
| AntigravityRetry.UnnamedExactly | open-sse/executors/antigravity.ts:1344-1411 | with tries left, a reply that says nowhere when to come back is tried again on the same URL exactly for a 429, or a readable 503, whose text is not that of an exhausted quota |
| AntigravityRetry.PromiseKeptExactly | open-sse/executors/antigravity.ts:1503-1524 | such a reply is treated as the comments promise if and only if it is no 500, 502 or 504 with a known text, no readable 503 whose text is both known and of an exhausted quota or neither, and no 429 of an exhausted quota |
| AntigravityRetry.PromiseBroken | open-sse/executors/antigravity.ts:1239-1256 | replies on which it is not, with plain and with JSON texts: a 503 without a known text, tried again; a 500 with one, returned; a 503 and a 429 of an exhausted quota, not tried again |
| AntigravityRetry.PersistentLimitIsReturned | open-sse/executors/antigravity.ts:1359-1411 | a 429 on every request is always handed back, from the last URL, after at least one send to each |
| AntigravityRetry.ShortWaitsTryFourTimes | open-sse/executors/antigravity.ts:1364-1399 | if such replies ask for short waits or none, every URL gets exactly four sends: both kinds of retry share one counter |
| AdaptaStream.LinesAreText | open-sse/executors/adapta-web.ts:281-283 | the lines and the rest are the text, cut at every newline and nowhere else |
| AdaptaStream.LinesPlus | open-sse/executors/adapta-web.ts:281-283 | splitting what is left over together with the next read gives the lines, and the rest, of the whole text |
| AdaptaStream.Translator.Read | open-sse/executors/adapta-web.ts:281-321 | one read handles the lines it completes until one ends the stream, and keeps the rest |
| AdaptaStream.Translator.Run | open-sse/executors/adapta-web.ts:238-330 | the chunks sent depend on the text alone, not on how it was cut |
| AdaptaStream.CutAnywhere | open-sse/executors/adapta-web.ts:238-330 | two ways of cutting one text give equal chunk lists |
| AdaptaStream.TranslationShape | open-sse/executors/adapta-web.ts:262-274 | every stream: role first and once, only content, one stop chunk, `[DONE]` last |
| AdaptaStream.Collect | open-sse/executors/adapta-web.ts:465-492 | the buffered path collects the text of all complete lines, however the text was cut |
| AdaptaStream.StreamedExactly | open-sse/executors/adapta-web.ts:285-328 | for every parser and text the streamed content is the string deltas up to the first line that ends the stream, and the notice if that is an error |
| AdaptaStream.ChunksExactly | open-sse/executors/adapta-web.ts:285-330 | the chunks of every stream: the role, then for each line up to the first that ends it the text of a non-empty string delta that is not the placeholder's, or an error's own text in its notice, then the ending |
| AdaptaStream.PayloadIs | open-sse/executors/adapta-web.ts:286-295 | a line's event is what the parser makes of the trimmed text behind `data: `, and other lines and blank payloads have none |
| AdaptaStream.StreamedIsBuffered | open-sse/executors/adapta-web.ts:285-328 | for parsers that accept a trimmed payload whenever they accept the raw one: unless each path has something the other lacks, streamed content equals buffered text if and only if no text is lost to blanks, no delta before the end is coerced and nothing is collected after it; and in any case, errors included, if and only if what is collected up to the end begins what is streamed and what is collected afterwards is the rest |
| AdaptaStream.EndlessAgrees | open-sse/executors/adapta-web.ts:299-306 | with string deltas and no line that ends the stream they agree if and only if no text is lost to blanks |
| AdaptaStream.TextAfterStop | open-sse/executors/adapta-web.ts:317-320 | for every parser: after a payload read as `done`, `end` or `null` the stream passes on nothing and the buffered path still collects the text that follows |
| AdaptaStream.TextAfterNull | open-sse/executors/adapta-web.ts:289-297 | a text after the payload `null`, on which the paths differ |
| AdaptaStream.OneEventDiffers | open-sse/executors/adapta-web.ts:299-316 | for every parser: on a lone error, or a lone delta that is no string, the streamed and the buffered text differ |
| AdaptaStream.BlankGoesUnheard | open-sse/executors/adapta-web.ts:286-295 | for every parser that rejects it: a text behind a no-break space is streamed and not collected |
| IdentityCache.BoundedMap.SetBounded | open-sse/executors/claudeIdentity.ts:64-70 | deleting the oldest key and setting the new one gives the specified map |
| IdentityCache.BoundedMap.GetSessionId | open-sse/executors/claudeIdentity.ts:92-98 | a known seed gets its id and changes nothing, a new one gets the drawn id, which is then stored |
| IdentityCache.BoundedMap.ResolveCliUserId | open-sse/executors/claudeIdentity.ts:119-132 | a valid persisted id wins under either name and changes nothing, else the cached or drawn one |
| IdentityCache.MapIsWindow | open-sse/executors/claudeIdentity.ts:64-70 | every reachable map is the window of the latest insertions, oldest first, so within its capacity |
| IdentityCache.WindowHolds | open-sse/executors/claudeIdentity.ts:64-70 | an insertion is found while it is in the window and gone when it has just left |
| IdentityCache.KeptUntilCapacity | open-sse/executors/claudeIdentity.ts:89-98 | a new seed keeps its id through any calls with fewer newcomers than the capacity and is gone at exactly that many |
| CreditCache.RunAgrees | open-sse/executors/antigravity.ts:140-197 | in every reachable cache each account occurs once, with the last value stored for it |
| CreditCache.ReadIsLastWrite | open-sse/executors/antigravity.ts:177-186 | a read that answers gives the last value stored for the account, no older than the time to live |
| CreditCache.FillInOnlyAbsent | open-sse/executors/antigravity.ts:145-156 | hydration leaves known accounts alone and fills others from the database with the current time |
| CreditCache.UpdateThenRead | open-sse/executors/antigravity.ts:177-197 | an update is read back within the time to live, whatever the cache and the database hold and whether or not it was hydrated |
| CreditCache.UpdateSize | open-sse/executors/antigravity.ts:188-193 | an update never takes the size above 50 or above what it was |
| CreditCache.UpdateExactly | open-sse/executors/antigravity.ts:188-193 | an update puts its value where the account is or behind all others; a full cache loses its first entry for a new account, and nothing else changes |
| CreditCache.EntriesAreOldestFirst | open-sse/executors/antigravity.ts:140-197 | every reachable cache holds its entries in the order in which their accounts came in to stay, so the one evicted has been there longest |
| CreditCache.SweepLeaves | open-sse/executors/antigravity.ts:158-170 | a sweep leaves at most 50 entries, all fresh and from before, and loses a fresh one only for want of room |
| CreditCache.SweepExactly | open-sse/executors/antigravity.ts:158-170 | a sweep leaves exactly the last 50 of the entries no older than five minutes, in their order |
| CreditCache.FirstReadHydrates | open-sse/executors/antigravity.ts:140-156 | the first read hydrates, even if the database fails, and answers an unknown account with its first balance there |
| CreditCache.LaterReadsExactly | open-sse/executors/antigravity.ts:177-186 | later reads change nothing but the entry they find too old |
| CreditCache.Cache.GetRemainingCredits | open-sse/executors/antigravity.ts:177-186 | hydrates once, answers the specified value, and drops a stale entry |
| CreditCache.Cache.UpdateRemainingCredits | open-sse/executors/antigravity.ts:188-193 | the specified state, by deleting the oldest key of a full cache |
| CreditCache.Cache.EvictStale | open-sse/executors/antigravity.ts:158-170 | deleting stale keys one by one, then oldest keys, leaves the latest 50 fresh entries |
| AntigravityContents.GatherContents | open-sse/executors/antigravity.ts:637-645 | the gathered turns are in normal form (none empty, no equal neighbouring roles) and say the same, part by part |
| AntigravityContents.NormalFormUnique | open-sse/executors/antigravity.ts:637-645 | what is said has one normal form only, so that determines the gathered turns |
| AntigravityContents.TransformContents | open-sse/executors/antigravity.ts:603-650 | the contents sent: the normal form of what survives the filter, or the raw contents if nothing does |
| AntigravityContents.NormalizedExactly | open-sse/executors/antigravity.ts:611-635 | of every turn exactly these parts go: empty texts, calls without a name, thoughts, and in turns without a call those with a signature other than the sentinel; the others stay in order, and a turn with a response or no role speaks as the user |
| AntigravityContents.NormalFormExactly | open-sse/executors/antigravity.ts:648-650 | the request is in normal form and says what survived if and only if something survived or there was nothing |
| AntigravityContents.UnfilteredExample | open-sse/executors/antigravity.ts:620-650 | a request whose only part is filtered and yet sent |
| AntigravityContents.CleanIsFixed | open-sse/executors/antigravity.ts:610-650 | a request that is already clean is sent unchanged |
| AntigravityContents.StripTrailingAssistantTurn | open-sse/executors/antigravity.ts:408-424 | a non-empty prefix, only model turns gone, no model turn last unless alone, and at most one turn gone from a normal form |
| EmbeddingRegistry.GetAllEmbeddingModels | open-sse/config/embeddingRegistry.ts:597-615 | the catalogue, provider by provider and model by model |
| EmbeddingRegistry.EntriesAreListed | open-sse/config/embeddingRegistry.ts:470-472 | the catalogue holds exactly the listed models, under their printed ids |
| EmbeddingRegistry.EntriesExample | open-sse/config/embeddingRegistry.ts:597-615 | a catalogue of two providers, in order; a prefix the model carries is not printed twice |
| EmbeddingRegistry.EntryRoundTrips | open-sse/config/embeddingRegistry.ts:457-468 | an entry parses back to its provider and model if and only if the model is not the prefixed twin of another one |
| EmbeddingRegistry.RoundTripExactly | open-sse/config/embeddingRegistry.ts:485-535 | every catalogue id parses back to its entry if and only if no provider lists a model with and without its prefix |
| EmbeddingRegistry.ListedTwiceExample | open-sse/config/embeddingRegistry.ts:457-468 | a well-formed registry with a model listed both ways, whose catalogue does not parse back |
| EmbeddingRegistry.AliasIsTransparent | open-sse/config/embeddingRegistry.ts:453-455 | an alias parses as its provider's own id does |
| EmbeddingRegistry.BareIdParses | open-sse/config/embeddingRegistry.ts:485-535 | an id without a slash, or with one in front, is a model's, of the first provider that lists it, or of none if none does |
| EmbeddingRegistry.RegisteredIdParses | open-sse/config/embeddingRegistry.ts:485-535 | an id under a registered provider's name or alias is that provider's, with the model it lists with or without its prefix, else with what follows |
| EmbeddingRegistry.PrefixedIdParses | open-sse/config/embeddingRegistry.ts:485-535 | an id whose first segment leads nowhere, but that carries the whole name of a registered provider, is the first such provider's |
| EmbeddingRegistry.UnregisteredIdParses | open-sse/config/embeddingRegistry.ts:485-535 | an id of no registered provider belongs to the first dynamic node whose name it carries, and of none is taken at its word |
| RegistryIndex.Helper.GetIndex | open-sse/config/registryUtils.ts:31-46 | the memoised index is built once and agrees with the linear first-provider scan for every model |
| RegistryIndex.Helper.ParseModel | open-sse/config/registryUtils.ts:52-76 | parsing by prefix, then by index, agrees with the plain scans, whatever the cache holds |
| RegistryIndex.Helper.GetAllModels | open-sse/config/registryUtils.ts:82-107 | the listing, by provider, model and name |
| RegistryIndex.ListingParses | open-sse/config/registryUtils.ts:82-107 | under the conditions of the round trip every listed row parses back to its provider and to a model that it prints |
| RegistryIndex.ListingExample | open-sse/config/registryUtils.ts:82-107 | a listing of two providers: by provider and model, the id before the alias |
| RegistryIndex.BareIdParses | open-sse/config/registryUtils.ts:68-76 | an id behind no provider's name is a model's, of the first provider that lists it, or of none |
| RegistryIndex.RoundTripExactly | open-sse/config/registryUtils.ts:52-107 | with distinct slash-free ids and aliases, every printed id parses back if and only if no provider with models goes by an earlier provider's name |
| RegistryIndex.ShadowedExample | open-sse/config/registryUtils.ts:59-66 | a well-formed registry with a shadowed alias, whose printed ids do not parse back |
| RegistryIndex.AppendKeepsParses | open-sse/config/registryUtils.ts:52-76 | a provider added last changes no parse but those its own prefixes capture and those that found no provider |
| GlmUrl.StripKnownEndpointSuffix | open-sse/config/glmProvider.ts:301-322 | trims slashes in a loop, then takes off one endpoint, giving the specified base and suffix |
| GlmUrl.WithoutSlashesExactly | open-sse/config/glmProvider.ts:301-322 | trailing slashes go, all of them and nothing else |
| GlmUrl.PlainBaseJoined | open-sse/config/glmProvider.ts:301-335 | to a base that ends in no endpoint, whatever slashes trail it, a join with `/chat/completions` or `/models`, with or without its slash, puts the path right behind it, in front of the query |
| GlmUrl.VersionedBaseJoined | open-sse/config/glmProvider.ts:301-335 | and a join with a `/v1` path brings the version only to a base that has not got it |
| GlmUrl.SameVersionPlaced | open-sse/config/glmProvider.ts:324-335 | whatever the version: a base and a path that share it join with one of it, and a messages endpoint takes it off |
| GlmUrl.VersionStartExactly | open-sse/config/glmProvider.ts:327 | a version is a slash, a v in either case and digits, at the end |
| GlmUrl.PlainJoinStrips | open-sse/config/glmProvider.ts:301-335 | stripping takes back a join with `/chat/completions` or `/models`, for every base |
| GlmUrl.PlainJoinAbsorbed | open-sse/config/glmProvider.ts:324-335 | a later join behaves as if that one had not happened; so joining twice is joining once |
| GlmUrl.V1ModelsJoinIdempotent | open-sse/config/glmProvider.ts:324-335 | joining with `/v1/models` twice is joining once, for every base |
| GlmUrl.MessagesJoinIdempotentExactly | open-sse/config/glmProvider.ts:308-335 | joining with `/v1/messages` or `/v1/messages/count_tokens` is idempotent if and only if the base does not end in `/v1` spelt otherwise or twice over |
| GlmUrl.DoubledVersionIsEaten | open-sse/config/glmProvider.ts:308-335 | for a base ending in `/v1/v1`, joining with `/v1/messages` again gives another URL |
| GlmUrl.UpperCaseVersionIsChanged | open-sse/config/glmProvider.ts:308-335 | for a base ending in `/V1`, joining with `/v1/messages` again gives another URL |
| Fingerprint.OrderFields | open-sse/config/cliFingerprints.ts:206-226 | same key-to-value map, listed keys first in list order, the others in their own order |
| Fingerprint.OrderedKeysFacts | open-sse/config/cliFingerprints.ts:206-226 | the new key order has the same keys, once each |
| Fingerprint.OrderedKeysExactly | open-sse/config/cliFingerprints.ts:206-226 | of any two keys the one mentioned first in the list goes first; unlisted ones go behind, in their own order |
| Fingerprint.OrderFieldsIdempotent | open-sse/config/cliFingerprints.ts:206-226 | ordering ordered fields changes nothing |
| Fingerprint.OrderHeaders | open-sse/config/cliFingerprints.ts:232-262 | headers folded by case-insensitive name and ordered the same way; an empty list changes nothing |
| Fingerprint.OnePerName | open-sse/config/cliFingerprints.ts:241-259 | ordered headers have exactly one entry per case-insensitive name, the last one given |
| Fingerprint.FoldedAscends | open-sse/config/cliFingerprints.ts:232-249 | header names keep the order in which they first occur |
| Fingerprint.OrderHeadersIdempotent | open-sse/config/cliFingerprints.ts:232-262 | ordering ordered headers changes nothing |
| Fingerprint.OverrideSurvivesExactly | open-sse/config/cliFingerprints.ts:241-259 | a header is the last of its case-insensitive name if and only if no other spelling comes later |
| Fingerprint.UserAgentSentExactly | open-sse/config/cliFingerprints.ts:294-306 | for all headers and every fingerprint that sets a user agent: exactly that one is sent if and only if no extra header gives the name another value and, where headers are ordered, no other spelling stands behind it among the caller's headers or comes in with the extra ones |
| Fingerprint.UserAgentLost | open-sse/config/cliFingerprints.ts:294-306 | a fingerprint and a client spelling the name twice, whose user agent is not sent |
| Fingerprint.StrippedFields | open-sse/config/cliFingerprints.ts:268-276 | only the three internal fields are gone |
| Fingerprint.ApplyToBody | open-sse/config/cliFingerprints.ts:278-318 | the serialised body has every field of the request but the internal ones, in the fingerprint's order |
| Fingerprint.ApplyToHeaders | open-sse/config/cliFingerprints.ts:294-306 | user agent and extra headers set by exact name, then ordered |
| FreeModels.DedupedSum | open-sse/config/freeModelCatalog.ts:80-95 | the sum of the pools' maxima and of the amounts outside pools, computed with a map of maxima |
| FreeModels.ModelsPermuted | open-sse/config/freeModelCatalog.ts:80-95 | reordering the models changes no total |
| FreeModels.TotalSnoc | open-sse/config/freeModelCatalog.ts:80-95 | one more model adds its whole amount outside a pool, and in a pool only what exceeds the maximum |
| FreeModels.PoolMaxExactly | open-sse/config/freeModelCatalog.ts:80-95 | a pool counts for an amount it has that no other of it exceeds |
| FreeModels.TotalWithinPlainSum | open-sse/config/freeModelCatalog.ts:80-95 | a total never exceeds the plain sum |
| FreeModels.TotalOfFiltered | open-sse/config/freeModelCatalog.ts:97-98 | leaving models out never raises a total |
| FreeModels.ComputeFreeModelTotals | open-sse/config/freeModelCatalog.ts:97-117 | the three published totals, each at most the next |
| FreeModels.LooseModelAdds | open-sse/config/freeModelCatalog.ts:97-117 | a model outside all pools adds to the three totals what its type counts for: monthly tokens to all, recurring credits from the second on, signup credits to the third, uncapped and discontinued offers nothing |
| FreeModels.FilteredExactly | open-sse/config/freeModelCatalog.ts:97-98 | exactly the models to avoid are left out |
| FreeModels.AvoidingLowersTotals | open-sse/config/freeModelCatalog.ts:97-117 | without the models to avoid, each published total is at most what it was |

## Left out

- GetAllEmbeddingModels: display names and dimensions, which each row copies from its model, are not part of the rows.
- GetAllModels: display names and the extra fields of a row are not part of the rows.
- StreamRefinesBuffered: says exactly when the tools agree on runs whose tool starts open new blocks, as Bedrock's do; for all others `ToolsAsTheyStart` says what the client holds. Blocks stand in the order in which events first touch them, which is index order when Bedrock sends them in order.
- Reassembled: the client keys tools by index, as `open-sse/utils/streamPayloadCollector.ts:186-221` does when ids differ; that collector also merges tools of one id and trims the joined text, and `open-sse/handlers/sseParser.ts:225-258` replaces arguments that grow as snapshots.
- StreamedIsBuffered: stated for parsers that accept a trimmed payload whenever they accept the raw one, and read it alike, as a JSON parser does; `StreamedExactly` needs no such condition.
- PersistentLimitIsReturned: stated for runs whose request builder answers and whose caller does not abort.
- JSON and regular-expression engines, UTF-8 decoding, Base64 and random ids are parameters: parsers are arbitrary functions, text is already decoded, ids are drawn from an arbitrary supply.
- Abort signals beyond the outcome of a request, timeouts, logging, header and URL construction, body signing, and credential refresh.
- Errors thrown inside an attempt of the base executor before its first fetch; they are treated by the code as a failed fetch.
- The reading of a successful Antigravity reply, the Pro fallback chain, the persisted quota marks, and the store of exhausted accounts; whether credits may be tried is a parameter.
- The process-wide store of learned thinking caps and the window of free OpenRouter requests; the base executor's request body is taken to be an object, whose nested thinking budgets are kept beside its top-level fields.
- JavaScript's ordering of integer-like object keys and its inherited properties (`in obj`, table lookups by name): fields, headers and registries are modelled as their own entries in insertion order.
- Case folding beyond ASCII in URLs; in headers the folding is an arbitrary function.
- Bedrock system blocks, tool configuration, inference settings, the payload of a tool result, and the arithmetic of usage numbers; a tool input is text, and printing it as JSON is a parameter. A null entry among the tool calls, at which the code throws.
- Bedrock events without a block index.
- Antigravity turns are values here: the code merges parts into the copied turn objects in place, which no other part of the request shares.
- Boosts, pool counts, uncapped providers and the headline of the free-model totals; detection of conflicting embedding dimensions; amounts are natural numbers, not floating point.
- The other registries (reranking, audio, image), which repeat these scans.
