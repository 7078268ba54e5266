# A verified model of the chat backend

This project models the parts of the backend that carry state, branching or arithmetic, and proves
what they promise. Each part is an imperative model, written the way the backend is written, that is
proved equal to a function on values; the theorems are then about that function, about every
reachable state of a transition system built from it, or about whole runs.

| part | files |
|---|---|
| bounded agent loop with tools, budgets and a stored trace | `AgentLoop.dfy`, `AgentProperties.dfy`, `AgentHistory.dfy`, `AgentRuntime.dfy` |
| idempotent chat exchange under concurrent requests | `ChatExchange.dfy`, `ChatHistory.dfy` |
| streaming, heartbeats, sliced agent answers, event frames | `ChatStream.dfy`, `Sse.dfy` |
| refresh-token rotation and reuse detection | `RefreshSessions.dfy` |
| overlapping text windows | `Chunker.dfy`, `PyText.dfy` |
| prompt token budget | `TokenBudget.dfy` |
| keyset pagination and its cursors | `Pagination.dfy`, `Cursors.dfy` |
| shared datatypes | `Common.dfy`, `Llm.dfy` |

`dafny verify dfyconfig.toml` checks everything.

## How the model reads the code

- Every `async with uow` block is one atomic step, and its commit succeeds. The chat exchange and the
  refresh sessions are transition systems whose runs interleave such steps in any order.
- A cancellation or a timeout strikes only while the model, a tool or the next chunk is awaited.
- The model provider and the tools are arbitrary functions of the request and of the number of calls
  made before, so they may reply, raise, time out or be interrupted at any point.
- Identifiers drawn by the code (`uuid4`) are parameters that differ from every identifier in use.
  Clock readings are parameters. In `RefreshSessions` all times share one unit, and a request is
  decoded no later than its session is checked.
- A signed token is known by its claims and by whether its signature verifies; the stored hash is an
  injective function of the token. JSON and ISO 8601 are a codec that loads what it has dumped
  (`Cursors.Faithful`), and JSON text holds no raw line break (section 7 of RFC 8259).
- `int(token_budget * 0.55)` is `11 * b / 20` in integers.
- A wait for the next chunk is described by the number of heartbeat intervals it lasts and by what it
  brings.

## Where the code and a natural expectation part

- The trimmed prompt can cost more than the budget: the newest message is kept even when it cannot
  fit. `TokenBudget.BudgetCanBeExceeded` is an instance, `TokenBudget.WithinBudgetIff` says exactly
  when the estimate stays within the budget, and `TokenBudget.TrimmedIsBounded` by how much it can
  exceed it otherwise.
- A streamed agent answer is stored under the provider and model of the prepared exchange, a direct
  one under those of the response, and empty strings count as absent only on the stream path.
  Content, usage and run metadata always agree (`ChatStream.AgentPathsAgree`);
  `ChatStream.AgentPathsIdenticalIff` says exactly when the stored rows are identical.
  `ChatStream.AgentPathsCanDiffer` is an answer for which they are not.
- A generation that dies without finalizing (a crash, or a failure to start the stream, both the
  action `Crash`) leaves its reply open for ever. `ChatExchange.StrandingRun` is such a run;
  `ChatExchange.AbandonedIffCrashed` says that these are exactly the abandoned replies,
  `ChatExchange.InProgressIffOpen` that a repeated request is rejected exactly when its reply is
  open, and `ChatExchange.CrashBlocksClientId` that after a crash this lasts for the rest of the run.
- The accumulated token total is not always the sum of input and output: it can be absent, and
  replies that leave out their total can go unseen. `AgentProperties.TotalCanBeAbsent` and
  `AgentProperties.TotalCanFallShort` are instances, `AgentProperties.TotalIsSumIff` says exactly
  when the total is the sum, and `AgentProperties.TotalMissesUnseen` what it misses otherwise.
- The stored trace does not always tell what the model was told: of an error it keeps 2000
  characters. `AgentProperties.LongErrorRun` is an instance, and
  `AgentProperties.TraceTellsDialogueIff` says exactly when the tool messages can be read back.
- A finished walk over conversations does not always yield every one of them: sending a message
  moves its conversation to the top. `Pagination.MovedRowIsMissed` is an instance, and
  `Pagination.MissedIffJumped` says that exactly the rows that jump over a cursor are missed. None
  is yielded twice (`Pagination.RisingRowsAreYieldedOnce`).

## Model

| member | source | states |
|---|---|---|
| AgentRuntime.AgentRuntime.Run | backend/app/agents/runtime.py:50-93 | a request that fails validation raises the first error in the order of the checks, writes nothing and calls nobody; any other adds exactly one run row, whose trace, counters, terminal status and error, requests and tool calls are those of the machine run to its end, and raises or returns accordingly; building the tool definitions may raise too |
| AgentRuntime.AgentRuntime.RunAccepted | backend/app/agents/runtime.py:58-93 | the same for a request that passed the checks |
| AgentRuntime.AcceptedIff | backend/app/agents/runtime.py:52-64 | exactly when a request is accepted, and with which tools; a refusal is an application error |
| AgentRuntime.RefusalNamesFirstFault | backend/app/agents/runtime.py:52-64 | a refused request is told the first thing that is wrong with it, with code and message |
| AgentRuntime.CallerIsToldWhatIsStored | backend/app/agents/runtime.py:65-93 | what the caller is told is what the run row records: the answer of a completed run, the cancellation of a cancelled one, and of a failed one the error whose code and message are stored |
| AgentRuntime.AgentRuntime.RunLoop | backend/app/agents/runtime.py:95-285 | the nested loops over the store, the model and the tools end where the machine ends, for every model and every tool |
| AgentRuntime.AgentRuntime.AskModel | backend/app/agents/runtime.py:112-175 | one model call with its recorded step, completed or failed |
| AgentRuntime.AgentRuntime.CallModel | backend/app/agents/runtime.py:115-124 | the request carries the dialogue so far, the offered tools and the tool choice |
| AgentRuntime.AgentRuntime.TakeReply | backend/app/agents/runtime.py:177-215 | answer, empty answer, exhausted tool budget, or calls taken on as a whole |
| AgentRuntime.AgentRuntime.MakeCall | backend/app/agents/runtime.py:216-279 | one tool call with its recorded step and the reply that the model will see |
| AgentRuntime.AgentRuntime.MakeCalls | backend/app/agents/runtime.py:216-279 | the calls of one reply, in order, up to the first that ends the run |
| AgentRuntime.AgentRuntime.CloseRun | backend/app/agents/runtime.py:75-93 | every end but an answer closes the run row: cancelled, timed out or failed with its code |
| AgentRuntime.AgentRuntime.InsertInstructions | backend/app/agents/runtime.py:391-404 | the loop inserts the instruction behind the leading system messages |
| AgentRuntime.AgentStore.RecordStep | backend/app/agents/runtime.py:321-329 | the step is appended, the step count never falls, tool steps are counted |
| AgentRuntime.AgentStore.CompleteRun | backend/app/agents/runtime.py:331-346 | status and both counters of the row, or nothing when the row is gone |
| AgentRuntime.AgentStore.SetTerminalStatus | backend/app/agents/runtime.py:356-372 | status, error code and error message of the row, or nothing when the row is gone |
| AgentRuntime.AgentStore.FailRun | backend/app/agents/runtime.py:348-354 | the row fails with the code of the exception and the first 2000 characters of its message |
| AgentRuntime.ToolExecutor.Execute | backend/app/tools/executor.py:15-45 | a forbidden or unknown tool is refused and never reached; a timeout, an application error and any other failure become application errors |
| AgentRuntime.AllowListIsExact | backend/app/agents/policy.py:15-42 | a request is accepted exactly when everything configured is registered and everything requested is configured, and then gets exactly what it asked for, or all that is configured |
| AgentProperties.StepKeepsInv | backend/app/agents/runtime.py:111-285 | every model call and every tool call keeps trace, dialogue, records, budgets, replies and authority in order |
| AgentProperties.EveryPoint | backend/app/agents/runtime.py:105-285 | these invariants hold at every point of every run; among them: the stored tool steps report the tool messages one by one (same call; a completed one in full, a failed one the first 2000 characters of the error), the dialogue repeats every reply of the model in order, and the stored model steps recount every request and reply |
| AgentHistory.CallTellsOutcome | backend/app/tools/executor.py:22-45 | what a call adds, for each thing a tool can do: the result with its content and data in a completed step and in the message, or the refusal, timeout or error with its code and text in a failed step and in the message, or nothing and the end of the run |
| AgentHistory.HistoryAt | backend/app/agents/runtime.py:105-285 | at every point of every run: messages tell outcomes, requests tell the dialogue, and the run goes on or has ended for the reason it gives |
| AgentHistory.MessagesTellOutcomes | backend/app/agents/runtime.py:216-279 | at every point of every run, the k-th tool step and the k-th tool message tell what the k-th call brought |
| AgentHistory.CallsAreMadeInOrder | backend/app/agents/runtime.py:216-229 | at every point of every run, the calls made, with their arguments, are the first of those asked for, the rest is still to be made as long as the loop goes on, and a tool is reached exactly by the allowed and registered ones |
| AgentHistory.RequestsTellDialogue | backend/app/agents/runtime.py:112-124 | request i is the whole dialogue with the first i replies and the answers to their calls, and reply i is what the model answered to it |
| AgentHistory.RunsEndForAReason | backend/app/agents/runtime.py:95-285 | every run ends with what the model, a tool or the definitions brought, with a blank answer, or at one of the two limits, which then is exceeded or used up; none of this holds while it goes on |
| AgentHistory.NobodyIsCalledWithoutDefinitions | backend/app/agents/runtime.py:105-106 | when building the tool definitions raises, the run fails with that and nobody is called |
| AgentHistory.RowTellsEnd | backend/app/agents/runtime.py:75-93 | status, error code and the first 2000 characters of the message on the row, for every way a run can end |
| AgentProperties.StepReportsReply | backend/app/agents/runtime.py:230-279 | what is stored of a call reports what the model is told about it |
| AgentProperties.StepTellsReplyIff | backend/app/agents/runtime.py:242-250 | the stored step of a call tells all the model is told exactly when the error, if any, has at most 2000 characters |
| AgentProperties.TraceTellsDialogueIff | backend/app/agents/runtime.py:209-279 | at every point of every run, the tool messages can be read back from the stored steps exactly when no error told is longer than 2000 characters |
| AgentProperties.LongErrorIsLost | backend/app/agents/runtime.py:230-253 | a call whose error is longer leaves a trace that does not tell it |
| AgentProperties.LongErrorRun | backend/app/agents/runtime.py:242-250 | a run in which that happens |
| AgentProperties.StepKeepsRecord | backend/app/agents/runtime.py:126-175 | model step i records iteration i, the length of request i, the allowed tools, and of reply i its finish reason, length, calls and usage |
| AgentProperties.TraceAtEveryPoint | backend/app/agents/runtime.py:107-175 | stored steps are numbered from 1 without gaps and begin with a model step; the stored counters equal the number of steps and of tool steps |
| AgentProperties.CompletionKeepsCounters | backend/app/agents/runtime.py:184-188 | the completing write finds both counters at the values it sets |
| AgentProperties.EveryRequestIsWellFormed | backend/app/agents/runtime.py:209-279 | every request sent is the instructed dialogue followed by assistant messages with calls, each with one reply per call, matching in id and name and order, whether a tool succeeded, failed or was refused |
| AgentProperties.InstructionsKeepDialogue | backend/app/agents/runtime.py:391-404 | exactly one instruction is added, behind the leading system block, and removing it gives the original messages |
| AgentProperties.EndsWithinBudget | backend/app/agents/runtime.py:111-115 | the loop is over after at most `max_steps` model steps and `max_tool_calls` tool steps |
| AgentProperties.FinishIsReached | backend/app/agents/runtime.py:111-285 | the end state of the big-step function is the one that the single steps reach |
| AgentProperties.CompletedIffFinalReply | backend/app/agents/runtime.py:65-93 | a run leaves "running" at its end and not before, and ends "completed" exactly when the last reply has no tool calls and is not blank; counters stay exact |
| AgentProperties.AnswerOfRun | backend/app/agents/runtime.py:189-200 | what a run returns is its last reply, with the usage of all its replies and, among its own metadata, the run, the stored counters and the mode |
| AgentProperties.AnswerMatchesTrace | backend/app/agents/runtime.py:189-200 | the same for the step that returns |
| AgentProperties.TokensAreSummed | backend/app/agents/runtime.py:467-482 | accumulated input and output tokens are each the sum of those reported, and absent exactly when none were |
| AgentProperties.TotalKnownIff | backend/app/agents/runtime.py:483-494 | there is an accumulated total exactly when some reply reports one, or two replies report usage and between them both input and output |
| AgentProperties.TotalIsSumIff | backend/app/agents/runtime.py:467-494 | when reported totals are honest, the accumulated total is the sum of all input and output exactly when there is one, every later reply without a total has no tokens, and no tokens precede a first total that is reported |
| AgentProperties.TotalIsReportedPlusInferred | backend/app/agents/runtime.py:467-494 | what the accumulated total is for any reports: the totals reported and, if the reply that first makes it known reports none, all input and output up to then |
| AgentProperties.TotalMissesUnseen | backend/app/agents/runtime.py:483-494 | when reported totals are honest and a total is known, it and the tokens of those replies add up to all input and output, so it never overstates |
| AgentProperties.TotalCanFallShort | backend/app/agents/runtime.py:484-489 | three replies without totals, whose accumulated total misses the third |
| AgentProperties.TotalCanBeAbsent | backend/app/agents/runtime.py:473-474 | one reply without total, for which there is no accumulated total |
| AgentProperties.StepKeepsAuthority | backend/app/tools/executor.py:22-30 | no call outside the allow-list reaches a tool, no other tool is offered to the model, and a tool choice is given exactly when tools are |
| AgentProperties.DefinitionsAreAllowed | backend/app/agents/runtime.py:374-381 | the offered tools are exactly those registered and allowed, each as often as it is registered |
| AgentProperties.DefinitionsKeepOrder | backend/app/agents/runtime.py:374-381 | and in the order of the registry |
| AgentLoop.Finish | backend/app/agents/runtime.py:95-285 | the loop terminates with an exit for every model and every tool |
| AgentLoop.RepliesFollowCalls | backend/app/agents/runtime.py:216-279 | in a dialogue that owes nothing, call j of an assistant message is answered j places behind it |
| ChatExchange.ChatStore.PrepareExchange | backend/app/domains/chat/service.py:155-294 | the assignments to messages and conversation amount to one atomic step, rolled back when the request is refused or its context cannot be assembled |
| Common.OneOrNone | backend/app/domains/messages/repository.py:70-96 | none, the one row, or an error when several match |
| ChatExchange.ChatStore.FinalizeSuccess | backend/app/domains/chat/service.py:480-512 | the whole new state of reply and conversation, or nothing when the reply is gone |
| ChatExchange.ChatStore.FinalizeFailure | backend/app/domains/chat/service.py:514-536 | the whole new state of the reply, or nothing when the reply is gone |
| ChatExchange.PrepareEffect | backend/app/domains/chat/service.py:168-294 | an accepted request adds one exchange or reopens the failed reply of the existing message, anything else changes nothing; the missing-reply branch is never taken |
| ChatHistory.InadmissibleIsRefused | backend/app/domains/chat/service.py:164-178 | a send is refused as too long exactly when it is, and as not found exactly when the conversation is missing, archived or owned by another user; it then changes nothing |
| ChatHistory.SendEndsIn | backend/app/domains/chat/service.py:181-294 | exactly how an admissible send ends in every reachable state: a new client id is generated for, a known one is replayed, rejected as in progress or generated again by the status of its reply, and without a context the send fails |
| ChatHistory.OnlyOwnersAreAnswered | backend/app/domains/chat/service.py:168-178 | in every reachable state, whoever gets a generation or a stored reply owns the unarchived conversation, and gets rows of that conversation only |
| ChatHistory.AcceptedSendTouchesItsConversation | backend/app/domains/chat/service.py:265-267 | an accepted send sets a missing title and the last activity of its conversation, and touches no other; any other send touches none |
| ChatHistory.EveryMessageIsItsOwners | backend/app/domains/chat/service.py:168-216 | in every reachable state, each user message was sent by the owner of its conversation, with this text and client id |
| ChatExchange.StepKeepsInv | backend/app/domains/chat/service.py:155-294 | every prepare, finalize or crash step keeps: one user message per client id, one reply per user message, one generation per open reply |
| ChatExchange.ExchangesAreUnique | backend/app/domains/chat/service.py:181-240 | the same in every state of every interleaving, with lookups that never find two rows and no missing reply |
| ChatExchange.RunEvolves | backend/app/domains/chat/service.py:217-263 | over whole runs, user messages and completed replies never change, and no row moves or disappears |
| ChatExchange.CompletedIsReplayed | backend/app/domains/chat/service.py:241-245 | once a reply is complete, every admissible send with its client id returns that very row, starts nothing and changes nothing, for the rest of the run |
| ChatExchange.OnlyFailedIsRegenerated | backend/app/domains/chat/service.py:246-263 | only a failed reply is generated again, in its own row, emptied and pending or streaming, and every other row stays as it is |
| ChatExchange.FirstSendAddsTwoRows | backend/app/domains/chat/service.py:186-216 | a generation for new rows happens only for a client id not seen before, and adds exactly the two rows of the exchange, given field by field |
| ChatExchange.CompletesAtMostOnce | backend/app/domains/chat/service.py:489-512 | in any run at most one generation completes a given reply |
| ChatExchange.RegenerationNeedsFailure | backend/app/domains/chat/service.py:246-263 | between two generations of the same reply one of them has failed |
| ChatExchange.CompletedContentIsFinal | backend/app/domains/chat/service.py:496-502 | what the completing generation delivered is what every later state holds |
| ChatHistory.FinishingIsLocal | backend/app/domains/chat/service.py:480-536 | a finalizing step changes the row of its reply, on success the last activity of its conversation, and nothing else; on failure the row holds the partial text and the error code |
| ChatHistory.UntouchedRowStays | backend/app/domains/chat/service.py:480-536 | over whole runs, a row stays as it is until a generation of it starts, completes or fails |
| ChatHistory.FailureIsKept | backend/app/domains/chat/service.py:514-536 | a failed reply keeps partial text and error code until it is generated again |
| ChatExchange.InProgressIffOpen | backend/app/domains/chat/service.py:246-253 | in every reachable state, an admissible repeated request is rejected as in progress exactly when its reply is open |
| ChatExchange.AbandonedIffCrashed | backend/app/domains/chat/service.py:99-111 | in every reachable state, the open replies that no generation works on are exactly those with a crashed generation in the past |
| ChatExchange.CrashBlocksClientId | backend/app/domains/chat/service.py:246-253 | after a crash the reply keeps its row, and every admissible send with its client id is rejected as in progress and changes nothing, for the rest of the run |
| ChatExchange.StrandingRun | backend/app/domains/chat/service.py:148-153 | a run of three steps that ends there |
| ChatExchange.TitleIsStart | backend/app/domains/chat/service.py:538-541 | a derived title is the normalized text if that has at most 72 characters, else its first 69, stripped on the right, and three dots |
| ChatStream.SendMessage | backend/app/domains/chat/service.py:79-133 | prepare, generate when asked to, and finalize with the answer or an empty failed reply |
| ChatStream.DirectAnswerIsStored | backend/app/domains/chat/service.py:104-128 | with any other requests in between, the finalizing step of a direct answer stores its text, provider id, usage and metadata, or an empty failed reply with its error code |
| ChatStream.StreamEvents | backend/app/domains/chat/service.py:370-446 | the generator emits the specified events and ends with the specified finalization; a replayed exchange is answered from the stored reply |
| ChatStream.WithHeartbeats | backend/app/domains/chat/service.py:448-478 | a read that is late stays pending and yields heartbeats; one that is done is handed on once |
| ChatStream.HeartbeatsLoseNothing | backend/app/domains/chat/service.py:456-469 | whatever the delays, the consumer sees every outcome once and in order |
| ChatStream.BeatsPrecedeOutcome | backend/app/domains/chat/service.py:456-469 | each read is preceded by as many timeouts as intervals it lasts, and nothing follows the one that ends the answer |
| ChatStream.HeartbeatsAreTransparent | backend/app/domains/chat/service.py:395-398 | heartbeats change neither the other events nor the finalization |
| ChatStream.DelaysAreInvisible | backend/app/domains/chat/service.py:395-469 | the same reads at any other pace give the same events and the same finalization |
| ChatStream.DeltasArePersisted | backend/app/domains/chat/service.py:407-445 | the concatenated deltas are what the provider sent, the content persisted on success and the partial content persisted on failure |
| ChatStream.StreamShape | backend/app/domains/chat/service.py:380-446 | deltas and heartbeats, then at most one closing event that matches the finalization; no finalization exactly when the provider never ends |
| ChatStream.StreamEventByEvent | backend/app/domains/chat/service.py:391-446 | every stream event by event: a heartbeat for each wait that runs out, a delta for each chunk with text, and for every stream that is consumed to its end and not cancelled exactly one closing event, the completed text or an error with its code; the finalization belongs to it |
| ChatStream.OneHeartbeatPerTimeout | backend/app/domains/chat/service.py:396-398 | as many heartbeats as waits that run out |
| ChatStream.FailedStreamIsReported | backend/app/domains/chat/service.py:439-446 | a stream whose provider raises ends with an error event, under the code that the failed reply is stored with if it was an application error |
| ChatStream.StreamStoresCollected | backend/app/domains/chat/service.py:399-427 | what a stream that ends well stores is what its chunks collect to |
| ChatStream.LatestWins | backend/app/domains/chat/service.py:399-406 | of usage, response id, finish reason and each metadata key, the last chunk that tells it decides |
| ChatStream.UnsaidStaysAbsent | backend/app/domains/chat/service.py:386-406 | and what no chunk tells is absent |
| ChatStream.StoredIsWhatWasStreamed | backend/app/domains/chat/service.py:416-445 | in any reachable state of the exchange protocol, the finalizing step of a stream leaves the reply equal to the deltas sent, complete exactly when the completion event was sent |
| ChatStream.ClientSeesStream | backend/app/domains/chat/service.py:370-446 | a standard client reading the encoded stream sees the heartbeat-free events |
| ChatStream.FramePerEvent | backend/app/domains/chat/service.py:380-446 | every event goes out as one frame, a heartbeat as a comment |
| ChatStream.StreamAnswer | backend/app/agents/service.py:29-58 | the loop emits the specified slices, the last one with finish reason, usage and metadata |
| ChatStream.SlicesAre | backend/app/agents/service.py:35-58 | exactly how many slices there are and what each holds |
| ChatStream.AbsorbAnswer | backend/app/agents/service.py:35-58 | collecting the slices of any answer, of any size, gives the answer back |
| ChatStream.AgentPathsAgree | backend/app/domains/chat/service.py:113-128 | streamed and direct finalization of an agent answer persist the same content, usage and run metadata |
| ChatStream.AgentPathsIdenticalIff | backend/app/domains/chat/service.py:416-427 | exactly when the two stored rows are identical |
| ChatStream.AgentPathsCanDiffer | backend/app/domains/chat/service.py:421-426 | an answer that the two paths store differently |
| Sse.StreamRoundTrip | backend/app/domains/chat/sse.py:5-12 | parsing encoded frames and keep-alive comments by section 9.2.6 of the WHATWG HTML Standard gives back exactly the events |
| Sse.CutStreamIsPrefix | backend/app/domains/chat/sse.py:12 | a client whose connection breaks anywhere has seen a prefix of the events |
| RefreshSessions.AuthService.CreateSession | backend/app/domains/auth/service.py:253-282 | the stored row carries the claims and the hash of the token returned |
| RefreshSessions.AuthService.Register | backend/app/domains/auth/service.py:41-80 | every refusal, or the new account with its first session |
| RefreshSessions.AuthService.Login | backend/app/domains/auth/service.py:82-116 | both refusals, or one new family for the account found |
| RefreshSessions.AuthService.RefreshTokens | backend/app/domains/auth/service.py:118-218 | the step-by-step assignments amount to the specified rotation, revocation or refusal |
| RefreshSessions.AuthService.RevokeFamily | backend/app/domains/auth/repository.py:56-70 | exactly the active rows of the family are revoked, and counted |
| RefreshSessions.AuthService.RevokeAllForUser | backend/app/domains/auth/repository.py:40-54 | exactly the active rows of the user are revoked, and counted |
| RefreshSessions.AuthService.Logout | backend/app/domains/auth/service.py:220-244 | revokes the one session whose stored hash matches, once |
| RefreshSessions.AuthService.LogoutAll | backend/app/domains/auth/service.py:246-251 | the whole new state and the number of sessions ended |
| RefreshSessions.RefreshEffect | backend/app/domains/auth/service.py:118-218 | a refresh either rotates the active session that its token was stored with, or at most revokes rows |
| RefreshSessions.RotationIsExact | backend/app/domains/auth/service.py:183-218 | a rotation revokes the presented session, points it to the new one, adds that as an active session of the same user and family, and changes nothing else |
| RefreshSessions.RefreshSparesOthers | backend/app/domains/auth/repository.py:56-70 | whatever its outcome, a refresh touches no session outside the family of the token's session |
| RefreshSessions.UnconcernedSessionStays | backend/app/domains/auth/service.py:118-251 | over whole runs, a session stays as it is until a refresh within its family, its own logout or a logout of its user everywhere |
| RefreshSessions.RefreshSparesOtherUsers | backend/app/domains/auth/service.py:141-174 | in any run, a refresh never touches a session of another user |
| RefreshSessions.RefusedRefreshChangesNothing | backend/app/domains/auth/service.py:124-181 | in any run, a refresh that ends in anything but a rotation, a detected reuse or a failed validation leaves the database as it was, and so does one without a usable token |
| RefreshSessions.ValidationFailsIff | backend/app/domains/auth/service.py:161-174 | exactly when validation fails |
| RefreshSessions.RevocationCarriesTime | backend/app/domains/auth/repository.py:40-70 | a row that is revoked carries the time of the operation |
| RefreshSessions.StepKeepsInv | backend/app/domains/auth/service.py:118-282 | every operation keeps each family one replacement chain, each row in agreement with its token, the account of each row known, and no address or name used twice |
| RefreshSessions.FamiliesAreChains | backend/app/domains/auth/service.py:131-218 | in every reachable state: one finite chain per family and one user, replaced sessions revoked, no session replaces two others, at most one active session |
| RefreshSessions.AccountsAreUnique | backend/app/domains/auth/service.py:53-62 | in every reachable state a lookup by address or by name finds at most one account |
| RefreshSessions.NamesStayTaken | backend/app/domains/auth/service.py:53-62 | once an account is registered, registering its address or its name again is refused for the rest of the run |
| RefreshSessions.RegistersIff | backend/app/domains/auth/service.py:53-62 | in every reachable state, a registration succeeds exactly when its texts are well formed and no account has its address or name |
| RefreshSessions.SignInAddsOneSession | backend/app/domains/auth/service.py:63-116 | a registration adds one active account and a login none; both add one active session of a new family for that account, and change no other session |
| RefreshSessions.RefusedSignInChangesNothing | backend/app/domains/auth/service.py:41-108 | a registration or login that fails changes nothing |
| RefreshSessions.LoginOfUnknown | backend/app/domains/auth/service.py:89-100 | a login with an address that no account has is refused like one with a wrong password |
| RefreshSessions.LoginOfRegistered | backend/app/domains/auth/service.py:89-108 | exactly how a login with the address of a registered account ends, at any later time |
| RefreshSessions.RunGrows | backend/app/domains/auth/service.py:208-210 | over whole runs, rows never disappear and a revoked row never changes again |
| RefreshSessions.RotatesAtMostOnce | backend/app/domains/auth/service.py:141-218 | in any run a token rotates successfully at most once |
| RefreshSessions.ReuseEndsFamily | backend/app/domains/auth/service.py:141-149 | presenting a rotated token again, while it decodes, is detected, and from then on its family has no active session and issues no token |
| RefreshSessions.DeadForever | backend/app/domains/auth/repository.py:56-70 | a family without active session stays so |
| RefreshSessions.IssuedIsRemembered | backend/app/domains/auth/service.py:259-282 | a token issued at any time in a run is still stored at any later time |
| RefreshSessions.IssuedTokenMatches | backend/app/domains/auth/service.py:161-174 | the row of an issued token always agrees with its claims and hash |
| RefreshSessions.RefreshOfIssuedToken | backend/app/domains/auth/service.py:118-218 | exactly how a refresh with an issued token ends in any reachable state; the branches for a failed validation and for an unknown user are never taken |
| RefreshSessions.RefreshOfForeignToken | backend/app/domains/auth/service.py:118-174 | exactly how a refresh with a token that was not issued ends in any reachable state; a failed validation leaves the family without active session |
| RefreshSessions.IssuedTokenIsUsable | backend/app/domains/auth/service.py:259-282 | a token that was just issued can be rotated at once |
| RefreshSessions.LogoutIsLocal | backend/app/domains/auth/service.py:229-244 | logout touches no session but the token's own, and nothing with a token that is not stored |
| RefreshSessions.LogoutEndsIn | backend/app/domains/auth/service.py:220-244 | exactly how a logout ends and what it changes, for any token |
| RefreshSessions.LogoutRevokes | backend/app/domains/auth/service.py:220-244 | logout with an issued token leaves its session revoked, and repeating it changes nothing |
| RefreshSessions.LogoutAllIsComplete | backend/app/domains/auth/service.py:246-251 | the user is left without active session, every other user untouched, and the count is right |
| Chunker.ChunkText | backend/app/domains/knowledge/chunker.py:10-35 | both argument errors, and otherwise the specified chunks |
| Chunker.ChunkNormalized | backend/app/domains/knowledge/chunker.py:19-35 | the loop collects the stripped, non-empty windows |
| Chunker.ChooseEnd | backend/app/domains/knowledge/chunker.py:23-27 | where a window ends |
| Chunker.WindowsAreChunking | backend/app/domains/knowledge/chunker.py:20-34 | the windows obey the declarative rules: cut at the last space of the second half or at full size, overlap of exactly min(overlap, length - 1) |
| Chunker.ChunkingIsUnique | backend/app/domains/knowledge/chunker.py:20-34 | those rules determine the windows |
| Chunker.WindowsOfTextAdvance | backend/app/domains/knowledge/chunker.py:22-34 | starts strictly increase, ends never fall, no gap, and the exact overlap |
| Chunker.ChunksAreBounded | backend/app/domains/knowledge/chunker.py:28-31 | ordinals are 0..n-1, chunks have 1..size characters and no outer white space |
| Chunker.ChunksAreStrippedWindows | backend/app/domains/knowledge/chunker.py:20-35 | the chunks are the windows, each stripped, in order, without those that hold only white space |
| Chunker.ChunksCover | backend/app/domains/knowledge/chunker.py:16-35 | every non-space character lies in some chunk, at its place |
| Chunker.ChunkingLosesNothing | backend/app/domains/knowledge/chunker.py:16-35 | gluing the windows without their overlaps rebuilds the normalized text, and with it every non-space character of the original |
| PyText.NormalizeKeepsText | backend/app/domains/knowledge/chunker.py:16 | normalizing white space keeps the other characters in order |
| PyText.NormalizeIsNormal | backend/app/domains/knowledge/chunker.py:16 | in normalized text single blanks stand between words and nowhere else |
| PyText.NormalizeKeepsMarks | backend/app/domains/knowledge/chunker.py:16 | the same characters begin words before and after |
| PyText.NormalizeIsUnique | backend/app/domains/knowledge/chunker.py:16 | these two facts determine the normalized text |
| TokenBudget.Trim | backend/app/domains/prompts/token_budget.py:21-63 | the messages, their estimate, how many were dropped and how many system messages were truncated |
| TokenBudget.SystemComesFirst | backend/app/domains/prompts/token_budget.py:30-57 | the result begins with all system messages in their order, each whole or cut to an equal share of max(512, 55 percent of the budget), at least 128 tokens, and no system message comes later |
| TokenBudget.TruncatedAreChanged | backend/app/domains/prompts/token_budget.py:71-87 | the number of truncated system messages is that of those that come out changed |
| TokenBudget.EstimateIsLeast | backend/app/domains/prompts/token_budget.py:65-69 | a message costs eight tokens and the least positive number that covers its text at three characters each |
| TokenBudget.FitSystemMessages | backend/app/domains/prompts/token_budget.py:71-87 | the loop fits every system message into its share and counts the truncations |
| TokenBudget.ChooseDialogue | backend/app/domains/prompts/token_budget.py:42-55 | the loop picks the specified part of the dialogue |
| TokenBudget.TruncateFits | backend/app/domains/prompts/token_budget.py:89-98 | a truncated message costs at most max(30, budget), is as much of the original as goes before the marker, stripped on the right, changes only when it is too long, and is stable |
| TokenBudget.SystemPartIsBounded | backend/app/domains/prompts/token_budget.py:36-39 | the system part costs at most max(512, 55 percent of the budget, 128 per message) |
| TokenBudget.TrimmedIsBounded | backend/app/domains/prompts/token_budget.py:40-63 | the prompt costs at most the budget, or 30 more than its system part |
| TokenBudget.WithinBudgetIff | backend/app/domains/prompts/token_budget.py:40-63 | exactly when the prompt stays within the budget, in terms of the messages given: the charge for the system messages fits, and what is left takes the newest message whole, or is 30 tokens, or is 28 or 29 tokens and, of a message longer than 64 characters, the first five stripped on the right leave at most 1 or 4 |
| TokenBudget.AmpleBudgetSuffices | backend/app/domains/prompts/token_budget.py:36-63 | from max(512, 128 per system message) + 30 tokens on it always does |
| TokenBudget.BudgetCanBeExceeded | backend/app/domains/prompts/token_budget.py:44-51 | a prompt that does not |
| TokenBudget.KeptIsLongestSuffix | backend/app/domains/prompts/token_budget.py:44-54 | a suffix fits exactly when it is no longer than the one kept |
| TokenBudget.DialogueIsNewestPart | backend/app/domains/prompts/token_budget.py:42-55 | the longest fitting suffix of the dialogue survives, or the newest message alone, truncated |
| TokenBudget.TrimIsIdempotent | backend/app/domains/prompts/token_budget.py:21-63 | trimming a trimmed prompt changes and truncates nothing |
| Cursors.Base64RoundTrip | backend/app/utils/cursors.py:22-28 | decoding undoes encoding for payloads of every length |
| Cursors.PaddingRoundTrip | backend/app/utils/cursors.py:22-27 | stripped padding is restored from the length alone |
| Cursors.EncodeShape | backend/app/utils/cursors.py:22 | encoded text is ASCII, whole quads, with 0 to 2 padding characters at the end and none before |
| Cursors.EncodedIsUrlSafe | backend/app/utils/cursors.py:22 | encoded text is URL-safe, but for its padding |
| Cursors.EncodeVectors | backend/app/utils/cursors.py:22 | test vectors of section 10 of RFC 4648 |
| Cursors.DecodesIff | backend/app/utils/cursors.py:25-28 | exactly which texts of the alphabet decode: all but those with one character too many |
| Cursors.ForeignCharactersAreSkipped | backend/app/utils/cursors.py:28 | other ASCII characters are skipped |
| Cursors.CursorDecodesIff | backend/app/utils/cursors.py:25-44 | exactly which texts are cursors, and for which position |
| Cursors.CursorRoundTrip | backend/app/utils/cursors.py:17-35 | a cursor decodes to the position it was made from |
| Pagination.ListForUser | backend/app/domains/conversations/service.py:53-86 | the page cut of the user's unarchived conversations, and the error for a bad cursor |
| Pagination.ListMessages | backend/app/domains/conversations/service.py:155-193 | the same cut for messages, reversed, and both errors |
| Pagination.ConversationEntriesUnique | backend/app/domains/conversations/repository.py:85-92 | the rows a user can list, each under its activity time |
| Pagination.MessageEntriesUnique | backend/app/domains/messages/repository.py:105 | the rows of a conversation, each under its creation time |
| Pagination.SortIsDescendingPermutation | backend/app/domains/messages/repository.py:116-118 | the listing holds the table's rows in strictly descending key order |
| Pagination.ListingIsFilteredSort | backend/app/domains/conversations/repository.py:93-105 | filtering by the cursor and sorting commute |
| Pagination.ListingAfter | backend/app/domains/conversations/repository.py:93-102 | the cursor of a listed row selects exactly what follows it |
| Pagination.PageStep | backend/app/domains/conversations/service.py:72-86 | a page holds the next rows, and a next cursor exactly when rows remain, which then stands for all of them |
| Pagination.BadCursorIsRefused | backend/app/domains/conversations/service.py:61-62 | a page is refused exactly when a cursor text is given that does not decode; without one it is the top of the whole listing |
| Pagination.WalkYieldsListing | backend/app/domains/conversations/service.py:61-86 | pages of any sizes yield a prefix of the listing, and a finished walk all of it, each row once |
| Pagination.PagingDescends | backend/app/domains/conversations/repository.py:93-105 | over tables that change in any way, pages go strictly down and stay below the first cursor |
| Pagination.StayingRowIsYielded | backend/app/domains/conversations/service.py:61-86 | a row that stays in place through all pages of a finished walk is yielded |
| Pagination.RisingRowsAreYieldedOnce | backend/app/domains/conversations/repository.py:85-105 | while rows only move up, as sending a message makes them, no row is yielded twice |
| Pagination.MissedIffJumped | backend/app/domains/conversations/repository.py:85-105 | while rows only move up, a finished walk misses exactly the rows that jump over the cursor between two pages |
| Pagination.MovedRowIsMissed | backend/app/domains/conversations/repository.py:85-105 | a walk of two pages that misses a row |
| Pagination.WalkYieldsTable | backend/app/domains/conversations/service.py:61-86 | a finished walk from the start is the whole table in descending order |
| Pagination.NewerRowsAreInvisible | backend/app/domains/messages/repository.py:106-115 | rows added above the cursor between two pages change no later page |
| Pagination.TimelineIsAscending | backend/app/domains/conversations/service.py:181-193 | prepending the reversed pages gives every row once, oldest first |

## Left out

- AgentRuntime.AgentRuntime.Run: timestamps and durations, and the columns of the run row that only describe its request, are not modelled; a registered tool is known by one name.
- ChatExchange.ExchangesAreUnique: safety only; that a generation in flight is ever finalized is not claimed.
- ChatExchange.ChatStore.PrepareExchange: what the context assembler selects, the model parameters and the response objects are not modelled; the assembler either delivers messages or the transaction is rolled back.
- ChatStream.SendMessage: the response object is not modelled; executions with other requests in between are the subject of DirectAnswerIsStored.
- ChatStream.StreamEvents: the payload fields of an event other than its text and code are not modelled.
- ChatStream.WithHeartbeats: cancelling a pending read and closing the provider's iterator on the way out are not modelled.
- RefreshSessions.AuthService.Register: normalizing and checking the texts of address, name and password, password hashing and device metadata are not modelled; the checks enter as one flag.
- RefreshSessions.ReuseEndsFamily: holds for atomic transactions; interleavings finer than a transaction are not modelled.
- Pagination.WalkYieldsListing: is about rows that stay as they are below the cursors; moving rows are the subject of MissedIffJumped.
- TokenBudget.Trim: floating-point rounding of the 55 percent share is not modelled, and no claim is made that a larger budget keeps more of the dialogue.
- HTTP routing, schemas, dependency wiring, provider clients, embeddings, Redis, SQL text, migrations: I/O and plumbing.
- JWT signing, bcrypt, SHA-256, JSON and ISO 8601 formats: replaced by the assumptions above.
- Memory compaction, retrieval and ranking, the intelligence pipeline: they depend on parts missing from this revision or on floating-point scores.
- Character, persona, memory and knowledge CRUD, health checks, registries, prompt composition, style detection, language guard: would only add easy members.
