# Protocols of the report agent, in Dafny

A model of the stateful parts of the report agent's API service and of its database and runtime plugins, with
proofs of what they promise. `dafny verify dfyconfig.toml` checks everything.

What is modelled, and where:

- **Durable Agent runs.** `AgentRunRecords` holds the persisted record and its transactions, `AgentRunStore` the
  store (one method call is one locked, durable transaction). `AgentRunProtocol` is the whole protocol as a state
  machine: the endpoints that create, retry and answer a run, the executor that drives it, and crashes between any
  two durable writes. `AgentRunSafety` and `AgentRunLiveness` prove properties of every run of it,
  `AgentRunEffects` and `AgentRunOutcomes` say what a client sees of each transaction and what becomes of a run.
  `AgentRunExecutor` is the executor's loop as imperative code over the store; it is proved to take only the
  protocol's steps.
- **Answer streams.** `PrivateStream` and `PrivateStreamFilter` are the filter that hides machine envelopes from
  streamed text: an automaton, an independent erasure specification, and the buffering class that refines both.
  `SseFraming` cuts server-sent event streams into events. `RunEventLog` and `RunEventStream` are the replay log
  and the projection of a stored run into it.
- **Join paths.** `JoinGraph` is the foreign-key graph with its breadth-first search.
- **Sticky routing.** `HermesRoutes` is the store of scope and session bindings, `HermesAssignment` the interleaved
  requests that resolve a node, `HermesCompletion` what they are answered, `HermesPool` balanced selection and
  assignment.
- **Query results, clarifications, schedules.** `QueryResults` and `QueryResultRegistry` are the bounded registry,
  `Clarifications` the rendezvous of question and answer, `Schedules` the idempotent claim of cron callbacks.

Where an object changes its fields, the model is a class whose methods are proved equal to a specification
function; the results about whole histories are lemmas about those functions.

Six places where the code does less than its comments or its neighbours promise; in each the model follows the
code:

- The executor's comment "never replay a turn when Hermes already shows partial progress"
  (`src/xpd_report_agent/api/sessions.py:1611-1613`) does not survive the SESSION_BUSY write
  (`src/xpd_report_agent/api/sessions.py:1587-1603`): it fails a run as retryable without reading the write-ahead
  flag, and the client retry then clears the flag. `BusyWriteBreaksAtMostOnce` gives the run, `BusyGuardIsExact` the
  exact guard. A recovery inspection that misses nothing also restores the promise
  (`TruthfulInspectionNeverTakenTwice`).
- A recovery inspection that raises requeues the run without consuming an attempt, so it can go round forever
  (`RaisingInspectionGoesRound`; `RaisingInspectionContinuesExactly` says which ones do).
- Discarding a clarification that has been answered but not collected loses the answer, although the answering
  request was told "answered"; nothing else loses one (`DiscardLosesExactly`).
- Deleting the session of a scheduled run lets its period be claimed again, even within the 90 seconds: by the next
  callback that passes every check for it, and by nothing else (`ReclaimedExactly`, `ClaimedTwiceExactly`).
- A stored answer was filtered before it was stored (`src/xpd_report_agent/api/sessions.py:1398`) and is filtered once
  more when it is shown (`src/xpd_report_agent/api/sessions.py:2640`); the second time can cut it
  (`SecondFilteringCutsBracket`), exactly when `ShownAgainExactly` says.
- Streamed text with white space around it does not begin the stripped final text, so the replayed deltas then do not
  converge to it (`ReleasedBeginsFinal`).

## Model

| member | source | states |
|---|---|---|
| AgentRunSafety.SubmissionIsAtMostOnce | src/xpd_report_agent/api/sessions.py:1539-1817 | In every protocol run, with crashes between any two durable writes, a leg is POSTed again only when every earlier POST of that leg is known to have taken no effect, provided every SESSION_BUSY write satisfies `BusyWriteIsSafe`. |
| AgentRunSafety.BusyGuardIsExact | src/xpd_report_agent/api/sessions.py:1587-1603 | For every resumable record: "the write-ahead flag is clear, or no retry is left" holds if and only if the SESSION_BUSY write is harmless for every POST history that fits the record. |
| AgentRunSafety.BusyWriteExactly | src/xpd_report_agent/api/sessions.py:1587-1603 | In a state, the SESSION_BUSY write never leads to a second live POST if and only if all POSTs of the leg are accounted for or no retry is left. |
| AgentRunSafety.BusyWriteBreaksAtMostOnce | src/xpd_report_agent/api/sessions.py:1582-1604 | A concrete run (worker dies after its POST was taken, next start finds the chat session busy) after which the same leg is POSTed again: the write reads no flag. |
| AgentRunSafety.TruthfulInspectionNeverTakenTwice | src/xpd_report_agent/api/sessions.py:1582-1715 | With SESSION_BUSY writes and crashes included, no leg takes effect upstream twice, if each recovery inspection that returns shows an accepted turn. |
| AgentRunSafety.AttemptBudget | src/xpd_report_agent/api/agent_runs.py:115-135 | In every reachable state: epoch start <= attempts, pending means flag clear and budget left, running means 1 to max epoch attempts, total attempts <= max * (1 + accepted answers), and POSTs <= attempts. |
| AgentRunSafety.NoStrandedRun | src/xpd_report_agent/api/agent_runs.py:681-708 | In every reachable state a record is listed for resumption if and only if it is pending or running: none is stranded by the attempt limit. |
| AgentRunSafety.RunKeepsBase | src/xpd_report_agent/api/sessions.py:1539-1817 | Shape, budget, POST history and the link between the record and the executor's position hold after every run of the protocol from a state where they hold. |
| AgentRunProtocol.StepKeepsBase | src/xpd_report_agent/api/sessions.py:1539-1817 | Each single step of endpoint, executor or crash keeps that invariant. |
| AgentRunProtocol.OpKeepsBudget | src/xpd_report_agent/api/agent_runs.py:471-492 | Every store transaction in the order the service uses it keeps the attempt budget; a clarification answer opens a new budget of max attempts. |
| AgentRunProtocol.OpKeepsHistory | src/xpd_report_agent/api/agent_runs.py:578-660 | No transaction brings an old POST into the current leg, and no POST outnumbers attempts. |
| AgentRunLiveness.PassEndsSettled | src/xpd_report_agent/api/sessions.py:1606-1817 | An uninterrupted pass over any reachable run has at most 20*max + 20 steps plus 5 per recovery inspection that raises a retryable error, and when it stops the run is succeeded, failed or waiting for input. |
| AgentRunLiveness.StepDoesWork | src/xpd_report_agent/api/sessions.py:1606-1817 | Every executor step lowers one weighted measure of attempts left, open attempt and position, except a recovery inspection that raises a retryable error, which raises it by at most 4. |
| AgentRunLiveness.PassSettles | src/xpd_report_agent/api/sessions.py:1606-1817 | A pass of executor steps from any state that keeps the invariant settles the run when it stops. |
| AgentRunLiveness.ExecutorIsNeverStuck | src/xpd_report_agent/api/sessions.py:1606-1817 | Wherever the executor stands some step is open that is not such a raising inspection. |
| AgentRunLiveness.SlotFailureSettles | src/xpd_report_agent/api/sessions.py:1719-1722 | A failure while waiting for a slot or claiming settles the run in two steps, whatever the inspection of the handler sees. |
| AgentRunLiveness.RaisingInspectionGoesRound | src/xpd_report_agent/api/sessions.py:1630-1650 | Such an inspection on a pending run brings the pass back to exactly the same state, so nothing bounds the number of rounds. |
| AgentRunLiveness.RaisingInspectionContinuesExactly | src/xpd_report_agent/api/sessions.py:1629-1645 | A raising recovery inspection keeps the pass going if and only if its error is safe to retry, the write-ahead flag is clear and an attempt is left; then the run is pending again with no attempt consumed, otherwise it is settled. |
| AgentRunOutcomes.ReportedOutcomeIsShown | src/xpd_report_agent/api/sessions.py:1646-1793 | Wherever an outcome is reported, by the recovery inspection, the inspection of the handler or the reply, and whatever flag or progress goes with it: the pass ends and the client gets exactly that result or question. |
| AgentRunOutcomes.OnlyReportedOutcomesAreShown | src/xpd_report_agent/api/sessions.py:1582-1815 | In every state that keeps the invariant an open run succeeds or waits only by an outcome that was just reported, and shows it. |
| AgentRunOutcomes.RecoveryDecides | src/xpd_report_agent/api/sessions.py:1646-1712 | A recovery inspection without an outcome: a submitted or progressed turn fails as outcome unknown and is never replayed, a spent budget fails as exhausted, an interrupted attempt is requeued, a waiting run goes on untouched. |
| AgentRunOutcomes.RaisedErrorIsStored | src/xpd_report_agent/api/sessions.py:1629-1645 | A raising recovery inspection stores its own error; with the flag set the outcome is unknown and nothing is retried. |
| AgentRunOutcomes.HandlerDecides | src/xpd_report_agent/api/sessions.py:1778-1815 | A failed attempt: seen progress makes the outcome unknown; otherwise the client sees the error of the attempt, retried exactly if it is safe to retry and an attempt is left, and marked exhausted if only the attempts are missing. |
| AgentRunOutcomes.RequeueingRequeues | src/xpd_report_agent/api/sessions.py:1563-1579 | After a retryable failure the run is pending again with a clear flag, the same attempts, request, receipts and pending input. |
| AgentRunOutcomes.BusyStartFails | src/xpd_report_agent/api/sessions.py:1587-1603 | A start in a busy chat session is stored as a retryable SESSION_BUSY failure. |
| AgentRunOutcomes.ClientRetryIsGrantedExactly | src/xpd_report_agent/api/sessions.py:2479-2505 | The create endpoint retries a run if and only if it failed with an error that is safe to retry and an attempt is left, and keeps all it had. |
| AgentRunOutcomes.CutShortRetryIsRepeated | src/xpd_report_agent/api/sessions.py:2489-2502 | A crash inside the retry of the endpoint leaves the run failed with a clear flag, and repeating the request ends where the retry would have. |
| AgentRunOutcomes.ClientAnswerIsTaken | src/xpd_report_agent/api/agent_runs.py:578-660 | In the protocol an answer to a waiting run is always taken: pending, in a new leg, with a full budget and the answer to submit; any other fresh answer changes nothing. |
| AgentRunOutcomes.PostsChangeExactly | src/xpd_report_agent/api/sessions.py:1752-1815 | The history of POSTs grows only by a send in the current leg, and a POST is known as refused exactly when its own attempt fails after it was sent, with nothing seen and an error that is safe to retry. |
| AgentRunOutcomes.UndisturbedRunSucceeds | src/xpd_report_agent/api/sessions.py:1582-1773 | From every reachable state with a pending run and an idle executor: started and undisturbed, the run ends with exactly the outcome of its reply, after one attempt and one POST in its own leg. |
| AgentRunEffects.CreatedRunIsPending | src/xpd_report_agent/api/agent_runs.py:328-349 | Every field of a new run; what it submits is its request. |
| AgentRunEffects.ClaimCountsOneAttempt | src/xpd_report_agent/api/agent_runs.py:403-425 | A claim takes a pending run exactly, counts one attempt, and keeps the time of the first claim. |
| AgentRunEffects.ResultIsStored | src/xpd_report_agent/api/agent_runs.py:427-447 | An open run ends with exactly the given result and time; a failed or waiting one refuses. |
| AgentRunEffects.ErrorIsStored | src/xpd_report_agent/api/agent_runs.py:449-469 | An open run ends with exactly the given error and time; a succeeded or waiting one refuses. |
| AgentRunEffects.RetryIsGrantedExactly | src/xpd_report_agent/api/agent_runs.py:471-492 | Exactly a failed run with an attempt left goes back to pending, forgetting only the failure. |
| AgentRunEffects.QuestionIsAsked | src/xpd_report_agent/api/agent_runs.py:494-548 | The client reads the stripped question with the first four choices that are not blank; receipts and retry epoch stay. |
| AgentRunEffects.QuestionIsRefusedExactly | src/xpd_report_agent/api/agent_runs.py:494-548 | A question is refused exactly if it is blank, or the run is neither open nor waiting for that very question. |
| AgentRunEffects.AnswerOpensLeg | src/xpd_report_agent/api/agent_runs.py:578-660 | Asking and then answering: a pending run with a fresh retry epoch, the new baseline and one more receipt, which will submit the stripped answer to that question. |
| AgentRunEffects.FreshAnswerIsAcceptedExactly | src/xpd_report_agent/api/agent_runs.py:598-660 | Of any stored record a fresh answer is accepted if and only if it waits with an id and a question that is not blank. |
| AgentRunEffects.AnswerIsSubmittedExactly | src/xpd_report_agent/api/sessions.py:1522-1536 | The answer is submitted if and only if neither it nor its question is blank; else the request is. |
| AgentRunEffects.LegSubmitsOneText | src/xpd_report_agent/api/sessions.py:1522-1536 | Within a leg, whatever fails and is retried, every attempt submits the same text. |
| AgentRunEffects.FirstClaimTimeIsKept | src/xpd_report_agent/api/agent_runs.py:403-425 | started_at never changes once it is set. |
| AgentRunEffects.InputRules | src/xpd_report_agent/api/agent_runs.py:54-112 | Keys, answers and identities are valid exactly within their character sets and lengths. |
| AgentRunExecutors.AgentRunExecutor.ExecuteExclusive | src/xpd_report_agent/api/sessions.py:1582-1817 | The pass is a run of the protocol whose steps answer to exactly the replies of its awaits, in order; an outcome that it was told is what the client gets; it takes at most 20*max + 20 executor steps plus 5 per recovery inspection that raises a retryable error, however long the script of awaits is; unless cancelled it leaves the run settled; a settled run is left alone. |
| AgentRunExecutors.ExecuteRun | src/xpd_report_agent/api/sessions.py:1582-1604 | A run that is missing or belongs to another scope is left alone; for any other run the pass ends at rest: cancelled or settled. |
| AgentRunExecutors.AgentRunExecutor.FailOrRetryRun | src/xpd_report_agent/api/sessions.py:1539-1579 | The failing write, the clearing write and the requeueing write are the protocol's steps in that order; true only when the run was requeued and the pause is over. |
| AgentRunExecutors.AgentRunExecutor.Recover | src/xpd_report_agent/api/sessions.py:1614-1648 | The recovery inspection's failures become outcome-unknown when the flag is set; each branch is the protocol's recovery step. |
| AgentRunExecutors.AgentRunExecutor.Reconcile | src/xpd_report_agent/api/sessions.py:1646-1712 | Recovered outcome, set flag, partial progress, exhausted budget and interrupted attempt are decided in this order and refine the protocol; a recovered outcome is what the client gets. |
| AgentRunExecutors.AgentRunExecutor.Attempt | src/xpd_report_agent/api/sessions.py:1714-1772 | Slot, claim, preparation, durable flag, then POST: never a POST before the flag is stored. |
| AgentRunExecutors.AgentRunExecutor.Handle | src/xpd_report_agent/api/sessions.py:1777-1815 | One inspection after a failure: a recovered outcome is stored, seen progress makes the outcome unknown, otherwise fail or retry. |
| AgentRunExecutors.AgentRunExecutor.Persist | src/xpd_report_agent/api/sessions.py:1422-1438 | Only this run's record changes, to the outcome's final or waiting state. |
| AgentRunRecords.ShapeForever | src/xpd_report_agent/api/agent_runs.py:403-679 | From creation on, after any sequence of transactions: completed_at, error, result, clarification and started_at are set exactly in the states that call for them, and a waiting record carries an askable question. |
| AgentRunRecords.ShapePreserved | src/xpd_report_agent/api/agent_runs.py:403-679 | Each transaction keeps that shape. |
| AgentRunRecords.WaitingAlwaysAcceptsFreshAnswer | src/xpd_report_agent/api/agent_runs.py:598-660 | The defensive rejections at 621-630 are unreachable: a fresh valid answer is accepted if and only if the record waits, and opens a fresh retry epoch. |
| AgentRunRecords.HistoryIsKept | src/xpd_report_agent/api/agent_runs.py:403-660 | Owner and request never change, attempts and receipts only grow, and success with its result is final, over any sequence of transactions. |
| AgentRunRecords.AcceptedAnswerIsForever | src/xpd_report_agent/api/agent_runs.py:550-617 | After an accepted answer and any further transactions: same key and answer replays the current record and changes nothing, same key and another answer is a conflict, in both endpoints. |
| AgentRunRecords.EachEpisodeAcceptsOneAnswer | src/xpd_report_agent/api/agent_runs.py:494-660 | Every waiting episode accepts exactly one answer and the open one none yet: accepted answers plus the open question equal the number of moves into waiting_input, over any sequence of transactions; rejected and repeated questions do not count. |
| AgentRunRecords.ReplayForetellsAnswer | src/xpd_report_agent/api/agent_runs.py:550-617 | The replay read returns the record, a conflict or an invalid value if and only if answering would, whatever message count and artifacts come with the answer. |
| AgentRunStores.CreationIsExactlyOnce | src/xpd_report_agent/api/agent_runs.py:300-352 | However the store has moved on, the same identity and request finds the created run without creating, a different request under it always conflicts. |
| AgentRunStores.FreeIdentityCreates | src/xpd_report_agent/api/agent_runs.py:300-352 | A run is created if and only if its identity is valid and free, for its scope and with the given request. |
| AgentRunStores.UpdateReachesExactly | src/xpd_report_agent/api/agent_runs.py:372-388 | An update reaches exactly one record, of its own scope, and only when it is granted. |
| AgentRunStores.MovesForwardIsTransitive | src/xpd_report_agent/api/agent_runs.py:300-679 | What every transaction guarantees of all records composes over any number of transactions. |
| AgentRunStores.AgentRunStore.CreateOrGet | src/xpd_report_agent/api/agent_runs.py:300-352 | Reply and new map, including the error and the replay case; every other record is untouched and the shape invariant kept. |
| AgentRunStores.AgentRunStore.GetOwned | src/xpd_report_agent/api/agent_runs.py:354-360 | Answers with the record exactly to the scope that its run id was formed from. |
| AgentRunStores.AgentRunStore.UpdateOwned | src/xpd_report_agent/api/agent_runs.py:372-388 | Missing or foreign record: None and no change; rejected update: error and no change; else only this record changes. |
| AgentRunStores.AgentRunStore.ClaimPending | src/xpd_report_agent/api/agent_runs.py:403-425 | A pending run goes to running for exactly one caller and counts one attempt; anything else changes nothing. |
| AgentRunStores.AgentRunStore.MarkSucceeded | src/xpd_report_agent/api/agent_runs.py:427-447 | A succeeded record is returned unchanged; only pending or running records succeed. |
| AgentRunStores.AgentRunStore.MarkFailed | src/xpd_report_agent/api/agent_runs.py:449-469 | A failed record is returned unchanged; only pending or running records fail. |
| AgentRunStores.AgentRunStore.RetryFailed | src/xpd_report_agent/api/agent_runs.py:471-492 | Only a failed record with epoch budget left goes back to pending. |
| AgentRunStores.AgentRunStore.MarkWaitingInput | src/xpd_report_agent/api/agent_runs.py:494-548 | A run waits for one normalised question; the flag and the pending input are cleared; the same question again changes nothing, another one is rejected. |
| AgentRunStores.AgentRunStore.ReplayAcceptedInput | src/xpd_report_agent/api/agent_runs.py:550-576 | A returned record or conflict is what accepting the same answer would give, without a change; None for an owned run means that an accepted answer would be new. |
| AgentRunStores.AgentRunStore.AcceptInput | src/xpd_report_agent/api/agent_runs.py:578-660 | Accepts, replays or rejects an answer and states the whole new map in each case. |
| AgentRunStores.AgentRunStore.SetCheckpoint | src/xpd_report_agent/api/agent_runs.py:662-679 | Sets the write-ahead flag of the owned record and nothing else. |
| AgentRunStores.AgentRunStore.ListResumable | src/xpd_report_agent/api/agent_runs.py:681-708 | Lists exactly the owned pending and running records that the limit admits, each once, ordered by creation time and run id; a running record is always listed. |
| PrivateStream.ChunkingDoesNotMatter | src/xpd_report_agent/api/sessions.py:717-775 | For every text and every way of cutting it into chunks, the released text and the final buffer and mode equal those of one feed of the whole text. |
| PrivateStream.FilterErasesBlocks | src/xpd_report_agent/api/sessions.py:717-782 | What was released plus the held suffix is the text with every private block erased, over every chunking. |
| PrivateStream.BlockIsErased | src/xpd_report_agent/api/sessions.py:729-768 | A reading of the specification: the text before an opening marker meets what follows the first closing marker, whatever stands between. |
| PrivateStream.OpenBlockHidesRest | src/xpd_report_agent/api/sessions.py:737-744 | A reading of the specification: an unclosed block hides everything from its opening marker on. |
| PrivateStream.SegmentsAreClean | src/xpd_report_agent/api/sessions.py:746-757 | No visible stretch contains an opening marker. |
| PrivateStream.SplicedMarkerIsShown | src/xpd_report_agent/api/sessions.py:729-768 | The joined output is not marker-free: a block inside any opening marker leaves exactly that marker. |
| PrivateStream.HeldIsShort | src/xpd_report_agent/api/sessions.py:706-714 | The held buffer is always shorter than the longest marker sought. |
| PrivateStream.FoldClean | src/xpd_report_agent/api/sessions.py:759-766 | On a text without a sought marker everything is released except the one suffix that may still become a marker. |
| PrivateStream.FoldPastFirst | src/xpd_report_agent/api/sessions.py:736-757 | A found marker releases what stands before it and restarts the search behind it in the other mode. |
| PrivateStream.HoldingIsReading | src/xpd_report_agent/api/sessions.py:729-735 | Having kept a suffix in the buffer is the same as having just read it. |
| PrivateStream.ShippedBlocksAreWellFormed | src/xpd_report_agent/api/sessions.py:700-703 | The shipped markers hold "<" at index 0 only and none is a prefix of another, which the proofs rest on. |
| PrivateStreamFilter.PrivateProtocolDeltaFilter.FeedDelta | src/xpd_report_agent/api/sessions.py:729-768 | The buffering loop releases and keeps exactly what the character-wise automaton does, and terminates. |
| PrivateStreamFilter.PrivateProtocolDeltaFilter.EarliestOpening | src/xpd_report_agent/api/sessions.py:746-753 | Finds the leftmost opening marker of any kind, or none exists. |
| PrivateStreamFilter.PrivateProtocolDeltaFilter.HoldTail | src/xpd_report_agent/api/sessions.py:759-766 | Keeps the suffix that may still become a marker and releases the rest (drops it inside a block). |
| PrivateStreamFilter.PrivateProtocolDeltaFilter.Finish | src/xpd_report_agent/api/sessions.py:770-775 | Ends in the start state and shows nothing. |
| PrivateStreamFilter.LongestPrivateMarkerPrefix | src/xpd_report_agent/api/sessions.py:706-714 | The longest suffix, shorter than the longest marker, that begins some marker. |
| PrivateStreamFilter.LongestPrefixIsTail | src/xpd_report_agent/api/sessions.py:706-714 | On a marker-free text that suffix is the only one that can still grow into a marker. |
| PrivateStreamFilter.RelayDeltas | src/xpd_report_agent/api/sessions.py:717-768 | Feeding any list of deltas yields the erasure of their concatenation, up to the held suffix. |
| PrivateStreamFilter.VisibleContent | src/xpd_report_agent/api/sessions.py:778-782 | One feed, a finish and the strip: the stripped erased text, without a held suffix shorter than the longest opening marker. |
| PrivateStreamFilter.ReleasedBeginsFinal | src/xpd_report_agent/api/sessions.py:778-782 | After any number of deltas the streamed text begins the final text if and only if it is empty, or begins without white space and does not reach into the white space that the final text is stripped of. |
| PrivateStreamFilter.AllReleasedIsFinal | src/xpd_report_agent/api/sessions.py:778-782 | At the end of the stream the streamed text begins the final text if and only if it has no white space around it, and then it is the final text. |
| PrivateStreamFilter.ShownAgainExactly | src/xpd_report_agent/api/sessions.py:2640 | The second filtering, of a stored and stripped answer, shows it unchanged if and only if it holds no opening marker and no suffix of it begins one. |
| PrivateStreamFilter.SecondFilteringCutsBracket | src/xpd_report_agent/api/sessions.py:2640 | A bracket before an empty private block survives the first filtering and is lost in the second. |
| PrivateStreamFilter.ClarificationIsHidden | src/xpd_report_agent/api/sessions.py:700-782 | For all texts: a literal clarification envelope, whatever it holds, disappears, and what stands around it is shown. |
| PrivateStreamFilter.AnalysisIsHidden | src/xpd_report_agent/api/sessions.py:700-782 | For all texts: so does a literal analysis envelope. |
| PrivateStreamFilter.PlainTextIsShown | src/xpd_report_agent/api/sessions.py:729-768 | A text without either opening marker is shown as it is. |
| SseFraming.SplitAppend | src/xpd_report_agent/api/sessions.py:1122-1130 | Splitting a+b is splitting a and then its remainder followed by b: framing does not depend on chunks. |
| SseFraming.SplitIsLossless | src/xpd_report_agent/api/sessions.py:1125-1130 | Events and remainder concatenate to the input. |
| SseFraming.SplitIsExact | src/xpd_report_agent/api/sessions.py:1122-1130 | Each event ends at its own first boundary and the remainder holds none. |
| SseFraming.SplitIsUnique | src/xpd_report_agent/api/sessions.py:1122-1130 | No other cut of the input has these two properties, so they define the splitter. |
| SseFraming.CompleteEventIsFirst | src/xpd_report_agent/api/sessions.py:1122-1130 | The leftmost match is stable under extension. |
| SseFraming.BoundaryExactly | src/xpd_report_agent/api/sessions.py:1122 | The boundaries are exactly the three literal blank lines, each with its own length. |
| SseFraming.SplitCompleteSseEvents | src/xpd_report_agent/api/sessions.py:1125-1130 | The search-and-slice loop computes that split. |
| SseFraming.ConsumeStream | src/xpd_report_agent/api/sessions.py:942-952 | Reading a stream chunk by chunk processes the events of the whole stream and, at its end, the remainder unless blank; nothing but a blank remainder is dropped. |
| RunEventLog.PollsLoseNothing | src/xpd_report_agent/api/sessions.py:1070-1078 | Over every history of publications, for this or other runs, and polls in which nothing is trimmed: what was received, followed by what the next poll would send, is exactly the events after the first cursor, in order, none twice. |
| RunEventLog.TrimmingLosesExactly | src/xpd_report_agent/api/sessions.py:1065-1066 | Trimming costs a client events if and only if it had not yet seen the newest trimmed one. |
| RunEventLog.PublishedIsWellLogged | src/xpd_report_agent/api/sessions.py:1041-1067 | Publication keeps ids strictly increasing and at most one live entry per key; a repeated key changes nothing. |
| RunEventLog.PublishedAddsExactly | src/xpd_report_agent/api/sessions.py:1056-1064 | A publication adds exactly the given event at the end, unless its key is there. |
| RunEventLog.TrimmedKeepsNewest | src/xpd_report_agent/api/sessions.py:1065-1066 | A log keeps its 2,000 newest events. |
| RunEventLog.PollTwice | src/xpd_report_agent/api/sessions.py:1070-1078 | Two polls around an extension equal one poll of the extended log. |
| RunEventLog.AfterIsExact | src/xpd_report_agent/api/sessions.py:1070-1078 | A poll returns exactly the entries with a higher id. |
| RunEventLog.PublishedKeepsFinalKeys | src/xpd_report_agent/api/sessions.py:2642-2651 | Answer pieces published where the buffered text ends never collide with an earlier piece's key. |
| RunEventStreams.AgentRunEventLog.PublishEvent | src/xpd_report_agent/api/sessions.py:1041-1067 | A new event is in the log exactly as given, under an id that no event of any log, live or evicted, ever had; a known key returns the id of the live event with that key and changes nothing; in a log that was never trimmed every final-answer piece lies inside the buffered text. |
| RunEventStreams.AgentRunEventLog.OpenLog | src/xpd_report_agent/api/sessions.py:1052-1055 | At most 512 logs: only the first opened one goes; ids issued so far stay issued. |
| RunEventStreams.AgentRunEventLog.EventsAfter | src/xpd_report_agent/api/sessions.py:1070-1078 | Exactly the live events with a higher id, with strictly increasing ids. |
| RunEventStreams.AgentRunEventLog.PublishAnswerPieces | src/xpd_report_agent/api/sessions.py:2642-2651 | With one free log entry per 24 missing characters the buffered text afterwards is the streamed text followed by all of the missing text. |
| RunEventStreams.AgentRunEventLog.PublishAnswer | src/xpd_report_agent/api/sessions.py:2640-2651 | Completes the buffered text to the content unless what was streamed does not begin it; changes nothing when nothing is missing. |
| RunEventStreams.AgentRunEventLog.PublishSteps | src/xpd_report_agent/api/sessions.py:2623-2638 | Every non-empty step is announced; a second call adds nothing. |
| RunEventStreams.AgentRunEventLog.PublishArtifacts | src/xpd_report_agent/api/sessions.py:2653-2664 | Every artifact with an id is announced; a second call adds nothing. |
| RunEventStreams.AgentRunEventLog.MaterializeSucceeded | src/xpd_report_agent/api/sessions.py:2623-2681 | With room for one entry per step, per 24 missing characters and per artifact, and one more: every new event is a step, an artifact, a piece of at most 24 characters or the final content; if answers are replayed and the streamed deltas begin the final content (`ReleasedBeginsFinal` says when), the buffered text afterwards is exactly that content, otherwise it stays; a second call publishes nothing. |
| RunEventStreams.AgentRunEventLog.MaterializeRun | src/xpd_report_agent/api/sessions.py:2563-2681 | Each other state is announced by one event of its kind with its text (the question, the failure message), under a key of its own; a second call publishes nothing. |
| RunEventStreams.StatusKeysTellApart | src/xpd_report_agent/api/sessions.py:2586-2617 | Two runs share a status key if and only if they are in the same attempt and state, waiting for the same question: no later state is hidden by an earlier announcement. |
| RunEventStreams.StatusKeysAreThoseOfTheService | src/xpd_report_agent/api/sessions.py:2586-2617 | The keys are those under which creation and claim announce, so neither is announced twice. |
| JoinGraph.ShortestPath | src/xpd_report_agent/hermes_plugin/db_query/join_graph.py:38-54 | Returns a connected chain of graph edges with the fewest edges of all chains, and None exactly when no chain exists; every edge joins the two columns of a foreign key and its condition says so. |
| JoinGraph.DistanceIsSymmetric | src/xpd_report_agent/hermes_plugin/db_query/join_graph.py:9-54 | Reachability and distance do not depend on the direction. |
| JoinGraph.ChainReverses | src/xpd_report_agent/hermes_plugin/db_query/join_graph.py:14-33 | Walking a chain backwards is a chain of the same length. |
| JoinGraph.NearIsVisited | src/xpd_report_agent/hermes_plugin/db_query/join_graph.py:38-54 | The search frontier: every table within the current distance has been visited. |
| JoinGraph.BuildGraph | src/xpd_report_agent/hermes_plugin/db_query/join_graph.py:9-35 | The list of each table holds exactly the joins along foreign keys that leave it, in the order of the keys. |
| JoinGraph.AdjacentIsEdges | src/xpd_report_agent/hermes_plugin/db_query/join_graph.py:14-33 | That list holds exactly the edges, both ways round, that leave the table. |
| JoinGraph.EdgesJoinForeignKeys | src/xpd_report_agent/hermes_plugin/db_query/join_graph.py:14-33 | The edges are exactly the joins along a foreign key, as it stands or with both ends exchanged together, and the condition joins those two columns. |
| JoinGraph.FindJoinPaths | src/xpd_report_agent/hermes_plugin/db_query/join_graph.py:57-93 | Reports unknown tables if and only if there is one; otherwise each pair gets a shortest chain or an exact "unreachable". |
| JoinGraph.EveryPairIsAnswered | src/xpd_report_agent/hermes_plugin/db_query/join_graph.py:71-84 | Each pair of n distinct tables is answered, in n(n-1)/2 entries. |
| JoinGraph.RowsCount | src/xpd_report_agent/hermes_plugin/db_query/join_graph.py:71-73 | The nested loops visit n(n-1)/2 pairs, so none twice. |
| JoinGraph.DistinctKeepsOnce | src/xpd_report_agent/hermes_plugin/db_query/join_graph.py:60 | The normalised tables are those asked for, each once. |
| JoinGraph.UnknownIsMissing | src/xpd_report_agent/hermes_plugin/db_query/join_graph.py:62-68 | The unknown tables are exactly those not in the schema. |
| HermesRoutes.SessionFollowsScope | src/xpd_report_agent/hermes_pool.py:195-255 | From the empty store, after every sequence of binds, rebinds and removals, a session lookup equals the lookup of its scope. |
| HermesRoutes.CoherentForever | src/xpd_report_agent/hermes_pool.py:203-255 | Every interleaving keeps each stored session bound where its scope is bound. |
| HermesRoutes.OnlyMatchingRebindMoves | src/xpd_report_agent/hermes_pool.py:203-255 | A bound scope changes its node only by a compare-and-swap that expects the current node. |
| HermesRoutes.RebindersAgree | src/xpd_report_agent/hermes_pool.py:232-251 | Of all rebinders that expect the same node the first wins, and every later one, whatever happened in between, is told the winner. |
| HermesRoutes.ConflictIsWithScope | src/xpd_report_agent/hermes_pool.py:214-230 | A session bind conflicts exactly when the scope is bound elsewhere; the second check never fires. |
| HermesRoutes.OwnerScopeExactly | src/xpd_report_agent/hermes_pool.py:97-99 | A session belongs to a scope if and only if it reads xpd_, the 20 hexadecimal digits of the scope, an underscore and word characters. |
| HermesRoutes.BindScopeExactly | src/xpd_report_agent/hermes_pool.py:203-212 | A scope is bound exactly if it is free or bound there already; a conflict names its node; nothing else changes. |
| HermesRoutes.BindSessionExactly | src/xpd_report_agent/hermes_pool.py:214-230 | A session is bound together with its scope, and nothing else is. |
| HermesRoutes.RebindExactly | src/xpd_report_agent/hermes_pool.py:232-251 | A matching rebind moves the scope and exactly its sessions; any other changes nothing and tells the node. |
| HermesRoutes.ApplyKeepsCoherent | src/xpd_report_agent/hermes_pool.py:203-255 | Each operation keeps the agreement of the two maps. |
| HermesRoutes.HermesRouteStore.LookupSession | src/xpd_report_agent/hermes_pool.py:195-201 | The stored entry or the scope's; by coherence always the scope's. |
| HermesRoutes.HermesRouteStore.BindScopeTo | src/xpd_report_agent/hermes_pool.py:203-212 | Binds once; a different node is a conflict and changes nothing. |
| HermesRoutes.HermesRouteStore.BindSessionTo | src/xpd_report_agent/hermes_pool.py:214-230 | Binds scope and session together; a conflict changes nothing. |
| HermesRoutes.HermesRouteStore.RebindScopeIfMatches | src/xpd_report_agent/hermes_pool.py:232-251 | The loop moves the scope and exactly its sessions, or reports the current node and changes nothing. |
| HermesRoutes.HermesRouteStore.Forget | src/xpd_report_agent/hermes_pool.py:253-255 | The one session entry is gone, every other binding stays. |
| HermesAssignment.FirstAssignmentsAgree | src/xpd_report_agent/api/hermes_routing.py:126-186 | Without rebinding, in every interleaving of any requests: all completed requests of one scope have the same node, now and after any continuation, and none fails on a conflict. |
| HermesAssignment.CompletionIsCurrent | src/xpd_report_agent/api/hermes_routing.py:126-186 | In every reachable state, also with rebinding: at the step that completes a request its node is in its pool and is its scope's node, and its session is bound there. |
| HermesAssignment.ConflictExactly | src/xpd_report_agent/api/hermes_routing.py:126-186 | In every reachable state a step fails a live request on a conflict if and only if the request is about to bind its session to a node that its scope no longer has. |
| HermesAssignment.OneProcessNeverConflicts | src/xpd_report_agent/api/hermes_routing.py:126-186 | When all requests run on one event loop, so that nothing moves between two awaits of a request, no request ever fails on a conflict, with rebinding too. |
| HermesAssignment.RunKeepsSound | src/xpd_report_agent/api/hermes_routing.py:126-186 | The invariant of every run: coherent routes, requests head only for nodes of their pool, and a pending session bind or re-read has a bound scope. |
| HermesAssignment.RunKeepsAgreed | src/xpd_report_agent/hermes_pool.py:361-403 | The invariant behind it: pending binds head for the node that the scope already has, and bound scopes stay. |
| HermesAssignment.RebindingCanConflict | src/xpd_report_agent/api/hermes_routing.py:138-172 | A run from the empty store in which a request does fail on a conflict; it needs a second process that shares the route file and sees another pool. |
| HermesCompletion.FirstRequestCompletes | src/xpd_report_agent/api/hermes_routing.py:173-186 | A first request of an owner, undisturbed, completes on the healthy node selected for it, with scope and session bound, and no other binding moved. |
| HermesCompletion.BoundRequestCompletes | src/xpd_report_agent/api/hermes_routing.py:138-145 | A request of a bound owner completes on the owner's node when that is in its pool, and moves no scope. |
| HermesCompletion.LostRequestCompletes | src/xpd_report_agent/api/hermes_routing.py:148-170 | With rebinding, a request of an owner whose node is gone moves the owner with all its sessions to the selected node and completes there. |
| HermesCompletion.LoserCompletes | src/xpd_report_agent/hermes_pool.py:361-381 | The loser of a first bind completes on the winner's node. |
| HermesCompletion.RebindLoserCompletes | src/xpd_report_agent/hermes_pool.py:409-432 | The loser of a rebind completes on the winner's node. |
| HermesCompletion.UnservedRequestFails | src/xpd_report_agent/api/hermes_routing.py:146-175 | A lost node without rebinding, or no healthy node, fails the request and changes nothing. |
| HermesCompletion.AloneIsRun | src/xpd_report_agent/api/hermes_routing.py:90-191 | These undisturbed requests are runs of the interleaving model. |
| HermesPools.AssignInTurn | src/xpd_report_agent/hermes_pool.py:311-381 | Any sequence of assignments over a fixed, fully available pool from an empty store keeps node loads within one of each other, and every scope keeps its first node. |
| HermesPools.LeastLoadedKeepsBalance | src/xpd_report_agent/hermes_pool.py:317-330 | Binding a new scope to a least loaded node keeps that balance. |
| HermesPools.HermesPool.SelectNode | src/xpd_report_agent/hermes_pool.py:311-337 | A least loaded candidate, of highest rank among those; an error for no candidate or an unknown one. |
| HermesPools.HermesPool.AssignScope | src/xpd_report_agent/hermes_pool.py:361-381 | A bound scope keeps its node and nothing changes; a new one is bound to a least loaded candidate; a single static node answers without a binding. |
| HermesPools.HermesPool.RebindScope | src/xpd_report_agent/hermes_pool.py:409-432 | Moves only a scope that still has the expected node; otherwise answers with the current one. |
| HermesPools.HermesPool.NodeForSession | src/xpd_report_agent/hermes_pool.py:395-403 | Answers with the scope's node, binding scope and session on first use; a single static node answers without a binding. |
| QueryResults.BudgetsAlwaysHold | src/xpd_report_agent/hermes_plugin/db_query/query_results.py:89-196 | After every sequence of operations the entry count, the entries per session and the total bytes are within limits, and every entry is exactly what some store call put there. |
| QueryResults.FetchReturnsOwnResult | src/xpd_report_agent/hermes_plugin/db_query/query_results.py:185-196 | A fetch returns a result if and only if its own session stored it and it has not expired, exactly as stored, and evicts only what has expired. |
| QueryResults.StoreIsAllOrNothing | src/xpd_report_agent/hermes_plugin/db_query/query_results.py:143-183 | A store is rejected only for its session id or size and then evicts nothing; otherwise the result is in. |
| QueryResults.StoredIsFetched | src/xpd_report_agent/hermes_plugin/db_query/query_results.py:143-196 | Directly after an admitted store a fetch returns exactly what was stored, to the same session only and until it expires. |
| QueryResults.RoomyStoreKeepsAll | src/xpd_report_agent/hermes_plugin/db_query/query_results.py:143-183 | A store within every limit keeps all that has not expired, in order, and adds exactly what was given. |
| QueryResults.StoreEvictsExactly | src/xpd_report_agent/hermes_plugin/db_query/query_results.py:89-141 | Exactly what a store evicts beyond the expired: the oldest beyond the count limit, then the oldest of the session beyond its limit, then the shortest prefix beyond the byte limit. |
| QueryResults.MalformedFetchChangesNothing | src/xpd_report_agent/hermes_plugin/db_query/query_results.py:185-190 | A malformed id or an unsafe session gets nothing and evicts nothing. |
| QueryResults.SafeSessionExactly | src/xpd_report_agent/hermes_plugin/db_query/query_results.py:82-87 | A session is safe if and only if it has an owner and _reflection_ occurs nowhere in it. |
| QueryResults.ValidResultIdExactly | src/xpd_report_agent/hermes_plugin/db_query/query_results.py:13-14 | A result id is result_ and 32 hexadecimal digits. |
| QueryResults.LimitsAreClamped | src/xpd_report_agent/hermes_plugin/db_query/query_results.py:28-80 | The limits are exactly those that clamping environment values to their ranges gives. |
| QueryResults.FittedIsShortest | src/xpd_report_agent/hermes_plugin/db_query/query_results.py:128-141 | Byte eviction removes the shortest oldest-first prefix that makes room. |
| QueryResults.EvictedAreOldest | src/xpd_report_agent/hermes_plugin/db_query/query_results.py:97-104 | Eviction removes exactly k counted entries, none younger than a counted one that stays, and keeps the rest in order. |
| QueryResults.ByAgeIsSorted | src/xpd_report_agent/hermes_plugin/db_query/query_results.py:98-101 | The list that eviction pops from is ordered by creation time and holds only counted entries, as many as there are. |
| QueryResults.ByAgePermutes | src/xpd_report_agent/hermes_plugin/db_query/query_results.py:98-101 | It is a permutation of the counted entries. |
| QueryResults.ByAgeIsStable | src/xpd_report_agent/hermes_plugin/db_query/query_results.py:98-101 | Entries of equal age keep their insertion order. |
| QueryResults.LiveIsWithin | src/xpd_report_agent/hermes_plugin/db_query/query_results.py:90-96 | Exactly the unexpired entries stay, as a subsequence of the registry. |
| QueryResultRegistries.QueryResultRegistry.StoreResult | src/xpd_report_agent/hermes_plugin/db_query/query_results.py:143-183 | The mutable registry stores as specified and keeps every budget. |
| QueryResultRegistries.QueryResultRegistry.GetResult | src/xpd_report_agent/hermes_plugin/db_query/query_results.py:185-196 | Answers and prunes as specified. |
| QueryResultRegistries.QueryResultRegistry.Prune | src/xpd_report_agent/hermes_plugin/db_query/query_results.py:89-104 | The two sweeps over the table leave the unexpired entries minus the oldest overflow. |
| QueryResultRegistries.QueryResultRegistry.DropExpired | src/xpd_report_agent/hermes_plugin/db_query/query_results.py:90-96 | Popping one by one leaves exactly the unexpired entries, in order. |
| QueryResultRegistries.QueryResultRegistry.MakeRoom | src/xpd_report_agent/hermes_plugin/db_query/query_results.py:114-141 | False exactly for an oversized result, and then nothing is evicted; the final return never yields False. |
| QueryResultRegistries.QueryResultRegistry.FitBytes | src/xpd_report_agent/hermes_plugin/db_query/query_results.py:128-141 | The running total is the true total, and the loop always finds room. |
| Clarifications.RendezvousAgrees | src/xpd_report_agent/runtime/hermes_clarify.py:103-143 | In every interleaving without a discard of an uncollected answer: an accepted answer is exactly what the waiter returns, and a waiter that returns without one excludes any accepted answer, before or after. |
| Clarifications.AtMostOneAccepted | src/xpd_report_agent/runtime/hermes_clarify.py:117-143 | At most one answer to a question is ever accepted, whatever is discarded. |
| Clarifications.DiscardLosesExactly | src/xpd_report_agent/runtime/hermes_clarify.py:79-84 | In every interleaving, for an accepted answer: the waiter returns it if and only if no discard takes it back before the waiter has collected it. |
| Clarifications.TimelyAnswerIsAccepted | src/xpd_report_agent/runtime/hermes_clarify.py:54-143 | The deadline is the creation plus the timeout: directly after a creation its owner's answer is accepted exactly before it, and anybody else gets not_found. |
| Clarifications.FirstTimelyAnswerWins | src/xpd_report_agent/runtime/hermes_clarify.py:54-143 | In every interleaving the first answer of the owner, to a question not discarded, collected or expired before, is accepted if and only if it comes before the deadline. |
| Clarifications.HarmfulDiscardLoses | src/xpd_report_agent/runtime/hermes_clarify.py:79-115 | If some discard takes back an uncollected answer, the waiter is told that the question expired. |
| Clarifications.DeadStaysDead | src/xpd_report_agent/runtime/hermes_clarify.py:86-115 | Once a question is gone or expired no answer is accepted and every wait expires. |
| Clarifications.AnsweredIsCollected | src/xpd_report_agent/runtime/hermes_clarify.py:103-115 | Once answered, the first wait collects exactly that answer, whatever happens in between. |
| Clarifications.ClarificationRegistry.Create | src/xpd_report_agent/runtime/hermes_clarify.py:54-77 | Adds a pending question for its owner and session, stripped, with the first four choices that are not blank and the deadline now + timeout; no other question changes. |
| Clarifications.ClarificationRegistry.ExpireSession | src/xpd_report_agent/runtime/hermes_clarify.py:86-101 | Expires and wakes exactly the pending questions of the owned session, counts them, and leaves all others as they were. |
| Clarifications.ClarificationRegistry.FinishWait | src/xpd_report_agent/runtime/hermes_clarify.py:103-115 | Collects an answer or expires the question, and removes only it. |
| Clarifications.ClarificationRegistry.Answer | src/xpd_report_agent/runtime/hermes_clarify.py:117-143 | Accepted exactly for the owner of a pending, unexpired question, and the next wait then collects that answer; a foreign owner gets not_found; not_found and conflict change nothing; after a late answer the wait expires. |
| Schedules.ClaimedAtMostOnce | src/xpd_report_agent/api/schedule_store.py:236-317 | Without run deletion, whatever else happens, no run id is claimed twice: one run per schedule and period, one per manual marker. |
| Schedules.ReclaimNeedsDeletion | src/xpd_report_agent/api/schedule_store.py:236-317 | In any history a run id is claimed again only if that very run was deleted in between. |
| Schedules.ReclaimedExactly | src/xpd_report_agent/api/schedule_store.py:236-317 | In every history, after a start of a run and with no other start in between, a later callback starts it again if and only if it asks for it (schedule present and enabled, right token, no 90-second repetition, same period or marker) and the run was deleted since. |
| Schedules.ClaimedTwiceExactly | src/xpd_report_agent/api/schedule_store.py:236-317 | In every history some run id is claimed twice if and only if it is started, then deleted, and then a callback asks for it. |
| Schedules.DeletionReopensPeriod | src/xpd_report_agent/api/schedule_store.py:383-393 | An instance: claim, deletion of that run, callback of the same period without a waiting marker is claimed again within the 90 seconds, and without the deletion is answered with the existing run. |
| Schedules.PeriodsCoincide | src/xpd_report_agent/api/schedule_store.py:226-234 | Weekly keys coincide if and only if the dates share a Monday-based week; daily keys if and only if the dates are equal. |
| Schedules.MarkerIsUsedOnce | src/xpd_report_agent/api/schedule_store.py:269-282 | A callback either uses a waiting marker up for one new manual run, or (refusal, disabled, 90-second repetition) changes nothing. |
| Schedules.MarkersStayUnused | src/xpd_report_agent/api/schedule_store.py:198-317 | In every history a waiting marker has not been used for a run. |
| Schedules.RefusedExactly | src/xpd_report_agent/api/schedule_store.py:250-260 | A callback is refused exactly for its token and skipped exactly without an enabled schedule; whatever starts nothing changes nothing. |
| Schedules.ClaimStartsExactly | src/xpd_report_agent/api/schedule_store.py:269-317 | A claim adds exactly one pending run for its session, minute and kind, and changes only the marker, the last callback and the last status of its schedule. |
| Schedules.RepetitionWindow | src/xpd_report_agent/api/schedule_store.py:261-268 | Within 90 seconds of a claim every callback is answered with the same run; later, by period. |
| Schedules.StatusIsWritten | src/xpd_report_agent/api/schedule_store.py:324-347 | A status is written to its run and its schedule and nowhere else; a finished one-off schedule is disabled. |
| Schedules.MarkerChangesExactly | src/xpd_report_agent/api/schedule_store.py:198-224 | A marker is set by the owner only, never replaces a waiting one, and is cleared only by its own value. |
| Schedules.DeletionRemovesExactly | src/xpd_report_agent/api/schedule_store.py:383-393 | Exactly the runs of the session go. |
| Schedules.SchedulesChangeExactly | src/xpd_report_agent/api/schedule_store.py:137-196 | A new schedule is enabled and unused, a configured one keeps its owner, token and history, and only its owner removes it. |
| Schedules.ScheduleStore.ClaimRun | src/xpd_report_agent/api/schedule_store.py:236-317 | State and reply of every branch, in the code's order. |
| Schedules.ScheduleStore.SetManualTrigger | src/xpd_report_agent/api/schedule_store.py:198-213 | From here on the next claim is for the returned marker whatever its date, and asking again returns the same marker and changes nothing. |
| Schedules.ScheduleStore.SetRunStatus | src/xpd_report_agent/api/schedule_store.py:324-347 | Adds and removes no run, and a finished one-off schedule claims no further run. |

## Left out

- HTTP, FastAPI, pydantic and httpx: submitting a turn and inspecting the upstream session are decided by the
  environment, with every outcome and error class that the code distinguishes.
- Files, fsync, flock and JSON: each locked transaction is atomic and durable. A store that cannot be read or
  written is not modelled as such; in the executor it is a failed preparation or a crash at that write.
- Malformed stored records (wrong types, missing fields of older versions).
- SHA-256 digests, run ids and secret markers: a digest is the text it is taken of, random ids are fresh values.
- A second API process: the deployment runs one replica with the Recreate strategy
  (`deploy/kubernetes/workloads.yaml:9-15`). The endpoint's clearing write and its retry are therefore one step that
  only a crash can cut in two (`src/xpd_report_agent/api/sessions.py:2489-2502`). The routing model alone allows more
  processes, and says what one process excludes (`OneProcessNeverConflicts`).
- AgentRunStores.AgentRunStore.ListResumable: created_at and the run id digest appear only as the order they define.
- updated_at and request ids.
- `mark_running`: the service does not use it in the executor, and it counts attempts without a limit.
- AgentRunStores.AgentRunStore.SetCheckpoint: models only the write-ahead flag, which is the one value the service
  passes.
- AgentRunLiveness.PassEndsSettled: bounds steps, not time; the pauses and waiting windows have no duration.
- AgentRunExecutors.AgentRunExecutor.ExecuteExclusive: the wait for a chat session and the progress events of an
  attempt are not part of it; a cancelled await is the protocol's crash.
- RunEventStreams.AgentRunEventLog.MaterializeSucceeded: convergence is stated for a log that can take the new
  entries without passing 2,000, where it trims (`RunEventLog.TrimmingLosesExactly`).
  Event payloads are reduced to the attempt and one text.
- RunEventStreams.AgentRunEventLog.PublishEvent: ids are unique in one process; the time-seeded first id after a
  restart is a parameter. It requires that a final-answer key is only used where the buffered text ends, as its only
  caller with such keys does.
- SseFraming.ConsumeStream: the parsing of a frame's fields and the forwarding of its payload.
- JoinGraph.FindJoinPaths: the schema is a parameter; the fixed guidance texts are left out.
- HermesAssignment.FirstAssignmentsAgree: scheduler paths, requests without a scope, and discovery and probing of
  nodes; the healthy nodes and the choice among them are free.
- HermesPools.HermesPool.SelectNode: the digest that ranks tied nodes is any ranking function.
- HermesPools.HermesPool.AssignScope: sequential; the interleaved form with its lost bind is
  `HermesAssignment.Proceed`.
- QueryResultRegistries.QueryResultRegistry.StoreResult: the size is a parameter, limits are constants within the
  ranges the environment variables are clamped to, times are integers, and deep copies are value semantics.
- Clarifications.ClarificationRegistry.FinishWait: the locked part of a wait, at any time after creation; how long
  it blocks, and writes to the item object after its removal, are not modelled.
- Schedules.ScheduleStore.ClaimRun: the local date and minute and the UTC second are parameters (the time zone
  conversion is not modelled), and only the fields that decide a claim are kept.
- Schedule attempts, public views, and the lists of resumable scheduled runs.
- The SQL guard, exports, PDF rendering, object storage, Kubernetes discovery, prompts, the web UI and the
  runtime patches: they depend on libraries outside the repository or have no hard specification.
- Capacity counters, memory watermarks, the reflection queue and file quotas: easier relatives of the above.
