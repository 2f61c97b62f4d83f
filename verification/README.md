# Verified model of the operations platform's core protocols

This project models, in Dafny, the parts of the platform whose correctness spans several functions, and proves
what they keep:

- the persistent inspection queue: rows claimed by several workers, with retries, process crashes and recovery
  at start-up (`InspectionQueue.dfy`);
- the confirmation protocol for actions that the AI assistant proposes (`ActionApproval.dfy`), the loop in which
  the assistant calls tools (`AgentLoop.dfy`), the assembly of streamed tool calls (`ToolCallAssembly.dfy`), the
  streaming buffer and the page that polls it (`StreamPolling.dfy`), the replay of a stored conversation
  (`HistoryMessages.dfy`), and all of these together over a whole conversation (`Conversations.dfy`);
- resource governance: canonical payloads and their comparison (`ResourcePayload.dfy`), baselines, planned
  windows, change events and human decisions (`ResourceGovernance.dfy`), and what holds over whole runs
  (`ResourceSafety.dfy`);
- disk history and its parsers: snapshot retention (`SnapshotRetention.dfy`), the mount table
  (`MountTable.dfy`), the df table (`DfTable.dfy`) and the device rules that must not take a renamed disk for a
  lost one (`DeviceRename.dfy`);
- two small refinements: transactional account reconciliation (`ServiceAccounts.dfy`) and the pruned sliding
  window of failed logins (`FailureWindow.dfy`).

`Ordering.dfy`, `PyText.dfy`, `Sequences.dfy` and `Option.dfy` hold what several of them need: sorting, Python's
string operations, sequence facts, and an option type.

Where the program updates state in place, the model is a class whose methods are proved against functions on
values. Where a protocol runs concurrently, each database transaction is one atomic step of a state machine over
those functions, and the main results are about every run of it: any number of workers, handlers or pages, in
any interleaving. Model replies, tool results, the clock, crashes and lost requests are free inputs.
`dafny verify dfyconfig.toml` checks the project.

The functions that spell out single statements and helpers are not trusted either: for each of the modelled
operations a contract or a law states what it does in terms of rows, columns, records and texts, without using them
(for example `BudgetAsRequested`, `DeadlineLaw`, `ApprovalAlone`, `HandledLawfully`, `RoundsAreParagraphs`,
`HistorySays`, `WhatIsKept`, `MatchesIffExpects`, `LostLaw`, `ParentIff` and `SyncFailsIff`).

Some properties one would expect are false of the code. For each, the exact condition under which it holds is
proved, over whole runs where it is about runs, and a concrete or reachable case in which it fails:

- An action shown as expired may have been decided, and even executed, because the expired branch writes without
  claiming. "Never decided": `ExpiredIsHonestIffGuarded`; "never executed": `ExpiredNeverRanIffSafe`; a reachable
  case of both: `ExecutedActionCanShowExpired`.
- A finished inspection can still change, in its progress and report path (`FinishedStaysIff`,
  `ProgressIsNotAbsorbing`); its status and attempts cannot (`TerminalIsAbsorbing`).
- A server can have two open change events (`AtMostOneOpenIff`), and any number of them (`ManyOpenEvents`).
- A rename is not always silent, although the code's comments say so (`RenamingIsSilentIff`): a device can be
  reported as lost (`PlainPartitionIsReportedLost`), as new (`WholeDiskFilesystemIsReportedNew`), or, when disks
  swap names, as having lost its capacity (`SwappedPairIsReportedHalved`).
- A page that attaches or leaves while an answer to an earlier poll is on its way can show a text twice
  (`ReattachedPageRepeats`), another stream's text (`AttachedPageShowsOtherStream`), or text in a conversation
  without a stream (`LeftPageShowsOldText`). `AlwaysSoundIffFits` is the exact condition; a page that waits meets
  it (`PatientPageFits`).
- A streamed and a whole reply disagree on a call whose name is given outside its function
  (`StreamedEqualsWholeIff`, `NameBesideFunctionIsLost`).
- A printed df row is misread when words of its mount point look like the columns of a row (`DfRoundTrip`,
  `PercentInMountIsMisread`).
- Pruning old failures can change an answer when two checks of one client take the lock in the opposite order of
  their clock readings (`PruningIsInvisibleIff`, `OutOfOrderChecksDiffer`).

The documentation of `_parent_device_name` says that md0 has no parent; the code answers md, and the model follows
the code.

## Model

| member | source | states |
|---|---|---|
| InspectionQueue.InspectionRuns.CreateInspectionRun | models.py:1569-1584 | INSERT OR IGNORE, column by column: exactly when no row has the run id or the dedupe key, a queued row with the budget asked for, no attempts and progress 0 is appended, eligible at once if the budget is positive; otherwise nothing changes |
| InspectionQueue.InspectionRuns.ClaimNextInspectionRun | models.py:1587-1620 | the first eligible row in (created_at, id) order, and only that row, becomes running with one more attempt; nothing changes when no row is eligible |
| InspectionQueue.InspectionRuns.RecoverInterruptedInspectionRuns | models.py:1623-1642 | at start-up every running row with attempts left returns to the queue, every other running row fails, and the count is the number of rows requeued |
| InspectionQueue.InspectionRuns.FinishInspectionRun | models.py:1657-1668 | the unguarded update, row by row: a row with the run id becomes success with all its other columns as stated and can never be claimed again; others stay; with unique run ids at most one row changes |
| InspectionQueue.InspectionRuns.RetryOrFailInspectionRun | models.py:1671-1700 | missing, queued or failed is answered by the attempts of the row, and rows with the run id change to match without a status guard |
| InspectionQueue.InspectionRuns.UpdateInspectionRunProgress | models.py:1645-1654 | row by row: progress is clamped to 0..100, a missing report path keeps the stored one, every other column and every other row stays, and no run becomes more or less eligible |
| InspectionQueue.StepInv | app.py:3048-3092 | every step of workers, enqueuing, crash and restart keeps the ownership invariant: while the process is up, running rows are exactly the rows held by a worker, each by one |
| InspectionQueue.StepRow | models.py:1587-1700 | attempts grow exactly with an execution of that row, a terminal row keeps status and attempts, and every status change lowers a measure |
| InspectionQueue.StatusChangeCauses | models.py:1605-1698 | if-and-only-if: success only from the worker that holds the row, failure only from that worker or from recovery with no attempt left, requeuing only with one left and after the right delay |
| InspectionQueue.ReachableState | models.py:1587-1642 | in every reachable state attempts stay in budget, a running row has exactly one live owner, and a queued row is out of attempts only if it was created with none |
| InspectionQueue.AttemptsAreExecutions | models.py:1605-1617 | over any run of the system attempts equals the executions started and never exceeds the budget |
| InspectionQueue.TerminalIsAbsorbing | models.py:1657-1698 | success and failed are final over any run, although finish and retry carry no status guard |
| InspectionQueue.FinishedRunStep | models.py:1645-1698 | one step changes a finished run if and only if it is a progress report with a progress or path the run does not show |
| InspectionQueue.FinishedStaysIff | models.py:1645-1698 | over any run of the system a finished run stays exactly as it is if and only if no such report comes |
| InspectionQueue.StatusChangesBounded | app.py:3048-3073 | a run changes status at most two times per remaining attempt and once more while running, however workers and crashes interleave |
| InspectionQueue.BoundedOvertaking | models.py:1594-1600 | while an eligible run waits it stays eligible, and claims given to other runs are at most the attempts left on the unfinished runs ahead of it |
| InspectionQueue.EligibleRunIsServed | app.py:3050-3055 | an eligible run is claimed once idle workers have asked for work more often than there are attempts left on the unfinished runs ahead of it |
| InspectionQueue.ProgressIsNotAbsorbing | models.py:1645-1652 | a concrete run in which a late progress update changes the progress of a finished row: only status and attempts are absorbing |
| InspectionQueue.OneRunPerKey | app.py:4338-4360 | over any run of the system, crashes and restarts included, at most one of the requests to enqueue under a dedupe key inserts a row, so a scheduled minute becomes at most one inspection; one row has the key exactly if one did |
| InspectionQueue.BudgetAsRequested | models.py:1576-1617 | a request that adds a row leaves that row, alone with its run id, with the columns asked for, and whatever happens later, crashes included, it is executed at most as often as the request said |
| InspectionQueue.RetryComesBack | models.py:1681-1690 | a failed run with an attempt left can be claimed again exactly from the moment when the delay has passed |
| InspectionQueue.RestartResumes | models.py:1623-1642 | after a crash and a restart at any moment nobody holds a row, and each row that was running can be claimed at once or, without an attempt left, has failed |
| ActionApproval.ActionStore.ClaimAiAction | models.py:2732-2743 | compare-and-set: true exactly when the row was pending, and then that row alone becomes approved |
| ActionApproval.ActionStore.AddAiAction | models.py:2680-2700 | a pending, undecided action under a new id, due at its second of submission plus the time to live; other actions stay |
| ActionApproval.ActionStore.FinishAiAction | models.py:2746-2763 | the unguarded write: the action has the new status whatever it had before, exactly one of its two time stamps is set, a missing name keeps the stored one, it cannot be claimed any more unless pending was written, and all other actions stay |
| ActionApproval.ActionStore.ExpireAiActions | models.py:2766-2777 | exactly the pending rows whose second is before the current one expire, with the time, and their number is returned |
| ActionApproval.ActionStore.ApproveAction | ai_service.py:1525-1626 | an undisturbed approval: unknown, handled, expired, executed or failed, with the stored status to match |
| ActionApproval.ActionStore.RejectAction | ai_service.py:1629-1663 | an undisturbed rejection |
| ActionApproval.DeadlineLaw | models.py:2690-2693 | for every time to live and submission: a sweep expires the action exactly when the current second is past the second of submission plus the time to live (600 if missing, at least 30), and an approval is too late exactly when the clock itself is |
| ActionApproval.SweepAgreesWithApproval | models.py:2771-2772 | a sweep expires nothing that an approval at the same moment would accept, and everything that has been too late for a second |
| ActionApproval.PendingUntilSwept | models.py:2766-2777 | over any run, an action nobody decides is pending until the first sweep after its second and expired from then on |
| ActionApproval.ApprovalAlone | ai_service.py:1525-1626 | the steps of a handler, taken without interruption, leave what the undisturbed service call promises, for any action, time and outcome of the executor |
| ActionApproval.RejectionAlone | ai_service.py:1629-1663 | and the same for a rejection |
| ActionApproval.StepInv | ai_service.py:1538-1626 | every step of every interleaved approval, rejection, expiry, deletion and crash keeps the claim exclusive |
| ActionApproval.AtMostOneExecution | ai_service.py:1551-1626 | over every interleaving an executor runs at most once, only after the one claim, and an action is never both rejected and executed; executed, rejected and pending tell the truth |
| ActionApproval.OnlyAfterTheClaim | models.py:2736-2740 | a run or a rejection is preceded by the one claim, and a claim finds the row pending |
| ActionApproval.ExpiredBeforeClaimNeverRuns | models.py:2766-2777 | an action that left pending without a claim never executes, over any continuation |
| ActionApproval.HonestStep | ai_service.py:1542-1549 | one step keeps "expired means never decided" if and only if it is not the unguarded expired write onto a row somebody has decided |
| ActionApproval.ExpiredIsHonestIffGuarded | ai_service.py:1542-1549 | over a whole run "expired means never decided" holds throughout if and only if no such write happens |
| ActionApproval.NeverRanStep | ai_service.py:1542-1549 | one step keeps "expired means never executed" if and only if it neither writes expired onto an executed action nor executes one that shows as expired |
| ActionApproval.ExpiredNeverRanIffSafe | ai_service.py:1542-1613 | over a whole run "expired means never executed" holds throughout if and only if no such step is taken |
| ActionApproval.ExecutedActionCanShowExpired | ai_service.py:1542-1544 | a concrete reachable state in which an executed action is stored as expired |
| ActionApproval.CrashStrandsApproved | ai_service.py:1551-1626 | an action that is approved when the process dies stays approved unless it is deleted: over any later run nobody executes it, rejects it or lets it expire |
| ActionApproval.DeletedStaysGone | models.py:2579-2590 | a deleted action never comes back, over any run |
| AgentLoop.AgentRun.HandleToolCall | ai_service.py:1170-1227 | one call leaves one tool row with its id, and submits, executes or answers according to access mode, tool level and always_confirm |
| AgentLoop.AgentRun.SubmitConfirmation | ai_service.py:1238-1274 | a pending tool row and one pending action, and the loop stops |
| AgentLoop.AgentRun.ExecuteActionNow | ai_service.py:1277-1310 | full access: executed at once when there is an executor, with one tool row either way |
| AgentLoop.AgentRun.HandleCalls | ai_service.py:1127-1135 | all calls of a round are handled in order, also after one of them stopped the loop |
| AgentLoop.AgentRun.RunChat | ai_service.py:1086-1135 | the run is a legal sequence of rounds that ends in one of the stated ways within AI_MAX_TOOL_ROUNDS + 1 rounds, it leaves exactly their messages and rows, its pending actions are exactly those its calls are submitted for, and its executed ones exactly those they run |
| AgentLoop.RunsAreShort | ai_service.py:1098-1119 | any sequence of rounds the loop can play, against any model, has at most AI_MAX_TOOL_ROUNDS + 1 rounds |
| AgentLoop.BoundIsReached | ai_service.py:1115-1119 | for every limit a model that never stops calling tools is asked exactly that often, and its last calls are dropped |
| AgentLoop.OneOutcome | ai_service.py:1095-1135 | model, tools, clock and cancellation determine the rounds and the ending: the specification leaves no choice |
| AgentLoop.HandledLawfully | ai_service.py:1170-1310 | the law for one call, whatever its tool, mode and answer: in limited mode a known read or remote tool is submitted itself; a request to act is submitted if and only if the mode is not full access or the tool insists, and run if and only if neither holds and there is an executor; refusals, crashes and answers put their own text into row and message; an unknown tool does none of it |
| AgentLoop.RoundLaw | ai_service.py:1095-1135 | every round of every run: one lawful effect per call, in order, before the limit and the deadline and none from then on, and exactly the messages that say so |
| AgentLoop.EndingLaw | ai_service.py:1095-1135 | the ending follows from the last reply, the limits, the submissions and the user's cancellation, each case exactly |
| AgentLoop.ActionsOfARun | ai_service.py:1213-1310 | over a whole run, the pending actions are exactly those the calls are submitted for and the executed ones exactly those they run, in the order of rounds and calls |
| AgentLoop.TranscriptIsPaired | ai_service.py:1121-1131 | every assistant message with calls is directly followed by exactly its tool messages in call order, in the whole conversation, after any number of rounds |
| AgentLoop.OneRowPerCall | ai_service.py:1128-1130 | each executed call leaves exactly one tool row and one tool message, in call order, with the same id and content, and nothing else leaves any |
| AgentLoop.SubmissionsComeLast | ai_service.py:1132-1135 | no model round follows a submission |
| AgentLoop.WaitsIffSubmitted | ai_service.py:1132-1135 | a run ends waiting for a human if and only if it submitted something |
| AgentLoop.RoundConfirms | ai_service.py:1181-1216 | an action executed by the loop belongs to a known tool without always_confirm in full-access mode; in limited mode only change tools answer directly; a row is pending exactly when its call was submitted |
| AgentLoop.NoUnconfirmedAction | ai_service.py:1213-1217 | outside full access, or when every tool insists on confirmation, no run executes an action |
| StreamPolling.Stream.AppendDelta | ai_service.py:110-118 | the delta is appended, after a blank line when it begins a round and the text before is not ended; empty deltas change nothing |
| StreamPolling.Stream.AppendText | ai_service.py:120-123 | the text is appended as it is |
| StreamPolling.Stream.TakeSnapshot | ai_service.py:149-167 | the content from the clamped offset on, with the total length and the status |
| StreamPolling.Poller.AttachStream | static/ai.js:802-817 | polling starts over at offset 0 with no text |
| StreamPolling.Poller.PollOnce | static/ai.js:819-823 | a request for the present offset exactly when the page is polling a stream, whichever of its timers fired |
| StreamPolling.Poller.Receive | static/ai.js:824-834 | the content is appended, the offset becomes the total unless that is 0, and polling goes on exactly while the status is streaming |
| StreamPolling.Poller.Miss | static/ai.js:835-842 | a lost poll is repeated until the fifth in a row gives up |
| StreamPolling.Poller.SelectConversation | static/ai.js:391-402 | leaving a conversation stops polling and drops text and stream |
| StreamPolling.FifthMissGivesUp | static/ai.js:802-842 | after attaching, or after any answer of a stream that goes on, four lost polls in a row keep text, position and polling, and the fifth makes the page give up |
| StreamPolling.ChunkingDoesNotMatter | ai_service.py:110-118 | how the text of a round is cut into deltas does not change the buffer, for any number of cuts |
| StreamPolling.RoundsAreParagraphs | ai_service.py:105-118 | the text of any number of rounds, however each is cut, is their texts as paragraphs: a blank line before a text that is not the first, unless the line before it has ended |
| StreamPolling.SyncedIffFits | static/ai.js:824-827 | an answer to any poll and of any stream leaves the attached page with a prefix of the stream it shows if and only if it starts at the page's offset and carries that stream's characters, or is empty |
| StreamPolling.ShowsIffFits | static/ai.js:824-834 | and, also when an answer of any stream ends the polling, the page shows its own stream's whole text and status if and only if the answer says how that stream ended and reaches its end |
| StreamPolling.AlwaysSoundIffFits | static/ai.js:802-843 | over any run, attaching and leaving unrestricted: an attached page never shows anything but a prefix of its stream nor an end but its end, and a page attached to nothing gets no text, if and only if every answer fits |
| StreamPolling.PatientPageFits | static/ai.js:802-843 | a page that attaches and leaves only with nothing on its way gets only fitting answers, also after re-attaching, and always has a poll or an answer on its way |
| StreamPolling.PageShowsAPrefix | static/ai.js:802-843 | in every run of workers, a page that attaches and leaves when it pleases and a lossy network in which every answer fits, the attached page shows exactly the first offset characters of its stream, and a page attached to nothing shows the final text it ended with, or nothing after leaving |
| StreamPolling.FinalTextIsComplete | static/ai.js:829-834 | in every such run, whenever an answer of any stream ends the polling of an attached page, the page holds the whole final text of its own stream, which is the text stored with the message, under the status the worker set |
| StreamPolling.FinalTextStays | ai_service.py:988-1024 | whatever happens afterwards, the text shown at the end stays the stored one |
| StreamPolling.OffsetNeverDecreases | static/ai.js:826-827 | attaching and leaving aside, offset and text only grow while answers fit |
| StreamPolling.OnePollFinishes | static/ai.js:824-834 | once the worker has ended, one poll that gets through completes a page that is in step |
| StreamPolling.EndReachesThePage | static/ai.js:824-834 | and so does one poll after the worker's last write, with the status it wrote |
| StreamPolling.ForgottenIsMissed | static/ai.js:835-842 | a poll of a stream the server has forgotten is a miss that keeps text and place |
| StreamPolling.SyncedIffStartsHere | static/ai.js:826-827 | an answer of the stream the page is attached to keeps the page right if and only if it starts at the page's offset or the buffer was empty |
| StreamPolling.ReattachedPageRepeats | static/ai.js:802-827 | a reachable state in which a page that attached again with an answer on its way shows a text twice |
| StreamPolling.LeftPageShowsOldText | static/ai.js:391-405 | a reachable state in which a page that left with an answer on its way, and is attached to nothing, shows the old text |
| StreamPolling.AttachedPageShowsOtherStream | static/ai.js:802-827 | a reachable state in which a page attached to a stream that has produced nothing shows another stream's text |
| ToolCallAssembly.AssembleToolCalls | ai_client.py:284-293 | the slot loop over a stream's fragments |
| ToolCallAssembly.FinalizeToolCalls | ai_client.py:392-409 | the calls in index order, with default ids, and no arguments for blank, malformed or non-object JSON |
| ToolCallAssembly.NormalizeToolCalls | ai_client.py:378-389 | the same for a reply that was not streamed, skipping items that are no objects |
| ToolCallAssembly.SlotIsSpelled | ai_client.py:284-293 | slot i holds the last id, the last name and the joined argument texts of the fragments of call i alone, and exists exactly when there are any |
| ToolCallAssembly.LastSentWins | ai_client.py:284-291 | the id and the name of a call are those of its last fragment that carries one, and empty only if none does |
| ToolCallAssembly.SameCallsIffSameSlots | ai_client.py:284-293 | two streams assemble alike if and only if, call by call, their fragments spell the same |
| ToolCallAssembly.InterleavingDoesNotMatter | ai_client.py:284-293 | how the fragments of different calls interleave makes no difference |
| ToolCallAssembly.CuttingDoesNotMatter | ai_client.py:292-293 | where an argument text is cut into fragments makes no difference, in any context |
| ToolCallAssembly.StreamedEqualsWholeIff | ai_client.py:378-409 | a streamed reply gives the same calls as the whole one if and only if every call has its name in its function, or nowhere |
| ToolCallAssembly.NameBesideFunctionIsLost | ai_client.py:284-293 | a concrete call, named beside its function, that a stream and a whole reply read differently |
| ToolCallAssembly.CallIsItsSlot | ai_client.py:392-409 | calls come out in index order, each with the name and arguments of its slot, the arguments as the parser reads them, and its id, or call_ and its index where the slot has none |
| ToolCallAssembly.ArgumentsReachTheCall | ai_client.py:284-409 | from the stream to the call: the arguments are what the parser reads from all argument texts of the call, joined in order |
| ToolCallAssembly.WholeItems | ai_client.py:378-389 | a whole reply gives one slot per item that is an object, with the name in its function or else beside it |
| HistoryMessages.LoadToolCalls | ai_service.py:767-793 | stored calls without an id are dropped, names and arguments take their defaults |
| HistoryMessages.HistoryOf | ai_service.py:796-838 | the messages of a conversation, built in place |
| HistoryMessages.ContextRows | ai_service.py:841-847 | the last rows without leading tool rows |
| HistoryMessages.ContextIs | ai_service.py:841-847 | the context is the end of the conversation: of the last rows, as many as the limit allows but at least two, exactly the leading tool rows are left out |
| HistoryMessages.HistorySays | ai_service.py:796-838 | the messages are, in order, one for each row that says something, with its text, its calls that have an id and the id it answers, and besides that only notes for unanswered calls |
| HistoryMessages.AnswerCounts | ai_service.py:802-833 | for any rows a call id is answered by each of its tool rows, and if there is none by one note per call |
| HistoryMessages.EveryCallIsAnswered | ai_service.py:796-838 | for any rows no emitted call goes unanswered, and it is answered exactly once if and only if it has one tool row, or none and is called once |
| HistoryMessages.WellAnsweredIff | ai_service.py:796-838 | for any rows at all: each message with calls is directly followed by exactly the answers to them, and no answer stands elsewhere, if and only if each row and the tool rows after it agree on every answered id |
| HistoryMessages.CutIsWellAnswered | ai_service.py:841-847 | wherever the limit cuts a fitting conversation, the messages of the rest are well answered |
| Conversations.ConversationFits | ai_service.py:870-938 | rows left by user texts, an open turn and finished agent runs, in any order, fit |
| Conversations.ConversationIsTold | ai_service.py:796-938 | a conversation is replayed entry by entry, word for word: what was said, which calls a run made with which arguments, the answer, and what each call came to |
| Conversations.RequestSays | ai_service.py:1088-1131 | a request is the prompt, the replayed conversation, and then what the run has added, message by message |
| Conversations.EveryRequestIsWellAnswered | ai_service.py:1086-1131 | end to end: for any conversation of such turns, any limit, any model and tools, every request after any number of rounds is well answered |
| ResourcePayload.NormalizeIdempotent | resource_audit.py:68-86 | normalising twice is normalising once |
| ResourcePayload.WhatIsKept | resource_audit.py:15-86 | the canonical form keeps exactly the hardware values that, stripped, are neither empty nor a placeholder, and a payload is empty exactly when it has no disk and no such value |
| PyText.StripIs | resource_audit.py:16 | stripping removes exactly the white space on both sides |
| ResourcePayload.CanonicalOrder | resource_audit.py:77-84 | it lists the same mounts by mount point and the same devices by UUID and name |
| ResourcePayload.WhichMountCounts | resource_audit.py:105-106 | of several records of a mount point the last one counts |
| ResourcePayload.WhichDiskCounts | resource_audit.py:89-125 | a disk is told by its UUID, or its name where it has none, and of its records the one with the greatest UUID and name counts, and the last of those |
| ResourcePayload.OrderDoesNotMatter | resource_audit.py:68-86 | reordering mounts with distinct names and devices with distinct (uuid, name) changes neither canonical form nor fingerprint nor any diff |
| ResourcePayload.CompareResourcePayload | resource_audit.py:93-138 | the loops report exactly the facts about the two payloads, and nothing exactly when they agree |
| ResourcePayload.NoChangesIffAgree | resource_audit.py:93-138 | no change is reported if and only if hardware known on both sides agrees and, when both have disks, mounts, sizes, file systems, device identities and sizes agree |
| ResourcePayload.NoChangesFromItself | resource_audit.py:93-138 | a payload does not differ from itself |
| ResourcePayload.NoChangesSymmetric | resource_audit.py:93-138 | one payload differs from another if and only if that one differs from it |
| ResourcePayload.ReportedIffFact | resource_audit.py:98-137 | each single change is reported if and only if it is a fact about the two payloads |
| ResourcePayload.FullPlanMatchesExactly | resource_audit.py:141-178 | a plan without disk criteria matches if and only if its canonical form is the observation's |
| ResourcePayload.MatchesIffExpects | resource_audit.py:141-178 | a plan matches exactly the payloads it expects: stated hardware values are the observed ones; with criteria the numbers of devices and mounts are the stated ones, a non-empty list names exactly the observed mount points, and each stated size is within 1 GB or 2 percent |
| ResourceGovernance.ResourceStore.SaveResourceBaseline | models.py:914-938 | the server has this payload, version 1 the first time and one more each time after; every other server keeps its baseline |
| ResourceGovernance.ResourceStore.GetActiveResourcePlan | models.py:1014-1030 | the latest open plan of the server whose window covers the time, the one with the greatest id; exactly the open plans whose windows are over lapse, and no other plan changes |
| ResourceGovernance.ResourceStore.AddResourceChangePlan | models.py:954-971 | a new open plan under a new id, and no other plan changes |
| ResourceGovernance.ResourceStore.UpdateResourceChangePlan | models.py:974-990 | plan by plan: only an open plan with the id changes, never its server or author |
| ResourceGovernance.ResourceStore.ExpireResourceChangePlans | models.py:1050-1062 | exactly the open plans whose windows are over lapse, and the answer counts them |
| ResourceGovernance.ResourceStore.FinishResourceChangePlan | models.py:1033-1047 | plan by plan: only a planned plan with the id changes, in its status alone, and none with the id stays planned |
| ResourceGovernance.ResourceStore.UpsertResourceChangeEvent | models.py:1082-1114 | event by event: the latest open event is refreshed and stays open when it has the same fingerprint; otherwise all stay and a pending one with the next id is added |
| ResourceGovernance.ResourceStore.MarkResourceEventRecovered | models.py:1117-1124 | event by event: only pending and confirmed-abnormal events with the id change, in status and last-seen time alone, and whether an event is open never changes |
| ResourceGovernance.ResourceStore.DecideResourceChangeEvent | models.py:1165-1212 | true exactly for an open event; the conclusion and, for normal, the baseline change together |
| ResourceGovernance.ResourceStore.ResetResourceConfiguration | models.py:1215-1222 | nothing of the server is left, and every other server finds the same baseline, latest open event and active plan |
| ResourceGovernance.ResourceStore.EvaluateResourceConfiguration | resource_audit.py:187-242 | the statement sequence gives the specified verdict and state; a match names the latest covering plan, which expects the payload, and a payload is unplanned only if none does |
| ResourceGovernance.VerdictLaw | resource_audit.py:187-242 | what decides between the verdicts: whether the payload says anything, whether there is a baseline, whether the payload differs from the completed one, and what the latest covering plan expects |
| ResourceSafety.StepKeepsBaseline | resource_audit.py:187-242 | a step without authority for a server keeps every confirmed component of its baseline |
| ResourceSafety.BaselineSafety | resource_audit.py:197-234 | over any run a confirmed component changes value only in a step with a plan in its window, a human normal, or a reset |
| ResourceSafety.AcceptedPlanWasOpen | resource_audit.py:223-235 | an accepted plan was planned, covered the time and expected the observation; afterwards it is used up and the baseline is the observation |
| ResourceSafety.PlannedLeaves | resource_audit.py:222-235 | after a match, row by row: the latest open event is concluded and the observation recorded in the plan's name, the plan is matched, overdue plans have lapsed, and nothing else changes |
| ResourceSafety.MissedCountIsUnplanned | resource_audit.py:158-163 | a payload with another number of disks or mounts than the latest covering plan states is unplanned and keeps every component of the baseline |
| ResourceSafety.CompletedIs | resource_audit.py:197-210 | a component the baseline tells nothing of is taken from the payload, the rest is kept, and only then does the baseline get a new version |
| ResourceSafety.QuietLaw | resource_audit.py:212-221 | a payload that shows no change completes the baseline and besides that only marks the latest open event as recovered |
| ResourceSafety.UnplannedShowsStatus | resource_audit.py:237-242 | what is answered for an unplanned payload is the status of the event that now records it |
| ResourceSafety.CancelledIsNeverAccepted | models.py:1033-1047 | a withdrawn plan is never accepted, over any run |
| ResourceSafety.ExpiredAreNeverAccepted | models.py:1050-1062 | nor is a plan that has expired |
| ResourceSafety.PlansAsEdited | models.py:954-990 | an open plan is judged by what it was last edited to, and a new one takes part at once |
| ResourceSafety.ConclusionCounts | models.py:1165-1205 | a person's conclusion takes exactly one event off those that wait, unless it is abnormal, and names the person and the reason |
| ResourceSafety.LatestOpenIs | models.py:1067-1079 | the latest open event is the last row of the server that waits for a conclusion |
| ResourceSafety.PlanUsedAtMostOnce | models.py:1033-1047 | over any run each plan authorises at most one replacement |
| ResourceSafety.AcceptedPayloadIsQuiet | resource_audit.py:212-221 | re-evaluating what the baseline records finds nothing: normal if and only if no event is open, recovered otherwise |
| ResourceSafety.PlanMatchConverges | resource_audit.py:223-235 | after a plan match the accepted payload shows no further change |
| ResourceSafety.NormalDecisionConverges | models.py:1192-1205 | after a human normal the observed payload shows no further change |
| ResourceSafety.UpsertResult | models.py:1082-1114 | afterwards the latest open event is the returned one, with this fingerprint, observation and detail, not recovered |
| ResourceSafety.RepeatInsertsNothing | models.py:1088-1098 | seeing an unplanned payload again inserts no further event |
| ResourceSafety.EventsAreInsertions | models.py:1088-1111 | over any run without a reset of it, a server's events are never lost and grow by one exactly for each of its evaluations that inserts |
| ResourceSafety.InsertionsAreSwitches | models.py:1088-1111 | over any run a server gets at most one event for each switch of fingerprint between its unplanned payloads, counting anew after each step that may close one of its events, and exactly one while nothing of it closes |
| ResourceSafety.NormalMeansNothingOpen | resource_audit.py:189-221 | normal is reported if and only if the payload is empty, or shows no change while no event of the server is open |
| ResourceSafety.EvaluationClosesOnlyByPlan | resource_audit.py:212-242 | evaluation leaves closed and foreign events as they are and closes an open one only by a plan match, as confirmed normal |
| ResourceSafety.NewEventIffNewFingerprint | models.py:1088-1111 | an unplanned payload inserts an event if and only if the latest open one does not carry its fingerprint |
| ResourceSafety.UnplannedIff | resource_audit.py:189-242 | a payload is unplanned if and only if it is not empty, there is a baseline, it differs from the completed one, and no plan in its window expects it |
| ResourceSafety.EvaluationCounts | models.py:1067-1114 | an evaluation adds one open event exactly when it inserts one, and otherwise keeps their number unless a plan matches |
| ResourceSafety.SecondEventIffDoubles | models.py:1088-1111 | a server with at most one open event has two after a step, of whatever kind, if and only if the step records an unplanned payload while its latest open event has another fingerprint |
| ResourceSafety.AtMostOneOpenIff | models.py:1088-1111 | over any run a server never has two open events if and only if no such step is taken |
| ResourceSafety.ManyOpenEvents | models.py:1088-1111 | for every n, a state with n open events of one server is reached from an empty database by payloads that alternate |
| ResourceSafety.SecondOpenEvent | models.py:1099-1111 | recording an unplanned payload while the latest open event has another fingerprint leaves both open |
| SnapshotRetention.DiskSnapshots.SaveDiskSnapshot | models.py:801-817 | the server's row of that date is the snapshot, a new row exactly when the date had none; rows of other dates and servers stay |
| SnapshotRetention.DiskSnapshots.GetDiskBaselines | models.py:833-869 | prev_day and prev_recent are latest rows in their windows, or none when the window is empty |
| SnapshotRetention.DiskSnapshots.PruneDiskSnapshots | models.py:871-881 | a row goes if and only if it is older than the cutoff, the others stay, and the answer counts those that went |
| SnapshotRetention.SurvivorsAreLastOfDay | models.py:805-814 | what overwriting leaves is exactly the last inspection of each day |
| SnapshotRetention.PrevDayExists | models.py:846-861 | with inspections at most a gap apart and one a day beyond the youngest age, prev_day exists with its age in the window, at whatever times of day they ran, if the window is a day and the gap wide less two seconds |
| SnapshotRetention.PrevDayByDefault | config.py:142-143 | the defaults: inspections at most 12 h and 2 s apart and one 36 h old give a baseline 12 to 48 h old |
| SnapshotRetention.LastInspectionServes | models.py:861 | prev_day also exists whenever the last inspection itself is of acceptable age, and is that inspection |
| SnapshotRetention.RecentIsNoOlder | models.py:861-862 | prev_day implies prev_recent, which is no older |
| SnapshotRetention.PruningKeepsBaselines | models.py:871-881 | pruning rows older than the window changes no baseline |
| SnapshotRetention.GapIsTight | config.py:142-143 | and no more: a concrete history with gaps of 12 h and 3 s that leaves no row in the default window |
| MountTable.UnescapeMount | disk_audit.py:120-124 | the four replacements in sequence |
| MountTable.ReplacementsDecode | disk_audit.py:95-124 | on every string those replacements equal a single-pass decoder of the four escapes |
| MountTable.DecodeEscape | disk_audit.py:120-124 | decoding undoes the four escapes, on every string |
| MountTable.FourEscapes | disk_audit.py:95-100 | the four escapes are those of a space, a tab, a line feed and a backslash |
| MountTable.LineLaw | disk_audit.py:127-141 | any line of words: skipped with fewer than four, and otherwise device and mount point decoded, the type in small letters, and read-only exactly when ro is among the options |
| MountTable.ParseMounts | disk_audit.py:127-141 | one record per line with four fields or more |
| MountTable.MountsRoundTrip | disk_audit.py:127-141 | every table printed with these four escapes is read back, with spaces, tabs, line feeds and backslashes in devices and mount points |
| DfTable.ParseDfLine | disk_audit.py:144-171 | the row at the rightmost percent column preceded by three integers, or nothing exactly when there is none |
| DfTable.RightmostAnchor | disk_audit.py:150-161 | the row read is the row at a given anchor if and only if no anchor lies further right |
| DfTable.UsageLaw | disk_audit.py:152-156 | a word is read as a percentage exactly when it is a decimal number and a percent sign, and what is read is its value |
| DfTable.DecimalLaw | disk_audit.py:156 | the digits before the point and those after it as a fraction, and nothing else |
| PyText.OtherForms | disk_audit.py:158-161 | int() also reads a plus sign and digits set apart by an underscore |
| DfTable.DfRoundTrip | disk_audit.py:144-171 | a printed row is read back, spaces included, if and only if no four words of its mount point, with a word after them, look like three sizes and a percentage |
| DfTable.DfRoundTripPlainMount | disk_audit.py:144-171 | in particular whenever no word of the mount point looks like a percentage |
| PyText.FieldsOfJoin | disk_audit.py:146-166 | words joined by single spaces are found again by splitting, so devices and mount points of that form are recovered letter for letter |
| DfTable.PercentInMountIsMisread | disk_audit.py:150-161 | a concrete mount point that is misread |
| DeviceRename.CheckDevices | disk_audit.py:699-744 | exactly the lost devices and then the size changes, each once and in the order of the earlier snapshot's names; nothing for snapshots that cannot be compared |
| DeviceRename.CheckAdditions | disk_audit.py:974-1012 | exactly the new mount points by name, then each record of a new disk, in listed order, unless the device of some new mount point has a name that begins with the disk's |
| DeviceRename.LostLaw | disk_audit.py:699-723 | in terms of the records: a device is reported as lost exactly when its name is that of a real device and gone, its last record is of no volatile kind, and neither its UUID nor that of a partition of it is kept |
| DeviceRename.SizeLaw | disk_audit.py:724-743 | a size is reported exactly when it falls below half, or otherwise changes by more than 5 percent and 1 GB |
| DeviceRename.NewLaw | disk_audit.py:979-1011 | a disk is reported as new exactly when its name was not there, no partition of it carries a kept UUID, and no new mount point is on a device so named |
| DeviceRename.NewMountLaw | disk_audit.py:990-1003 | a mount point is reported as new exactly when it is there and was not |
| DeviceRename.BaseNameIs | disk_audit.py:992 | the base name is what follows the last slash |
| DeviceRename.ParentIff | disk_audit.py:585-597 | which names are those of partitions, and of which disk, as forms of text |
| DeviceRename.ParentOfPartition | disk_audit.py:585-597 | the disk of a numbered partition name, in both naming schemes |
| DeviceRename.LostUnderRenaming | disk_audit.py:600-641 | for any injective renaming of disks and partitions that keeps UUIDs: exactly which devices the report calls lost |
| DeviceRename.NewUnderRenaming | disk_audit.py:611-622 | and exactly which it calls new, new mount points included |
| DeviceRename.ResizedUnderRenaming | disk_audit.py:724-744 | and which sizes it calls changed: a name that passes to another device is compared with the size of the device that had it before |
| DeviceRename.RenamingIsSilentIff | disk_audit.py:699-744 | a pure renaming gives no device finding and no new disk if and only if no device is lost, new or resized in these three senses |
| DeviceRename.RenamedDiskIsNotLost | disk_audit.py:625-641 | whatever else is lost, added or renamed: a disk with a UUID-bearing partition that reappears is not reported as lost, nor is the partition, nor is the disk it now lies on reported as new |
| DeviceRename.PlainPartitionIsReportedLost | disk_audit.py:710-719 | a concrete rename in which a partition without a UUID is reported as lost |
| DeviceRename.WholeDiskFilesystemIsReportedNew | disk_audit.py:983-988 | a concrete rename in which a disk formatted as a whole is reported as new although its UUID is known |
| DeviceRename.SwappedDisksAreReportedHalved | disk_audit.py:724-738 | whenever two disks with UUID-bearing partitions swap names, none is lost or new, but one of less than half the size under the other's name is reported as having lost its capacity |
| DeviceRename.SwappedPairIsReportedHalved | disk_audit.py:724-738 | a concrete pair |
| ServiceAccounts.ServiceStore.SyncServiceAccounts | models.py:1913-1954 | succeeds with the reconciled table if and only if every submitted id belongs to the service and no password account is left without a ciphertext |
| ServiceAccounts.ServiceStore.AddService | models.py:1957-1977 | one transaction: refused exactly when a service of the server has the name; any failure leaves services and accounts unchanged; names stay unique |
| ServiceAccounts.ServiceStore.UpdateService | models.py:1980-2001 | one transaction: a failure, an unknown service, or accounts not provided leave the accounts unchanged |
| ServiceAccounts.SyncFailsIff | models.py:1913-1954 | a save fails exactly when an account is submitted that the service does not have, or else a password account, stored or new, is left without a password; and says which |
| ServiceAccounts.StoredAccount | models.py:1934-1949 | a stored account survives if and only if it was submitted, with the fields of its last submission and the last ciphertext submitted, else the old one |
| ServiceAccounts.NewAccount | models.py:1927-1933 | in the final table each submission without an id is an account, numbered on in order |
| ServiceAccounts.ExactlyTheSubmitted | models.py:1919-1949 | the service's accounts afterwards are exactly the submitted ids and one per new account |
| ServiceAccounts.OtherServices | models.py:1939-1949 | accounts of other services are untouched |
| ServiceAccounts.SyncKeepsSealed | models.py:1951-1954 | a successful save never leaves a password account without a ciphertext, in any service |
| ServiceAccounts.UneditedFormChangesNothing | models.py:1937-1941 | saving an unedited form, which carries no ciphertexts, succeeds and changes nothing |
| FailureWindow.Failures.IsLocked | app.py:179-185 | locked if and only if five stamps lie in the window; older stamps are dropped |
| FailureWindow.Failures.RecordFailure | app.py:188-191 | every window of this client that reaches back to the failure has one failure more, every other window as many as before |
| FailureWindow.LockedIff | app.py:179-185 | a check answers locked exactly when at least five of the client's failures lie in the last 15 minutes |
| FailureWindow.PruningIsInvisible | app.py:179-196 | for any interleaving of checks, failures and successes of all clients, dropping old stamps changes no answer as long as the checks of each single client are in order between its successes |
| FailureWindow.PruningIsInvisibleIff | app.py:179-196 | checks and successes can be combined with any failures, over any table, without pruning changing an answer if and only if the checks of each client are in order between its successes |
| FailureWindow.OutOfOrderChecksDiffer | app.py:181-184 | a concrete pair of checks with swapped clock readings for which it does |

## Left out

- SSH and HTTP, threads, sessions, routing, templates and all page code except the poller: their outcomes are
  inputs of the steps.
- Failures of single SQL statements partway through a function: every transaction completes, or is rolled back
  where the code does so.
- SHA-256: a fingerprint is the canonical payload it is computed from, so distinct payloads have distinct
  fingerprints. AES-GCM: a ciphertext is an opaque text.
- Message wording: changes, findings, errors and notes are data, and the message, result and error columns of runs
  and actions are not kept; neither is the result text written back to a tool row after a decision, which changes
  no id.
- Time is an integer and does not run backwards. Local-time jumps and daylight saving are not modelled.
- Role and ownership checks, audit rows, usage counts and tool events.
- Two generations at once in one conversation, and a crash between the tool rows of a run and its last write: the
  results about whole conversations are about finished runs. `WellAnsweredIff` says exactly which stored rows are
  safe, such ones included.
- Conversations.EveryRequestIsWellAnswered: names and arguments of calls are dropped from the messages of the
  running turn, since pairing does not depend on them.
- The last_any baseline, which only affects wording, and the findings stored with a snapshot.
- Capacities in `disk_structure`: its field names differ from the collectors', so the sizes it stores are 0; the
  comparison is modelled on payloads instead. Other keys a payload may carry are not modelled.
- MountTable.MountsRoundTrip: white space other than space, tab and line feed in a mount point is not recovered, because
  the code splits at it; nor is a # that newer kernels print as \043, which the code does not undo. Lower-casing
  covers ASCII letters.
- Digits outside ASCII in int() and in device names.
- DeviceRename.CheckAdditions: mounts are the visible ones already, so the exclusion lists are not modelled.
- ToolCallAssembly.AssembleToolCalls: indices are integers and fields are texts; other JSON types in these fields are not modelled.
- ServiceAccounts.ServiceStore.UpdateService: memberships of systems and environments and the time columns are not modelled.
- FailureWindow.Failures.RecordFailure: stands for the login and the reveal window alike; remote addresses and user names are an opaque key.
- RAID, counter, kernel, inode, growth and burst rules, rounding helpers, export lists and redaction: true but
  easy.
