# Verified model of the GTM service's protocols

This project models, in Dafny, the parts of the service whose correctness depends on more than one
function: the chat agent's human-in-the-loop tool loop, the two idempotent workbook actions, tenant
binding on pooled connections, idempotent row ingest, the SearXNG instance pool, and five smaller
algorithms. Each module is one component:

| component | modules | form |
|---|---|---|
| tool calls rebuilt from streamed fragments | `ToolAssembly`, `IndexOrder` | method over a dictionary, against a sender machine |
| one chat turn: tool loop, memo, approvals, failover, round budget | `ToolLoop`, `TurnCourse`, `TurnStory`, `ChatEndpoint`, `Transcript`, `Approvals`, `ApprovalReplay` | classes and methods with an event log; the turn's course as a function, its requests as a story |
| every interleaving of turns and resubmissions | `ApprovalGate`, `ChatIsGated` | state machine, and the proof that chat requests in any interleaving are runs of it |
| saving researched people as a workbook | `PeopleWorkbook`, `PeopleAction` | methods; state machine of concurrent runs |
| creating and sourcing a workbook | `SourceAction`, `SourceRace` | class and runs with faults; state machine of overlapping calls |
| tenant binding | `Tenancy` | classes; state machine of tasks and connections |
| row ingest | `IngestRows`, `IngestReplay` | class; state machine of concurrent requests |
| search fan-out, merge, instance choice, health pass | `FanOut`, `SearchMerge`, `InstancePool`, `HealthCheck` | state machines, methods, classes |
| URL guard | `UrlGuard`, `Numerals` | functions; the redirect loop as a method |
| enrichment-table repair, rate limit, template column ids | `CellDedupe`, `RateLimit`, `TemplateIds` | classes and methods |

A state machine's actions are the atomic steps of the code (a commit, a channel send, a store
transaction); its theorems hold for every finite run, so for every interleaving. Methods that change
state are proved against functions of the old state, and the theorems are about those functions.

## What is not as promised

Where the code does not do what its own text says, the code is modelled and the exact condition is
proved, for all inputs and with the failing ones exhibited:

- **Replay of decisions without an approval id.** The placeholder call is numbered (`invalid-0`) but its
  answer always says `invalid-approval`, so the transcript pairs up if and only if every decision named an
  approval id (`ApprovalReplay.ResolveApproved`, apps/api/routers/copilotkit.py:2740-2762).
- **The round budget.** For any set of answers providers may give, every turn makes at most one request plus one
  per round and one per fallback, exactly unless some answer calls read-only tools when they are offered and some
  answer calls them although none are (`TurnCourse.BudgetHoldsExactlyUnless`); then there is no bound at all
  (`TurnCourse.BoundedExactlyUnless`). Each unasked call adds at most one request (`TurnCourse.BudgetHolds`), and
  that is met for every number of rounds, fallbacks and unasked calls (`TurnCourse.BudgetIsMet`).
- **The ingest replay window** runs from the record's timestamp, not from its commit: an answer at t can differ
  from a record stamped s and committed at p if and only if s <= p <= t and t is more than a week after s
  (`IngestReplay.WindowIsExact`), which may be within a week of p (`IngestReplay.WindowIsNotFromCommit`).
- **Key mapping.** The docstring says every known lead field maps to itself. It does if and only if the last
  column displayed under that name, if any, shows that field (`IngestRows.FieldKeepsItsName`).
- **Order of arrival in a search.** It does not matter for a key if and only if the key is trusted, two engines
  found it, or the replies that bring it agree on whether their first hit for it lists more than one engine
  (`SearchMerge.OrderMattersExactlyIf`); it can matter because an engine that one hit names twice counts as two
  (`SearchMerge.RepeatedEngineBreaksIt`). Without repeats it never does (`SearchMerge.ArrivalOrderIsIrrelevant`).
- **Reusing a people workbook.** The key alone decides whose people are saved. Every receipt reports its own
  caller's people, in every run, if and only if callers never send two selections under one key
  (`PeopleAction.OwnPeopleExactlyIfConsistent`, with `PeopleAction.ReuseIgnoresTheSelection` for any two that differ).
- **A binding that changes inside an open transaction** — a scope entered or left, a workspace published — does
  not retarget the transaction: it serves the task's workspace afterwards if and only if its setting showed the
  new binding before (`Tenancy.ChangeInsideTransaction`, with `Tenancy.ScopeInsideTransactionKeepsOldTenant`).
- **Resumable sourcing** enqueues a key at most once, in every run, if and only if neither the acknowledgement of
  an enqueue nor the record of it can be lost (`SourceAction.OneJobExactlyIfNothingIsLost`); otherwise any number
  of jobs is reachable (`SourceAction.LossesPileUp`), the recorded one plus one per loss (`SourceAction.JobsPerKey`).
- **Overlapping sourcing calls** under one key. Receipts that show a job show the same one, in every run, exactly
  unless calls may overlap and a job may end meanwhile (`SourceRace.OneJobShownExactlyUnless`): otherwise a second
  job is inserted and recorded over the first, with nothing lost (`SourceRace.SecondJobReplacesFirst`). A job once
  shown is shown from then on exactly if calls do not overlap (`SourceRace.ShownFromThenOnExactlyIf`).

## Model

| member | source | states |
|---|---|---|
| ToolAssembly.Absorb | apps/api/routers/copilotkit.py:2568-2583 | one chunk's fragments are added to the dictionary per index, ids replaced only by non-empty ones; a null name or argument raises |
| IndexOrder.SortedKeys | apps/api/routers/copilotkit.py:2592 | calls are handed on in increasing index order, each index once |
| ToolAssembly.RoundTrip | apps/api/routers/copilotkit.py:2553-2601 | however calls are cut into fragments and interleaved across indices, the original calls come back in index order, each with its id, its name and its arguments, an empty text of which becomes an empty object |
| ToolAssembly.AssembledFields | apps/api/routers/copilotkit.py:2568-2583 | for every stream of fragments: the calls are the indices it mentions, each with its last usable id and its pieces in the order they came |
| ToolAssembly.EveryStreamIsATransmission | apps/api/routers/copilotkit.py:2568-2583 | converse: every readable stream whose ids agree is a transmission of exactly the calls rebuilt from it |
| ToolAssembly.TransmissionArrives | apps/api/routers/copilotkit.py:2568-2583 | at every point what has arrived plus what is left to send is the call, so a complete transmission arrives whole |
| Transcript.AppendWellFormed | apps/api/routers/copilotkit.py:2653-2656 | appending to a paired transcript keeps it paired exactly if what is appended is paired by itself |
| Transcript.ExchangeWellFormed | apps/api/routers/copilotkit.py:2653-2656 | an assistant message and its answers pair up exactly if the answers' ids are the calls' ids in order |
| Approvals.ApprovalStore.Create | apps/api/services/chat_history.py:251-273 | a proposal is stored as pending under a new non-empty id, all else unchanged; without a workspace nothing is stored |
| Approvals.ApprovalStore.Consume | apps/api/services/chat_history.py:276-316 | the rows and the answer are those of consuming the decision, which DecisionsTakeEffect spells out |
| Approvals.DecisionsTakeEffect | apps/api/services/chat_history.py:285-313 | the tenant's deny or approve of its pending proposal within 3600 seconds is recorded on that row as Denied or Approved and brings the stored call back under the approval id; anything else changes nothing and brings nothing back |
| ApprovalGate.EveryRunIsSafe | apps/api/routers/copilotkit.py:2594-2650 | over every interleaving of turns and resubmissions, inline runs are read-only tools, every other run is a listed mutation stored by one earlier proposal of the same tenant with the stored name and arguments within its lifetime, and no proposal runs twice |
| ApprovalGate.DeniedNeverRuns | apps/api/services/chat_history.py:295-309 | a denied proposal never runs, whatever is resubmitted later |
| ApprovalGate.DenyingIsFinal | apps/api/services/chat_history.py:285-313 | after a step that takes such a deny the proposal is denied and no later state of any interleaving has run it |
| ApprovalGate.SpentStaysSpent | apps/api/services/chat_history.py:302-309 | no step changes a proposal that has left the pending state |
| ApprovalGate.StepKeepsInv | apps/api/routers/copilotkit.py:2728-2776 | proposing, consuming, acting and disconnecting keep every live ticket the one claim on its approved row |
| ApprovalReplay.ResolveApproved | apps/api/routers/copilotkit.py:2711-2815 | every decision is consumed before any tool runs; exactly approved listed mutations run; the transcript grows by one assistant message and one answer per decision and stays paired if and only if every decision named an approval |
| ApprovalReplay.ConsumeAll | apps/api/routers/copilotkit.py:2728-2736 | the first loop leaves the rows of consuming each decision in turn, with the stored call or none for each |
| ApprovalReplay.ActOnAll | apps/api/routers/copilotkit.py:2750-2815 | the second loop runs exactly the approved listed mutations under their stored names and arguments, refuses the rest, and answers each |
| ApprovalReplay.ReplayPairsUp | apps/api/routers/copilotkit.py:2740-2762 | the replayed message pairs up if and only if all approval ids are non-empty |
| ApprovalReplay.RunsWhatWasStored | apps/api/routers/copilotkit.py:2733-2776 | what runs is a proposal of this tenant that was pending and fresh when the resubmission began, under its stored name and arguments, and a listed mutation |
| ApprovalReplay.RepeatsRunOnce | apps/api/routers/copilotkit.py:2729-2736 | one proposal repeated in one resubmission runs once |
| ApprovalReplay.PendingExactlyIfUnsettled | apps/api/services/chat_history.py:295-309 | a tenant's proposal is still pending at its turn if and only if no earlier decision of the resubmission settled it |
| ApprovalReplay.TicketsExactlyIf | apps/api/routers/copilotkit.py:2729-2736 | a decision brings back the stored call if and only if it is the first to settle the tenant's own pending proposal in time |
| ApprovalReplay.RunsExactlyIf | apps/api/routers/copilotkit.py:2764-2775 | the n-th act runs a tool, with the stored name and arguments, if and only if its decision is an approve, the first to settle the proposal, and of a listed mutation |
| ApprovalReplay.ReplaySays | apps/api/routers/copilotkit.py:2740-2815 | the transcript shows the stored call with its result or the reason of the refusal, or the placeholder and its refusal, in each case exactly where it applies |
| ApprovalReplay.EchoIsIgnored | apps/api/routers/copilotkit.py:2730-2735 | the echoed name and arguments change nothing |
| ApprovalReplay.StillPending | apps/api/routers/copilotkit.py:2729-2736 | a proposal still pending after some decisions was pending before them and none of them consumed it |
| ToolLoop.RunsAtMostOnce | apps/api/routers/copilotkit.py:2612-2628 | in a turn, each name with canonical arguments runs at most once |
| ToolLoop.RepeatsGetTheFirstResult | apps/api/routers/copilotkit.py:2617-2618 | a repeated call gets the result of the one earlier run of that name and those arguments |
| ToolLoop.SignatureInjective | apps/api/routers/copilotkit.py:2615 | the memo key separates calls of read-only tools |
| ToolLoop.GateHolds | apps/api/routers/copilotkit.py:2612-2650 | only read-only tools run inline, only others are proposed, and once something is proposed the turn asks and runs nothing more |
| ToolLoop.ApprovalsOnlyAdded | apps/api/routers/copilotkit.py:2639-2650 | a turn leaves existing approvals alone and adds only pending ones of its own tenant that it proposed |
| ToolLoop.RequestsStayPaired | apps/api/routers/copilotkit.py:2652-2680 | every request of a turn that starts from a paired transcript carries a paired transcript |
| ToolLoop.FollowUpWellFormed | apps/api/routers/copilotkit.py:2653-2668 | the follow-up with all answers, and with the cap notice, is paired |
| ToolLoop.ReadReply | apps/api/routers/copilotkit.py:2506-2592 | a reply calls tools exactly if some readable chunk finishes with calls rebuilt, and then exactly those; it fails over exactly on 429, 5xx, or a network failure after a readable stream; otherwise it ends the turn |
| ToolLoop.FailsOverExactlyIf | apps/api/routers/copilotkit.py:2508-2548 | a busy or broken provider fails over, a client error does not, and a stream does if and only if the network failed before it ended, became unreadable or completed calls |
| ToolLoop.Hear | apps/api/routers/copilotkit.py:2594-2608 | a reply that calls tools counts as gated exactly if one of its calls needs confirmation |
| ToolLoop.CallsToolsOnce | apps/api/routers/copilotkit.py:2589-2592 | there is at most one point where a reply calls tools |
| ToolLoop.ChatTurn.RunSafeCalls | apps/api/routers/copilotkit.py:2610-2633 | exactly the read-only calls are answered, in order, each with its remembered or fresh result; gated ones are passed over |
| ToolLoop.ChatTurn.ProposeGated | apps/api/routers/copilotkit.py:2639-2650 | exactly one proposal is stored per gated call, in order, and nothing runs |
| ToolLoop.SortedOut | apps/api/routers/copilotkit.py:2606-2650 | every call is either on the list of read-only calls or on that of gated ones, once, in its place |
| ToolLoop.ListedAt | apps/api/routers/copilotkit.py:2639-2650 | the proposals and the requests counted since a point of the log are exactly those logged, each in its place |
| ToolLoop.ChatTurn.HandleCalls | apps/api/routers/copilotkit.py:2592-2680 | with a gated call exactly the gated calls are proposed, in order, and the turn ends; otherwise the turn goes on as EveryRequestFollows spells out, within the round cap |
| ToolLoop.ChatTurn.AskAgain | apps/api/routers/copilotkit.py:2653-2680 | the model is asked again with the calls and their answers appended, without tools and with the notice if the rounds are used up |
| ToolLoop.FollowUpContinues | apps/api/routers/copilotkit.py:2653-2668 | the messages asked again with are all earlier ones, then the calls, then one answer per call in order under its id with the result of its run, then the notice exactly if capped |
| ToolLoop.ChatTurn.StreamChat | apps/api/routers/copilotkit.py:2448-2708 | whole turn: the log stays legal, the number of requests and whether the turn ends are those of its course, failover repeats the same messages to the next provider, and calls are handled as read |
| TurnStory.EveryRequestFollows | apps/api/routers/copilotkit.py:2448-2708 | in every turn each request goes to the provider reached by the failovers so far, with tools while a round is left, and carries the previous request's messages if that provider was unavailable, else those messages, the calls heard, their answers in order and the notice if and only if the rounds are used up |
| TurnStory.EveryReplyDealtWith | apps/api/routers/copilotkit.py:2592-2650 | in every turn the read-only calls of each reply have run, and after a reply with gated calls nothing is requested and the turn's proposals are exactly those, in order |
| TurnStory.StandsAt | apps/api/routers/copilotkit.py:2448-2708 | each request of a turn leads to the next by what its reply amounted to |
| ToolLoop.EveryCourseHappens | apps/api/routers/copilotkit.py:2553-2608 | whatever kinds of answers are asked for, there are provider replies that amount to them |
| TurnCourse.BudgetHolds | apps/api/routers/copilotkit.py:2657-2680 | a turn makes at most 1 + fallbacks + rounds left requests, plus one for each answer that called tools although none were offered; failover never costs a round; a turn that has not ended has used every answer |
| TurnCourse.QuietProvidersAddNothing | apps/api/routers/copilotkit.py:2658-2674 | with providers that call no tools when none are offered nothing is added to the bound |
| TurnCourse.BudgetIsMet | apps/api/routers/copilotkit.py:2512-2548 | for every number of rounds, fallbacks and unasked calls some turn makes exactly as many requests as the bound allows and ends |
| TurnCourse.BudgetHoldsExactlyUnless | apps/api/routers/copilotkit.py:2657-2680 | for every set of possible answers: all turns keep to 1 + rounds + fallbacks requests if and only if not both some answer calls read-only tools when offered and some answer calls them when none are |
| TurnCourse.BoundedExactlyUnless | apps/api/routers/copilotkit.py:2657-2680 | under that condition, and only then, any number bounds the requests of all turns |
| TurnCourse.EndlessScripts | apps/api/routers/copilotkit.py:2669-2673 | from a set with both kinds of calls, for every number from the rounds up, a turn that has made that many requests and is not over |
| ChatIsGated.EveryMixtureIsSafe | apps/api/routers/copilotkit.py:2594-2776 | over any interleaving of the steps of any chat requests, each consuming its decisions, acting on them and running its loop while others change the rows, the log is safe |
| ChatIsGated.MixtureIsARun | apps/api/routers/copilotkit.py:2594-2776 | refinement: after any moves of any requests the approval gate has a run that ends in the same rows and log |
| ChatIsGated.DecideIsAStep | apps/api/services/chat_history.py:276-316 | consuming one decision from whatever rows there are is a step of the gate |
| ChatIsGated.ActOnIsAStep | apps/api/routers/copilotkit.py:2750-2815 | acting on one ticket, whatever others did since it was taken, is a step of the gate |
| ChatIsGated.SpeakIsAStep | apps/api/routers/copilotkit.py:2594-2650 | an inline run or a proposal of a loop under way is a step of the gate from whatever rows it finds; its other events are none |
| ChatIsGated.ChatIsMoves | apps/api/routers/copilotkit.py:3567-3579 | what the endpoint does when nobody intervenes is a sequence of such moves, from any state a mixture of requests has led to |
| ChatEndpoint.Chat | apps/api/routers/copilotkit.py:3567-3579 | one request of the chat endpoint: decisions first, then the loop; it makes the requests of its course, at most 1 + rounds + fallbacks with quiet providers, and keeps the transcript paired if it was and each decision named an approval; its requests start from the transcript after the decisions and follow one another as EveryRequestFollows says |
| PeopleWorkbook.IndexPeople | apps/api/routers/copilotkit.py:1483-1493 | people are indexed by id in first-seen order, the earliest person winning |
| PeopleWorkbook.Select | apps/api/routers/copilotkit.py:1483-1613 | the rows are the wanted people, one each, in the wanted order, if and only if all are known and named; an unknown id, nobody named and somebody nameless are told apart |
| PeopleWorkbook.WantedAreDistinct | apps/api/routers/copilotkit.py:1497-1515 | the selected ids are pairwise different, whatever was asked for |
| PeopleWorkbook.WantedExactly | apps/api/routers/copilotkit.py:1497-1515 | saved are exactly the nonblank ids asked for, or everybody among the first 100 people if none is |
| PeopleWorkbook.AskedInOrder | apps/api/routers/copilotkit.py:1497-1501 | the ids asked for are saved in the order in which they are first named |
| PeopleWorkbook.FirstWithIsFirst | apps/api/routers/copilotkit.py:1483-1493 | somebody listed twice is saved as first listed |
| PeopleAction.OneWorkbookPerKey | apps/api/routers/copilotkit.py:1642-1703 | over every interleaving, successful receipts for one key name one workbook whose rows are the creator's people at positions 0..n-1, and two receipts that both claim creation are one |
| PeopleAction.SomebodyCreatedIt | apps/api/routers/copilotkit.py:1688-1703 | when all runs have ended, a workbook's creator either failed before answering or gave the one receipt that claims creation |
| PeopleAction.CommittedIsFinal | apps/api/routers/copilotkit.py:1690-1698 | no later step, a losing run's included, changes a committed workbook or its rows |
| PeopleAction.ReceiptIsTrue | apps/api/routers/copilotkit.py:1616-1640 | a receipt of a committed workbook says persisted with the true row count and the stored selection |
| PeopleAction.ReuseIgnoresTheSelection | apps/api/routers/copilotkit.py:1642-1647 | for any two selections under one key there is a run after which a reused receipt reports the other caller's people |
| PeopleAction.ReceiptReportsTheCreators | apps/api/routers/copilotkit.py:1616-1640 | in every run each receipt reports exactly the people its workbook's creator selected |
| PeopleAction.ConsistentKeysReportOwn | apps/api/routers/copilotkit.py:1642-1703 | when equal keys carry equal selections every receipt reports its own caller's people |
| PeopleAction.OwnPeopleExactlyIfConsistent | apps/api/routers/copilotkit.py:1642-1703 | for any set of requests: in every run made of them all receipts report their own caller's people if and only if no two of them carry different selections under one key |
| PeopleAction.StepKeepsInv | migrations/versions/f9a0b1c2d3e4_workbook_action_idempotency.py:24-27 | every step keeps one workbook per key with contiguous rows and a creator |
| SourceAction.Store.CreateSourceWorkbook | apps/api/routers/copilotkit.py:2107-2241 | one call's full effect: reject, conflict, reuse, resume or create, with a crash after the workbook's commit, the queue down, an acknowledgement lost or a crash before recording |
| SourceAction.Store.Resume | apps/api/routers/copilotkit.py:2112-2173 | a call under a taken key: conflict, a workbook without source column, a recorded job reported, or the missing job enqueued and recorded under each fault |
| SourceAction.Store.AddJob | apps/api/services/queue_service.py:88-110 | a job is inserted unless the queue is down or an active job has the fire key |
| SourceAction.ReceiptsAgree | apps/api/routers/copilotkit.py:2107-2229 | over any calls and faults, receipts for one key name one workbook, and once one shows a job every later one shows that job |
| SourceRace.OneJobShownExactlyUnless | apps/api/routers/copilotkit.py:2107-2229 | over every interleaving of calls for one key, receipts that show a job show the same one if and only if not both calls overlap and jobs end meanwhile, whatever crashes or enqueues fail |
| SourceRace.ShownFromThenOnExactlyIf | apps/api/routers/copilotkit.py:2107-2229 | every receipt after one that shows a job shows it too, in every run, if and only if calls do not overlap |
| SourceRace.SecondJobReplacesFirst | apps/api/routers/copilotkit.py:2123-2160 | a run without crash or lost acknowledgement whose two receipts show different jobs, the second recorded over the first |
| SourceRace.RefusedAfterShown | apps/api/routers/copilotkit.py:2145-2155 | a run in which the index refuses the second call, which shows no job after the first showed one |
| SourceAction.JobsPerKey | apps/api/routers/copilotkit.py:2136-2160 | one workbook per key; its jobs are the recorded one plus one per enqueue whose acknowledgement or record was lost |
| SourceAction.ReliableRunsEnqueueOnce | apps/api/routers/copilotkit.py:2123-2160 | without such losses a key is enqueued at most once, however often the queue was down or the process died earlier, and although jobs finish |
| SourceAction.LossesPileUp | apps/api/routers/copilotkit.py:2136-2160 | with either loss, for every n some run of one repeated request has enqueued its key n times |
| SourceAction.OneJobExactlyIfNothingIsLost | apps/api/routers/copilotkit.py:2136-2160 | for any set of faults: in every run with these faults each key has at most one job if and only if neither loss is among them |
| SourceAction.ConflictExactlyIf | apps/api/routers/copilotkit.py:2112-2122 | under a taken key a valid call conflicts if and only if discovery is asked for and the stored brief id is another or missing, or it is not and the stored description differs; then nothing changes |
| SourceAction.ReceiptsShareTheBrief | apps/api/routers/copilotkit.py:2112-2122 | over any run two discovery calls under one key that get receipts carry one brief id, and two others one description |
| SourceAction.TurnedAwayExactlyIf | apps/api/routers/copilotkit.py:2058-2093 | a call with an empty description, an incomplete brief or a key over 255 characters is an error and changes nothing; without faults no other call is |
| SourceAction.ReceiptSays | apps/api/routers/copilotkit.py:2161-2241 | a receipt says reused if and only if the key was taken, and ok if and only if no job was asked for or one is recorded |
| SourceAction.WorkbooksKept | apps/api/routers/copilotkit.py:2112-2173 | over any run a workbook keeps its request and, once recorded, its job |
| SourceAction.CallKeepsInv | migrations/versions/c7d8e9f0a1b2_intent_poller.py:96-100 | each call keeps one workbook per key and one active job per fire key, and its receipt tells the stored truth |
| Tenancy.Task.EnterScope | apps/api/core/tenancy.py:138-143 | entering binds the workspace and remembers the old binding; an empty workspace raises and binds nothing |
| Tenancy.Task.LeaveScope | apps/api/core/tenancy.py:144-147 | leaving puts the remembered binding back |
| Tenancy.Connection.SetWorkspace | apps/api/database.py:53-72 | at begin the connection takes the task's workspace, or is left as it is when none is bound |
| Tenancy.TenantsNeverMix | apps/api/database.py:42-72 | over every interleaving an idle connection carries no tenant, every row read or written belongs to the workspace its task was bound to, and an unbound transaction can touch no row |
| Tenancy.StepKeepsInv | migrations/versions/c42d0273d9bd_pg_tenancy_shared_leads_signals_tables_.py:175-190 | no step lets a transaction's setting differ from its tenant, or an empty tenant into a row |
| Tenancy.ScopeRestoresBinding | apps/api/core/tenancy.py:125-147 | from a scope's entry to the matching exit, whatever is published or nested inside and whatever other tasks do, the task's binding comes back |
| Tenancy.UnmovedTransactionIsItsOwners | apps/api/core/tenancy.py:104-118 | until its owner rebinds or enters or leaves a scope, a transaction's tenant is its owner's binding |
| Tenancy.OnlyCommitsStore | apps/api/database.py:53-72 | over any run the rows change only by commits, and a commit stores exactly what its transaction wrote |
| Tenancy.ScopeInsideTransactionKeepsOldTenant | apps/api/core/tenancy.py:143-147 | a run in which a scope entered inside an open transaction leaves that transaction on the old tenant |
| Tenancy.ServesExactlyWhatItShows | migrations/versions/c42d0273d9bd_pg_tenancy_shared_leads_signals_tables_.py:175-190 | the policies admit exactly the rows of a binding if and only if the transaction's setting shows it |
| Tenancy.ChangeInsideTransaction | apps/api/core/tenancy.py:143-147 | when a task publishes, enters or leaves inside its open transaction, the transaction has and serves the new binding if and only if its setting showed it before |
| Tenancy.TransactionIsItsOwnersExactlyIf | apps/api/database.py:53-72 | at any time an open transaction's tenant is its owner's binding if and only if its setting shows that binding |
| IngestRows.KeyMap | apps/api/routers/ingest.py:129-143 | a lower-cased key means the field of the last column displayed under it, else the known field, else the first custom field |
| IngestRows.NamedColumnDecides | apps/api/routers/ingest.py:129-143 | the last column displayed under a key decides what the key means |
| IngestRows.FieldColumnDecides | apps/api/routers/ingest.py:129-143 | if no column is displayed under it, a known field means itself and another key the first field that reads like it |
| IngestRows.NothingDecides | apps/api/routers/ingest.py:129-143 | a key that no column is displayed under or reads like means itself if it is a known field and nothing otherwise |
| IngestRows.FieldKeepsItsName | apps/api/routers/ingest.py:130-142 | the built map has every known field, and maps it to itself if and only if the last column displayed under its name, if any, shows it |
| IngestRows.FieldCanLoseItsName | apps/api/routers/ingest.py:140-142 | a column that shows the website under the name Company takes the key away from the company field |
| IngestRows.MapRow | apps/api/routers/ingest.py:146-156 | each field holds the last value sent for it, unknown keys stay verbatim and are collected |
| IngestRows.LastKeyWins | apps/api/routers/ingest.py:146-156 | the last key that leads to a field gives its value |
| IngestRows.NoOtherFields | apps/api/routers/ingest.py:146-156 | a mapped row has no field that no key leads to |
| IngestRows.TrimsBlanks | apps/api/routers/ingest.py:150 | blanks around a key make no difference |
| IngestRows.UnmappedExactly | apps/api/routers/ingest.py:146-156 | a key is reported if and only if some row has it and it means nothing |
| IngestRows.UsableAt | apps/api/routers/ingest.py:289-300 | a row is used, as mapped and in its place, if and only if it holds anything but blanks |
| IngestRows.SameIdentityExactlyIf | apps/api/routers/ingest.py:159-168 | two rows are duplicates if and only if their sites have one domain, or neither has any and their companies one name |
| IngestRows.SiteIs | apps/api/routers/ingest.py:163 | a row's site is its website if that says anything, otherwise its domain if that does |
| IngestRows.Dedupe | apps/api/routers/ingest.py:309-318 | kept are exactly the rows without identity or with one not seen before |
| IngestRows.NewRowsAreASubsequence | apps/api/routers/ingest.py:309-318 | the kept rows are an order-preserving subsequence: exactly the new rows of the batch |
| IngestRows.NewIdentitiesAreUnique | apps/api/routers/ingest.py:302-318 | no new row shares a non-empty identity with a stored row or another new one |
| IngestRows.NoIdentityLost | apps/api/routers/ingest.py:309-318 | every identity in the batch ends up in the workbook |
| IngestRows.Workbook.Ingest | apps/api/routers/ingest.py:287-355 | rows are appended at contiguous positions above the maximum; added, duplicates and empty rows add up to the batch; the total is the row count; an oversized batch changes nothing |
| IngestRows.MaxPositionIsMax | apps/api/routers/ingest.py:321-325 | the base position is the maximum of the stored ones |
| IngestRows.AddedOnTop | apps/api/routers/ingest.py:321-345 | the k-th new row stands k + 1 above the old maximum, above every stored row and every row added before it |
| IngestRows.SecondTimeAddsOnlyAnonymous | apps/api/routers/ingest.py:301-318 | after a deduplicated batch the same batch adds exactly its rows without identity |
| IngestRows.IngestTwice | apps/api/routers/ingest.py:287-355 | sending a batch twice: the second result counts every row with an identity as a duplicate |
| IngestReplay.AnswersRepeat | apps/api/routers/ingest.py:271-285 | over every interleaving, answers for a key up to a week after its record's timestamp repeat that response and add no rows, race losers included |
| IngestReplay.RecordsOutliveTheWindow | apps/api/routers/ingest.py:358-370 | no pruning or overwriting by other requests removes a record within a week of its timestamp |
| IngestReplay.LoserIsAnswered | apps/api/routers/ingest.py:374-390 | a race loser that looks again within the window gets the winner's response |
| IngestReplay.WindowIsExact | apps/api/routers/ingest.py:358-370 | for every stamp, commit time and answer time: some run answers a key differently from the record if and only if the answer is more than a week after the stamp, the commit lying between |
| IngestReplay.AddedAgain | apps/api/routers/ingest.py:366-370 | whatever the times, once the week is over another key's request prunes the record and the same request adds its rows again |
| IngestReplay.WindowIsNotFromCommit | apps/api/routers/ingest.py:366-370 | for a record whose transaction stayed open d seconds, rows can be added again d - 1 seconds before a week after its commit |
| IngestReplay.StepKeepsInv | migrations/versions/f8a9b0c1d2e3_workbook_ingest.py:70-79 | every step keeps each record in the ledger for a week, and nothing in it but records |
| FanOut.SendersNeverBlock | apps/searxng-pool/search.go:75-95 | in every run, also after the collector breaks off, a sender with an answer can send at once, and the channel is closed only after all have sent |
| FanOut.EachAnswerTravelsOnce | apps/searxng-pool/search.go:92-101 | what was read plus what lies in the channel is one message per sender that sent; a collector that sees the close has read all |
| FanOut.CountersCountQueries | apps/searxng-pool/pool.go:294-296 | an in-flight counter is never negative and equals the queries running on its instance |
| FanOut.NothingIsLeftBehind | apps/searxng-pool/search.go:77-122 | while work is left one of the search's goroutines can do it; in the end all have finished, the channel is closed and a reading collector can go on |
| FanOut.OwnStepsUseUpWork | apps/searxng-pool/search.go:77-95 | each step of the search's goroutines uses up one unit of work and nobody else adds any |
| HealthCheck.ProbesAreBounded | apps/searxng-pool/pool.go:195-211 | never more than twelve probes run, returning a slot never blocks, and the pass returns with all probed and the semaphore empty |
| HealthCheck.AlwaysAStep | apps/searxng-pool/pool.go:200-211 | until the pass returns some step is possible, and it brings the end nearer |
| InstancePool.Instance.RecordProbe | apps/searxng-pool/pool.go:234-248 | a failed probe demotes and counts, a good one promotes, records the latency and forgives one failure |
| InstancePool.Instance.RecordFailure | apps/searxng-pool/search.go:84-91 | a failed query counts, and at three failures on record the instance is demoted |
| InstancePool.FailuresAddUp | apps/searxng-pool/search.go:84-91 | n failed queries count n, demote if and only if that makes three, and touch nothing else |
| InstancePool.ProbesAddUp | apps/searxng-pool/pool.go:234-248 | after any probes an instance is fit if and only if the last was answered, with the latency of that answer |
| InstancePool.AnswersForgive | apps/searxng-pool/pool.go:234-248 | answered probes forgive one failure each, down to none |
| InstancePool.Pool.Pick | apps/searxng-pool/pool.go:253-291 | returned are min(n, eligible) different eligible instances, best first, none scoring above an eligible one left out; exactly they are stamped |
| InstancePool.Pool.SortByScore | apps/searxng-pool/pool.go:278 | an ordering by score that loses no candidate |
| InstancePool.TakeTheBest | apps/searxng-pool/pool.go:278-289 | the first n of any ordering by score are a best choice |
| InstancePool.PicksAreFit | apps/searxng-pool/pool.go:253-291 | in terms of the records: everything picked is healthy, speaks JSON and has rested for the gap; what is left out although fit does not score lower, and then n are picked |
| InstancePool.ScoreWeighs | apps/searxng-pool/pool.go:278 | a slower, more failed or busier record scores strictly higher; a failure weighs 500 ms and a running query four failures |
| InstancePool.PicksAreSpaced | apps/searxng-pool/pool.go:266-287 | over any serial picks with a clock that never goes back, two picks of one instance are at least the gap apart, whatever probes and failures happen between |
| InstancePool.DemotedStaysOut | apps/searxng-pool/search.go:87-89 | an instance demoted by its third failure is not picked until a probe finds it well |
| SearchMerge.MergeStrings | apps/searxng-pool/search.go:198-210 | the second list's new engines are appended once each |
| SearchMerge.MergedFacts | apps/searxng-pool/search.go:198-210 | the merged list is the union, keeps the first list as its start and stays free of repeats |
| SearchMerge.MergedInOrder | apps/searxng-pool/search.go:198-210 | the new engines follow the first list once each, in the order of the second |
| SearchMerge.SameKeyExactlyIf | apps/searxng-pool/search.go:182-197 | two URLs with hosts share a key if and only if schemes, hosts up to case, paths up to trailing slashes and the rest are equal, whatever the fragments |
| SearchMerge.SuspiciousByLabels | apps/searxng-pool/search.go:157-180 | a host is judged by its last two labels, whatever comes before them and whatever the port |
| SearchMerge.ShownAsItCame | apps/searxng-pool/search.go:106-117 | a key is shown with the title, URL and text of its first hit |
| SearchMerge.KeepByKey | apps/searxng-pool/search.go:137-152 | keeping a hit depends only on its number of engines and its canonical key |
| SearchMerge.Gather | apps/searxng-pool/search.go:97-122 | replies are merged in arrival order until exactly enough have answered |
| SearchMerge.Collect | apps/searxng-pool/search.go:97-131 | the outcome is the merged hits worth keeping of exactly the replies read |
| SearchMerge.AnswererAt | apps/searxng-pool/search.go:97-105 | the instances named as used are exactly those that answered without error, in order |
| SearchMerge.ReturnedIffDeserved | apps/searxng-pool/search.go:106-129 | a key is returned if and only if it occurs and is trusted, or two engines found it, or its first hit lists more than one engine |
| SearchMerge.RepeatFreeIffCorroborated | apps/searxng-pool/search.go:106-129 | without repeated engines a key is returned if and only if it occurs and is trusted or two engines found it, which says nothing about order |
| SearchMerge.OrderMattersExactlyIf | apps/searxng-pool/search.go:101-140 | whether a key is returned is the same for every order of the replies if and only if it is trusted, two engines found it, or the replies that bring it agree on leading with more than one engine |
| SearchMerge.ArrivalOrderIsIrrelevant | apps/searxng-pool/search.go:101-129 | without repeated engines the same replies in any order return the same keys found by the same engines |
| SearchMerge.SameEngines | apps/searxng-pool/search.go:111-113 | results with one key name the same engines in either order |
| SearchMerge.EnginesAreTheUnion | apps/searxng-pool/search.go:111-117 | a result names exactly the engines of all hits with its key |
| SearchMerge.OutputOrder | apps/searxng-pool/search.go:115-129 | results have different keys, in the order the keys were first seen |
| SearchMerge.RepeatedEngineBreaksIt | apps/searxng-pool/search.go:137-140 | two hits whose result depends on which arrives first, because one names its engine twice |
| Numerals.ValueOfRender | apps/api/core/url_guard.py:84-93 | reading a number's digits in base 8, 10 or 16 gives the number back |
| Numerals.RenderOfValue | apps/api/core/url_guard.py:93 | a decimal without superfluous zeros is the one spelling of its value |
| UrlGuard.HexSpelling | apps/api/core/url_guard.py:89-90 | 0x or 0X, any zeros and the hexadecimal digits spell the number |
| UrlGuard.HexCaseDoesNotMatter | apps/api/core/url_guard.py:84-90 | the case of a hexadecimal spelling's letters does not matter |
| Numerals.DigitValues | apps/api/core/url_guard.py:84-93 | exactly the sixteen hexadecimal digits have a value, their letters in either case |
| UrlGuard.OctalSpelling | apps/api/core/url_guard.py:91-92 | a zero, any zeros and the octal digits spell the number |
| UrlGuard.SpellsExactlyIf | apps/api/core/url_guard.py:84-96 | a token spells n if and only if it is n in decimal, or 0x, any zeros and n in hexadecimal in any case, or a zero, any zeros and n in octal |
| UrlGuard.TokensAreSpellings | apps/api/core/url_guard.py:84-96 | a numeric token is read as n if and only if it spells n in decimal, hexadecimal or octal |
| UrlGuard.NumberHost | apps/api/core/url_guard.py:95-98 | a host that spells n is the address n mod 2^32, for every n and every spelling |
| UrlGuard.DottedHost | apps/api/core/url_guard.py:101-106 | four dotted spellings in any mixture of radices are the address of their low 8 bits |
| UrlGuard.DottedIsCanonical | apps/api/core/url_guard.py:79-106 | a mixed-radix dotted host is read as its canonical dotted decimal is |
| UrlGuard.DottedIsTheNumber | apps/api/core/url_guard.py:79-107 | any spellings of the four octets of a 32-bit number, most significant first and joined by dots, are read as that number, as any spelling of the number is |
| UrlGuard.OctetsOf | apps/api/core/url_guard.py:101-107 | every 32-bit number has such octets |
| UrlGuard.PaddedHost | apps/api/core/url_guard.py:77 | blanks and brackets around a spelling do not hide its address |
| UrlGuard.ReadExactlyIfSpelled | apps/api/core/url_guard.py:70-109 | a host is read as an IPv4 address if and only if, stripped, it spells it as one number or as four octets |
| UrlGuard.JoinOfSplit | apps/api/core/url_guard.py:102 | splitting at the dots loses nothing |
| UrlGuard.SpellingDoesNotMatter | apps/api/core/url_guard.py:120-165 | for a numeric host the verdict depends on scheme and address alone, not on the spelling or on name resolution |
| UrlGuard.GuardedGet | apps/api/core/url_guard.py:39-57 | every URL fetched was accepted on its own hop by the check with plain http allowed and names resolved, and is where the redirects before it led; at most max_redirects + 1 fetches; each of the four outcomes exactly in its case |
| UrlGuard.EachHopFollows | apps/api/core/url_guard.py:48-56 | the first URL fetched is the one asked for, each later one is where a 301, 302, 303, 307 or 308 with a location pointed |
| UrlGuard.BlockedSpellingsAreNotFetched | apps/api/core/url_guard.py:39-109 | no URL in the chain has a host that spells a blocked address, first or after a redirect |
| UrlGuard.BlockedNamesAreNotFetched | apps/api/core/url_guard.py:142-164 | no URL in the chain has a host that is a listed name, or a name that did not resolve on its hop or resolved to a blocked address |
| UrlGuard.AcceptedExactlyIf | apps/api/core/url_guard.py:120-165 | a URL is accepted if and only if its scheme is allowed, its host is no listed name, and its address, or every address its name resolves to, is not blocked |
| UrlGuard.ResolvedExactlyIf | apps/api/core/url_guard.py:153-163 | a resolved text is read as an IPv4 address if and only if it is its octets in plain decimal, as an IPv6 one if and only if it has a colon and the reader of those knows it |
| CellDedupe.Table.DeleteDuplicates | apps/api/database.py:271-285 | the table becomes its rows with row number 1, in order |
| CellDedupe.Table.CreateUniqueIndex | apps/api/database.py:287-290 | the index is installed if and only if no two rows share a cell |
| CellDedupe.Table.Migrate | apps/api/database.py:264-291 | after the migration the index is in place, whatever duplicates there were |
| CellDedupe.StaysExactlyIfBest | apps/api/database.py:271-284 | a row stays if and only if it is the lexicographic maximum of its cell by value, status rank and id |
| CellDedupe.BeforeInWords | apps/api/database.py:276-279 | any value beats none; with the value tied complete beats error, error beats skipped and skipped any other status; with both tied the later id wins |
| CellDedupe.BestRowsFacts | apps/api/database.py:271-291 | each cell that had a row has exactly one, so the index can be installed, and deleting again removes nothing |
| CellDedupe.NoValueIsLost | apps/api/database.py:269-280 | the row left in a cell is at least as good as any it had; a cell with a value keeps one |
| RateLimit.Limiter.RateLimited | apps/api/routers/outreach.py:390-395 | the stored buckets are those of the call history, and the answer is the history's |
| RateLimit.TrimmedIsWindow | apps/api/routers/outreach.py:392 | trimming on every call loses nothing a later call would count |
| RateLimit.LimitedExactlyIfBusy | apps/api/routers/outreach.py:390-395 | with a clock that never goes back, a call is limited if and only if more than 20 calls with its key fall into the window that ends with it |
| RateLimit.AtMostTwenty | apps/api/routers/outreach.py:386-395 | in every half-open 60-second interval at most 20 calls with one key are let through |
| TemplateIds.FreshId | apps/api/routers/templates.py:141-146 | the suffix loop ends and returns the first free candidate |
| TemplateIds.FirstFreeIdIs | apps/api/routers/templates.py:143-146 | the id taken is the first candidate not in use, reached after at most as many increments as there are ids in use |
| TemplateIds.TakenAreFew | apps/api/routers/templates.py:144-146 | pigeonhole: m taken candidates are m different ids |
| TemplateIds.CandidatesDiffer | apps/api/routers/templates.py:145 | different suffixes give different candidates |
| TemplateIds.ColumnIds | apps/api/routers/templates.py:119-150 | the columns are the template's keys, then one id per enrichment column, each the first free candidate at its turn |
| TemplateIds.IdsAreFresh | apps/api/routers/templates.py:137-150 | enrichment ids are pairwise different and none is a template key |
| TemplateIds.KeepsItsOwnId | apps/api/routers/templates.py:141-147 | in the columns made, a column with an id of its own keeps it if and only if no column before it has it; one without is called enrich_k if and only if none before it is |
| TemplateIds.IdsExtendTheirBase | apps/api/routers/templates.py:141-146 | a column's id is the one it asks for, or that with an underscore and a number at most the number of columns before it |
| TemplateIds.TurnByTurn | apps/api/routers/templates.py:137-150 | each column's id is the first free candidate given the keys and the ids before it, whatever columns follow |
| TemplateIds.FreshIdsAreKept | apps/api/routers/templates.py:141-147 | columns whose own ids are nonempty and different from each other and from the keys all keep them |

## Left out

- ToolLoop.ChatTurn.StreamChat: a chunk or stream that fails outside JSON decoding is an `OtherFailure`; undecodable lines, which the code skips, are not in the script; tools return JSON text and do not raise.
- ToolAssembly.Absorb: an id of null and an empty id are one case, and a missing index is already the default 0.
- ApprovalGate.EveryRunIsSafe: proposals made outside the tool loop (chat shortcuts at apps/api/routers/copilotkit.py:3009-3430) appear only as the same proposing step.
- Approvals.ApprovalStore.Consume: the status stored after a decision is a value of its own type; the JSON text of the stored call is the call.
- PeopleWorkbook.Select: the requested ids are given trimmed, as apps/api/routers/copilotkit.py:1497-1501 leaves them; of a saved row only the person's id and name are modelled; entity ids and the selection digest are values computed elsewhere.
- PeopleAction.OneWorkbookPerKey: nobody else deletes workbooks or rows during the runs considered.
- SourceAction.ReceiptsAgree: calls for one key follow one another; overlapping ones, with one brief and auto-run on, are the subject of SourceRace. Deployments on SQLite, where the fire key has no unique index, are not modelled. After a failed commit the session is taken to be usable again.
- SourceRace.OneJobShownExactlyUnless: a receipt is recorded in the step that commits it; the name, brief and flags of a receipt are those of SourceAction.
- Tenancy.TenantsNeverMix: rows carry a non-empty tenant, which the workspace resolver at apps/api/core/tenancy.py:87-102 ensures; policies other than equality with the setting are not used by these tables.
- IngestRows.Workbook.Ingest: the domain and company normalisers are arbitrary functions; lower-casing and trimming are those of ASCII text; two keys of one row that are equal after `str()` do not occur.
- IngestReplay.AnswersRepeat: a response is an opaque value; what it says is the subject of IngestRows.Workbook.Ingest.
- SearchMerge.ArrivalOrderIsIrrelevant: URLs have no surrounding whitespace; parsing and printing a URL are taken to be inverse on its parts, and escaped paths are not told apart.
- InstancePool.Pool.Pick: overlapping picks are not modelled, the gap being promised for serial ones; a negative n, on which the code panics, is excluded; scores are exact integers; the sort is a stable one here, but only its contract is used.
- FanOut.SendersNeverBlock: timeouts are just an early end of a query; which replies are enough is the subject of SearchMerge.Gather.
- UrlGuard.ReadExactlyIfSpelled: IPv6 text is an abstract reader of strings with a colon; CPython's limit on the digits of a decimal is not modelled.
- UrlGuard.SpellingDoesNotMatter: URL parsing, name resolution and the ranges of private addresses are parameters.
- RateLimit.AtMostTwenty: time is a real number and the clock does not go back.
- CellDedupe.Table.Migrate: workbook, lead and column are not NULL in any row.
- Pool bootstrap from seeds and the public feed, the ingest-token endpoints, auto-titles, CSV export, analytics and settings: easy or no invariants across calls.
- HTTP, streaming text to the client, prompts, result formatting, authentication, cryptography and message storage.
- Queue workers, waterfalls, automations, billing, the outreach store, the poller and autopilot plans: only the contracts named above are used.
