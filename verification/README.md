# OpenAlgo blueprints: a verified model

This project models the stateful cores behind OpenAlgo's web routes in Dafny 4.11 and proves what
every run of them keeps. `dafny verify dfyconfig.toml` checks all of it.

Each core is modelled twice where the original changes state in place: as a class or method with the
original's fields, branches and loops, and as a function of values that the method's `ensures` names.
The properties are then proved about the functions, over every input, every run or every interleaving; and
what each main operation does is also said without those functions, in terms of the request, the fields and
the lists it is given.

| file | models |
|---|---|
| `FlowLifecycle.dfy`, `FlowService.dfy` | create, activate, deactivate, save, replace and delete of a workflow against its row and the scheduler, price-alert and order-watch registries, every call allowed to fail |
| `FlowExpiry.dfy` | normalising, deduplicating and sorting listed expiry dates, and choosing one |
| `ChartinkProcessor.dfy`, `ChartinkQueues.dfy`, `ChartinkWebhook.dfy` | the two order queues, the processor's rate rules and its one-processor flag, as interleaved steps under a clock; the webhook that queues a scan's orders |
| `McpRateSpec.dfy`, `McpQuota.dfy`, `McpDispatch.dfy`, `McpAuditLog.dfy`, `McpAuditTrail.dfy` | the rate specification, the pruned quota buckets against a full-history limiter, the steps of overlapping tool calls, the rotating audit log and what of the calls is in it |
| `AgentTurn.dfy`, `AgentRecorder.dfy`, `AgentRunOptions.dfy`, `AgentDecisions.dfy` | the turn recorder with its shared tool entries, the recording stream, the run options a resumed run is rebuilt from, the decisions that resume it |
| `AdminLogs.dfy`, `AdminErrorGroups.dfy` | the log window and the early-exit scans, the grouping of errors |
| `EnvText.dfy`, `EnvSubstitution.dfy`, `EnvLines.dfy`, `EnvEdits.dfy`, `EnvRoutes.dfy`, `EnvPages.dfy` | the two `.env` editors, one a pattern substitution over the text, one an edit of a line list, against one reading of the file; the two pages with the keys each sets |
| `AuthSession.dfy` | the login session with its second factor |
| `SymbolSearch.dfy` | the symbol search as a union without duplicates |
| `Wrappers.dfy`, `Text.dfy`, `Lines.dfy`, `Positions.dfy` | options, text helpers, texts as lines, the positions a loop picks out |

## What holds, and where it stops

**Workflow lifecycle.** With every other call free to fail, nothing is ever armed for a workflow that is not
stored and active, as long as the teardown calls of a rollback hold and a delete's job removal does not fail
silently (`RunStaysSafe`). An active workflow is armed with exactly what its stored graph describes through any
number of PUTs and replaces (`RunStaysExact`). Both come with their exact condition, for one request
(`StepContainedIff`, `StepExactIff`) and for whole runs, whatever is stored and whatever fails: every state of
the run is safe, or exact, if and only if no request of it leaks, or leaks or strands, in the state it meets
(`RunSafeIff`, `RunExactIff`, `FromEmptyIff`). What is armed is that of the first trigger node
(`ExactMeansRegistered`): a schedule gives a job, a price alert an alert, an order-update trigger a watch, with
the node's own values of the fields that registration keeps, and the other two registries hold nothing for the
workflow (`ActivationRegisters`, `SaveRegisters`, `ReplaceRegisters`). When each request succeeds and what it
stores is stated beside it (`ActivateDoneIff`, `DeactivateDoneIff`, `CreateStores`, `SaveStores`,
`ReplaceStores`, `DeleteRemoves`). Three ways it does go wrong are given as runs from the empty service
(`IdleAndLiveAreReached` for their common start): a PUT that puts a second trigger node in front of the live one
is compared by the last node of each kind but armed by the first (`SecondTriggerGoesUnnoticed`), a rollback
whose flag write fails leaves an active workflow that nothing triggers (`LostFlagWriteLeavesItUnarmed`), a
delete whose job removal fails silently leaves a job without a workflow (`SilentDeleteLeavesAnOrphan`).

**Chartink orders.** Queues, pacing and the single processor hold in every interleaving. So does the way from a
scan to its orders: webhook requests overlap order by order, and still every order is posted once at most, in
the order it was placed (`PlacedOnceInOrder`), for a request of its own that asked for it
(`PostsComeFromScans`), and after those that request placed before it (`EachRequestInOrder`). The "up to 10 per
second" of the queue comment holds of the accepted posts, and of all posts of a run without rejections
(`AcceptingRunsKeepTheLimit`); in any run a second holds at most ten posts and its rejected ones
(`TenPostsASecond`). Rejected orders leave no stamp, so runs from the start post any number of them at one
instant (`RejectionsAreNotLimited`). Since the stamp is read before the request is sent, the requests themselves
keep eleven, not ten, to a window (`ElevenRequestsASecond`), and eleven do occur (`ElevenRequestsInASecond`).
The flag is raised before the thread starts: the flag is up with no processor behind it if and only if some
thread could not be started, and then nothing is posted again (`StuckIff`). A request that is taken puts one
order on its queue for each position of its list whose symbol is mapped, in that order, and nothing on the other
queue (`OneOrderAPosition`). Which order reaches which queue is decided exactly (`ReachesIff`): an order follows
every word of its scan's name if and only if the name does not mix words of entries and exits
(`FollowsEveryWordIff`); where it does, `MisroutedIff` says which word loses. SHORT COVER, for one, is taken as
an entry.

**MCP.** Tool calls overlap in any way, their steps interleaved. Each execution has its own notice, if it writes
orders, before it and its own audit entry with its outcome after it (`EveryExecutionIsFramed`), there are no
other notices or entries (`NoStrayTraces`), and executions are quota admissions, one for one
(`ExecutionsAreAdmissions`). The scope of an execution is the one its tool requires, the tool being the one its
request names (`ExecutionIsOfItsTool`), so a tool that writes orders never runs without its notice
(`WriteToolIsNoticed`) or outside the write limit (`WriteToolsStayWithinLimit`); which requests get to the
quota, and how the others are answered, is decided exactly (`QuotaReachedIff`). The write limit bounds what is
admitted in a window (`WritesStayWithinLimit`), not what starts in it: a window holds at most the limit and
those starts that were admitted before it (`WriteStartsPerWindow`), and such starts can pile up
(`LateStartsPileUp`). A request is held up between its admission and its start only in the log write of its
notice (blueprints/mcp_http.py:407-411), so this takes a log that stalls, or a thread that is not scheduled. An
audit entry is an attempt: its line is in the file if its own write went through and at most 5000 lines have
reached the file since (`AuditedExecutionIsInFile`). The pruned bucket decides like a limiter with a full
history for every scope without a `|`, as the registry's are (`RegistryScopesHaveNoBar`); `KeysCollideIff` says
exactly which pairs would share a bucket. The audit log's comments say it is trimmed on every write; the code
trims only above two million characters (`TrimmedIff`, `TenThousandLinesAreKept`).

**Agent.** The recording stream hands every chunk on unchanged exactly when no chunk is JSON other than an
object (`PassesThroughIff`): such a chunk ends the stream instead of only going unrecorded. However the calls
into the store end, the turn's message is added if and only if a frame carried content, the message can be
added, and binding the session of the last start frame does not raise (`StoredIff`); a raise there loses an
answer that was shown and could have been stored (`RaisingBindLosesTheAnswer`). The store's own
`get_conversation` and `update_conversation` catch every Exception and report it
(database/agent_db.py:1426-1432, 1482-1496), so a raise can only come out of their handlers, a rollback that
fails, or of reading an attribute of the row they return; the result covers it, and with quiet failures alone no
message is lost. A resumed run is built with the options of the last user row of its conversation among the
newest 500 messages, whichever turn sent that row, and with the defaults when none can be read
(`OptionsAreOfTheRowRead`). So it may search the web if and only if the confirmation allows it and that row does
not hold the switch off (`ResumedSearchIff`). What switches it off is false, zero, an empty list or object, or
one of five words (`SwitchOffIff`), and the row holds exactly that (`StoredSwitchIff`, `FalseIsOff`). It reads
its own row exactly when that was stored, nothing was sent after it and the read reaches it (`OwnRowReadIff`),
and finds its own options exactly when the row read is its own or agrees with it (`OwnOptionsFoundIff`). A
switch that was off is lifted by a later message sent with it on (`LaterTurnLiftsTheSwitch`), by the row before
when its own could not be stored (`LostRowLiftsTheSwitch`), and by a failed read (`FailedReadLiftsTheSwitch`).

**Logs.** The window of a larger file holds every line that starts after the first break in it
(`WindowStartsAfterBreak`). Which entries the filters let through is said for each filter (`ErrorFilterIff`,
`AuditFilterIff`). `first_seen` is the smallest timestamp exactly when no timestamp of the group is the empty
text, or the last one is (`FirstSeenIsMinIff`). The grouping fails, and with it the request, if and only if some
group starts with a timestamp that is no text but counts as one, and holds a text timestamp too (`Fold`); some
order of a group's entries does so exactly when it has both kinds (`SomeOrderRaisesIff`). Where it does not
fail, a group without text timestamps shows what its first entry brought (`ShownBounds`,
`OddTimestampDependsOnOrder`); otherwise counts and bounds do not depend on the order of the entries, but for a
first timestamp where one is empty (`OrderDoesNotMatter`).

**`.env`.** On files of plain lines with one line a key and no blank right-hand side, both editors are
interchangeable, edit by edit. The pattern substitution rewrites a key in place exactly when its right-hand side
is not blank or it is the last line (`RewritesInPlaceIff`); a blank one swallows the next line
(`BlankValueSwallowsNextLine`). What it does to any file without a line that is a bare name is given line by
line (`SubstitutedExactly`). The line editor is read back exactly when at most one line sets the key, or it held
the value already (`SetReadBackIff`), and while several lines do, none of its edits is
(`SeveralLinesHideEdits`). Where every line for a key is indented, the substitution appends one more
(`IndentedLinesAreDoubled`).

The two pages set different keys (`PagesShareNoKey`). On a file where no credentials key is left blank, neither
ever undoes or hides what the other set (`PagesDoNotInterfere`). In general the settings page does not touch the
credentials, and the credentials page leaves the settings as the settings page made them if and only if none of
its edits swallows a line of a setting in the file it meets (`SettingsKeptIff`); a blank credential in front of
a setting makes it do so (`BlankCredentialEatsSetting`). Each field of a credentials request is read under its
own key afterwards, and every other key as before (`FieldsAreRead`). The credentials are written in place, so a
write that stops leaves the beginning of the new text (`UpdateCredentials`).

**Login session.** Which requests give a session its user, take it, leave one waiting for a code, or log it in
to a broker is decided exactly (`UserAppearsIff`, `UserGoesIff`, `PendingAppearsIff`, `BrokerLoginIff`); an own
logout leaves nobody (`LeavesNobody`).

**Search and expiries.** A key is in the answer if and only if the engine that is asked, for some exchange and
type of the request, answers it (`EnginesAnswerIff`). A listed expiry becomes the code of the date it is written
as, dashed or not, with two or four digits of the year, in any case; any other text stays as it is, in capitals
(`ReadIffWritten`, `ListedIs`).

## Model

| member | source | states |
|---|---|---|
| `FlowService.Service.RegisterTrigger` | blueprints/flow.py:400-466 | arms the first trigger node in its own registry, in place, as the lifecycle's registration does (`ActivationRegisters` says which registry and fields); a job whose id cannot be recorded is taken back before raising |
| `FlowService.Service.UnregisterTrigger` | blueprints/flow.py:384-398 | tears all three kinds down in order, the job removal strict |
| `FlowService.Service.ReregisterTrigger` | blueprints/flow.py:468-487 | swaps a live registration for the one the stored graph describes |
| `FlowService.Service.RollbackActivation` | blueprints/flow.py:489-517 | the loop over the four undo actions applies every one that can succeed |
| `FlowService.Service.CreateWorkflow` | blueprints/flow.py:70-154 | a new row is inactive and unarmed |
| `FlowService.Service.ActivateWorkflow` | blueprints/flow.py:520-583 | persists, then registers, then rolls back on a fault; no other workflow changes |
| `FlowService.Service.DeactivateWorkflow` | blueprints/flow.py:586-641 | strict job removal before the flag is cleared; no other workflow changes |
| `FlowService.Service.UpdateWorkflow` | blueprints/flow.py:215-333 | saves the graph and re-arms a live workflow whose trigger configuration changed, failing closed |
| `FlowService.Service.ReplaceWorkflow` | blueprints/flow.py:1231-1350 | the same for a whole-graph replacement |
| `FlowService.Service.DeleteWorkflow` | blueprints/flow.py:336-369 | tears an active workflow down before its row goes |
| `FlowService.ServesIsServe` | blueprints/flow.py:215-641 | the routes in place and the run function of the lifecycle reach the same state |
| `FlowLifecycle.StepContainedIff` | blueprints/flow.py:334-641 | one request leaves something armed outside an active workflow if and only if `Leaks` |
| `FlowLifecycle.RunStaysSafe` | blueprints/flow.py:489-583 | over any run, nothing is armed unless its workflow is stored and active |
| `FlowLifecycle.RunSafeIff` | blueprints/flow.py:334-641 | every state of a run has nothing armed outside active workflows if and only if no request of it leaks in the state it meets |
| `FlowLifecycle.StepExactIff` | blueprints/flow.py:276-333 | one request leaves an active workflow armed otherwise than its graph says if and only if `Leaks` or `Strands` |
| `FlowLifecycle.RunStaysExact` | blueprints/flow.py:276-313 | over any run without a half-way teardown, an active workflow is armed exactly as its stored graph describes |
| `FlowLifecycle.RunExactIff` | blueprints/flow.py:276-333 | every state of a run has every workflow armed exactly as its graph says if and only if no request of it leaks or strands |
| `FlowLifecycle.FromEmptyIff` | blueprints/flow.py:70-641 | both conditions for every run of a service that starts empty |
| `FlowLifecycle.ActivationRegisters` | blueprints/flow.py:400-583 | after an activation that succeeds, the kind of the first trigger node alone decides which registry holds the workflow, with the node's own values of that registration's fields; the other two do not hold it |
| `FlowLifecycle.SaveRegisters` | blueprints/flow.py:276-313 | the same after a PUT into an active workflow |
| `FlowLifecycle.ReplaceRegisters` | blueprints/flow.py:1231-1350 | the same after a replacement |
| `FlowLifecycle.ExactMeansRegistered` | blueprints/flow.py:400-466 | what exact arming means, registry by registry: a live workflow is held by that of its first trigger node's kind, with that node's fields; one that is not live, or has no trigger node, by none |
| `FlowLifecycle.ComparedConfig` | services/flow_workflow_validator.py:1629-1676 | with one trigger node, the compared configuration is its kind and its values of exactly the listed fields |
| `FlowLifecycle.ActivateDoneIff` | blueprints/flow.py:520-583 | exactly when an activation succeeds, finds nothing, or finds the workflow active |
| `FlowLifecycle.DeactivateDoneIff` | blueprints/flow.py:586-641 | a deactivation succeeds if and only if all its calls work, and then only the inactive row is left |
| `FlowLifecycle.CreateStores` | blueprints/flow.py:70-154 | a create succeeds if and only if the graph is well formed and the write works, and stores exactly that graph |
| `FlowLifecycle.SaveStores` | blueprints/flow.py:215-333 | a PUT stores exactly its graph, active or not, and touches nothing else of an inactive workflow |
| `FlowLifecycle.ReplaceStores` | blueprints/flow.py:1231-1350 | a replacement is taken if and only if its graph is complete with one trigger node, and stores it |
| `FlowLifecycle.DeleteRemoves` | blueprints/flow.py:336-369 | a delete succeeds if and only if the row goes; of an inactive workflow it takes nothing else |
| `FlowLifecycle.WantedIsSingle` | blueprints/flow.py:372-381 | a graph describes at most one of the three kinds |
| `FlowLifecycle.SameConfigSameArms` | blueprints/flow.py:276-300 | with one trigger a graph, equal compared configurations mean equal registrations, so the comparison misses nothing |
| `FlowLifecycle.ConfigDecidesArms` | blueprints/flow.py:400-466 | every field a registration captures is among the compared ones |
| `FlowLifecycle.RearmEffect` | blueprints/flow.py:468-517 | a re-registration either arms what the graph wants or raises leaving exactly the arms listed |
| `FlowLifecycle.ActivationIsAtomic` | blueprints/flow.py:520-583 | when undo works, an activation arms exactly the stored trigger or changes nothing |
| `FlowLifecycle.DeactivateRecovers` | blueprints/flow.py:586-641 | a deactivation without faults brings any active workflow to rest |
| `FlowLifecycle.RollbacksCompose` | blueprints/flow.py:489-517 | a second rollback undoes what the first could not; only what fails twice stays |
| `FlowLifecycle.OrphanIsPermanent` | blueprints/flow.py:553-581 | what is armed on an inactive workflow outlives everything but its own activation |
| `FlowLifecycle.IdleAndLiveAreReached` | blueprints/flow.py:70-583 | from the empty service a create leads to an idle workflow and an activation to an armed one, both as they should be |
| `FlowLifecycle.SecondTriggerGoesUnnoticed` | blueprints/flow.py:276-313 | from the empty service: created, activated, then a PUT with a second trigger node in front leaves the old registration in place, no call failing |
| `FlowLifecycle.LostFlagWriteLeavesItUnarmed` | blueprints/flow.py:489-517 | from the empty service: a failing flag write in a rollback leaves an active, unarmed workflow that cannot be activated |
| `FlowLifecycle.SilentDeleteLeavesAnOrphan` | blueprints/flow.py:334-366 | from the empty service: a silently failing job removal in a delete leaves a job without a workflow |
| `FlowExpiry.NormalizeAndSort` | blueprints/flow.py:1531-1567 | the normalising loop, then dedup and stable sort |
| `FlowExpiry.CodeReadsBack` | blueprints/flow.py:1531-1567 | a date printed as a code is read back as the same date in its century |
| `FlowExpiry.ReadIffWritten` | blueprints/flow.py:1543-1550 | a text is read as a date if and only if it is written as that date in one of the four ways |
| `FlowExpiry.ListedIs` | blueprints/flow.py:1540-1551 | an entry is listed as the code of the date it is written as, or as its own stripped text in capitals; blank entries and those that are no text not at all |
| `FlowExpiry.CodesIff` | blueprints/flow.py:1540-1551 | the codes of a list are exactly those of its entries |
| `FlowExpiry.FirstSeenOrder` | blueprints/flow.py:1559-1560 | of two codes kept, the first was seen before the second was seen at all |
| `FlowExpiry.SortedExpiryCodesIsChronological` | blueprints/flow.py:1531-1567 | the codes are distinct, exactly those listed, dated ones first in strict date order |
| `FlowExpiry.SortedIsStable` | blueprints/flow.py:1531-1567 | undated codes come last, in first-seen order |
| `FlowExpiry.SortedExpiryCodesIsIdempotent` | blueprints/flow.py:1531-1567 | sorting the result again changes nothing |
| `FlowExpiry.ChosenExpiryIsListed` | blueprints/flow.py:1651-1660 | the chosen expiry is listed; a listed request wins, then a listed resolution, else the earliest date |
| `ChartinkQueues.Processor.EnsureOrderProcessor` | blueprints/chartink.py:161-169 | exactly the caller that finds the flag down starts a worker |
| `ChartinkQueues.Processor.QueueOrder` | blueprints/chartink.py:172-179 | appends to one queue and leaves the other alone |
| `ChartinkQueues.Processor.SquareoffPositions` | blueprints/chartink.py:247-283 | one closing smart order a mapping, in order |
| `ChartinkQueues.Processor.DropOldStamps` | blueprints/chartink.py:119-124 | drops exactly the stamps that left the window |
| `ChartinkQueues.Processor.Iterate` | blueprints/chartink.py:83-151 | one uninterrupted iteration is the worker's turns in a row |
| `ChartinkQueues.Processor.ProcessorLeft` | blueprints/chartink.py:157-158 | the last thing a worker does is to lower the flag |
| `ChartinkQueues.IterationIsMoves` | blueprints/chartink.py:83-151 | an iteration of any worker is a run of its moves, so it is covered by every-interleaving results |
| `ChartinkQueues.SmartIteration` | blueprints/chartink.py:86-113 | with a smart order queued: it alone is posted, and a second's pause follows however it is answered |
| `ChartinkQueues.RegularIteration` | blueprints/chartink.py:115-151 | without one: with ten stamps of the last second or nothing queued a tenth of a second's pause, else the first regular order is posted, stamped if accepted |
| `ChartinkQueues.MethodsAreSteps` | blueprints/chartink.py:153-179 | queueing an order and leaving the loop are the steps of those results |
| `ChartinkProcessor.Reachable` | blueprints/chartink.py:79-179 | every interleaving keeps the invariant |
| `ChartinkProcessor.EveryOrderOnceInOrder` | blueprints/chartink.py:83-151 | on each queue: posted, then in flight, then queued is what was enqueued, in order |
| `ChartinkProcessor.SmartOrdersGoFirst` | blueprints/chartink.py:86-117 | a regular order is taken only in an iteration that found the smart queue empty |
| `ChartinkProcessor.TenASecond` | blueprints/chartink.py:119-151 | at most ten accepted regular orders in any closed one-second window of stamps |
| `ChartinkProcessor.TenPostsASecond` | blueprints/chartink.py:119-151 | in every run a closed second of stamps holds at most ten posts and its rejected ones; without rejections all posts are accepted ones |
| `ChartinkProcessor.AcceptingRunsKeepTheLimit` | blueprints/chartink.py:119-151 | a run whose answers are all acceptances posts at most ten regular orders a second |
| `ChartinkProcessor.ElevenRequestsASecond` | blueprints/chartink.py:119-139 | between an accepted request and the eleventh after it more than a second passes |
| `ChartinkProcessor.ElevenRequestsInASecond` | blueprints/chartink.py:119-139 | a run from the start with eleven accepted posts, the last begun within a second of the first one's answer |
| `ChartinkProcessor.NoStampIsDiscarded` | blueprints/chartink.py:76-77 | in every run an accepted order's stamp joins all those in the deque: its bound never throws one away |
| `ChartinkProcessor.SmartPostsAreASecondApart` | blueprints/chartink.py:91-113 | smart posts are at least a second apart whatever became of each |
| `ChartinkProcessor.AtMostOneProcessor` | blueprints/chartink.py:157-169 | at most one worker is unfinished, and the flag is up while one is |
| `ChartinkProcessor.StuckIff` | blueprints/chartink.py:161-169 | in every run the flag is up with no worker behind it if and only if some thread failed to start, and then nothing is ever posted again |
| `ChartinkProcessor.RejectionsAreNotLimited` | blueprints/chartink.py:129-146 | for every number, a run from the start that posts so many orders at one instant, all rejected |
| `ChartinkWebhook.Webhook` | blueprints/chartink.py:791-955 | both queues grow by exactly what the request puts on them (`OneOrderAPosition` says what, symbol by symbol); every early return queues nothing; a worker is started exactly when something was queued and none ran |
| `ChartinkWebhook.OneOrderAPosition` | blueprints/chartink.py:890-942 | a request that is taken puts one order on its queue for each position of its list with a mapped symbol, with that payload, in list order; nothing on the other queue, and nothing if it is not taken |
| `ChartinkWebhook.TakenIff` | blueprints/chartink.py:797-889 | which requests are taken, and whether as entry or exit |
| `ChartinkWebhook.AnswerIs` | blueprints/chartink.py:797-889 | how a request is answered, the checks in the order they are made |
| `ChartinkWebhook.ReachesIff` | blueprints/chartink.py:797-942 | an order reaches the regular queue if and only if its strategy is live and in its entry hours, its symbol is named and mapped, and the scan says BUY, or SHORT without SELL; and so for the smart queue |
| `ChartinkWebhook.FollowsEveryWordIff` | blueprints/chartink.py:812-833 | an order goes the way every word of its scan's name asks if and only if the name does not mix words of entries and exits |
| `ChartinkWebhook.MisroutedIff` | blueprints/chartink.py:812-833 | exactly which words of a mixed name an order goes against |
| `ChartinkWebhook.PlacedOnceInOrder` | blueprints/chartink.py:83-179 | however requests, square-offs, workers and the clock interleave, posted, in flight and queued is what was placed on the queue, each order once, in order |
| `ChartinkWebhook.PostsComeFromScans` | blueprints/chartink.py:797-942 | every post is an order of a request of its own, live, in its hours, whose scan puts orders on that queue; or a square-off |
| `ChartinkWebhook.EachRequestInOrder` | blueprints/chartink.py:890-942 | the posts of a request are the first of the orders it asks for, in its order, and with those not posted yet they are all it has placed |
| `ChartinkWebhook.LoopIsPlaces` | blueprints/chartink.py:890-942 | the loop of a request that nothing interrupts is one of these interleavings |
| `ChartinkWebhook.RepeatedStocksRepeatOrders` | blueprints/chartink.py:890-942 | a symbol named twice is queued twice |
| `McpRateSpec.SpecReadsBack` | blueprints/mcp_http.py:93-109 | a printed specification parses to its count and window, for every count and unit |
| `McpRateSpec.DecimalReadsBack` | blueprints/mcp_http.py:93-109 | a printed count parses to itself |
| `McpRateSpec.OtherUnitIsAMinute` | blueprints/mcp_http.py:93-109 | any other unit counts by the minute |
| `McpRateSpec.BareCountIsAMinute` | blueprints/mcp_http.py:93-109 | so does a count without a unit |
| `McpRateSpec.NoCountIsSixtyAMinute` | blueprints/mcp_http.py:93-109 | a specification that starts with no number means sixty a minute |
| `McpQuota.ScopeQuota.WithinScopeQuota` | blueprints/mcp_http.py:118-138 | pops expired hits, decides and appends in the dictionary of buckets |
| `McpQuota.PrunedDecidesLikeFullHistory` | blueprints/mcp_http.py:118-138 | every decision is the one a limiter keeping the whole admission history makes |
| `McpQuota.AtMostCountPerWindow` | blueprints/mcp_http.py:118-138 | no closed interval of one window holds more than `count` admissions of a token and scope |
| `McpQuota.OtherPairUntouched` | blueprints/mcp_http.py:130-138 | a check never touches the bucket of another token or scope |
| `McpQuota.KeysAreDistinct` | blueprints/mcp_http.py:130-131 | keys of different pairs differ when scopes hold no bar |
| `McpQuota.KeysCollideIff` | blueprints/mcp_http.py:130-131 | exactly which two pairs of token and scope share a key |
| `McpDispatch.RegistryScopesHaveNoBar` | utils/mcp_tool_registry.py:43-45 | the registry's three scopes hold no bar |
| `McpQuota.CheckAgrees` | blueprints/mcp_http.py:118-138 | one check keeps every bucket the recent end of its pair's history |
| `McpDispatch.Dispatcher.DispatchToolCall` | blueprints/mcp_http.py:572-700 | checks, quota, notice, execution, audit, in that order, on the log and the buckets, under the scope its tool requires (`QuotaReachedIff`) |
| `McpDispatch.QuotaReachedIff` | blueprints/mcp_http.py:581-615 | a request gets to the quota, under the scope its tool requires, if and only if it names a registered tool whose scope was granted and that can be called; the reply to every other one |
| `McpDispatch.ReplyIs` | blueprints/mcp_http.py:603-700 | how a request that runs to its end is answered |
| `McpDispatch.ExecutionIsOfItsTool` | blueprints/mcp_http.py:603-650 | in every interleaving an execution is of the tool its request names, registered and callable, checked and counted under the scope that tool requires and the token holds |
| `McpDispatch.WriteToolIsNoticed` | blueprints/mcp_http.py:640-650 | a tool that requires write:orders never runs without its notice before it |
| `McpDispatch.ServedIsARun` | blueprints/mcp_http.py:572-700 | a request served to its end is a run of its own steps, so every-interleaving results cover it |
| `McpDispatch.EveryExecutionIsFramed` | blueprints/mcp_http.py:603-674 | however requests overlap, an execution's scope was granted, before it its request left exactly its notice if it writes orders, and after it exactly one audit entry with its outcome once it is answered |
| `McpDispatch.NoStrayTraces` | blueprints/mcp_http.py:640-674 | every notice is that of an admitted order-writing request, every audit entry follows its own execution |
| `McpDispatch.ExecutionsAreAdmissions` | blueprints/mcp_http.py:615-650 | executions and requests waiting to execute are the quota's admissions, however they are counted |
| `McpDispatch.WritesStayWithinLimit` | blueprints/mcp_http.py:93-138 | no token executes more order-writing tools admitted in a window than the configured specification says |
| `McpDispatch.WriteToolsStayWithinLimit` | blueprints/mcp_http.py:93-138 | no token has more executions of tools that require write:orders admitted in a window than the specification says |
| `McpDispatch.ReadScopeHasReadLimit` | blueprints/mcp_http.py:118-128 | the other two scopes are limited by the read specification |
| `McpDispatch.WriteStartsPerWindow` | blueprints/mcp_http.py:615-655 | a window holds at most the limit and those starts that were admitted before it; at most the limit when none waits |
| `McpDispatch.LateStartsPileUp` | blueprints/mcp_http.py:615-655 | a run with a limit of one in which two tools start in one window |
| `McpAuditLog.AuditLog.Append` | blueprints/mcp_http.py:362-386 | the file after an append and a possible trim |
| `McpAuditLog.LogIsRecentHistory` | blueprints/mcp_http.py:362-386 | the log is the end of the entry history with at least its last 5000 entries |
| `McpAuditLog.NewestIsLast` | blueprints/mcp_http.py:362-386 | an entry just written is the last line |
| `McpAuditLog.TrimmedIff` | blueprints/mcp_http.py:369-383 | lines are lost exactly when the file is over both bounds and can be measured |
| `McpAuditLog.EitherBoundHolds` | blueprints/mcp_http.py:371-383 | after an unhindered write the file is within the size bound or the line bound |
| `McpAuditLog.FileIsBounded` | blueprints/mcp_http.py:170-176 | the file never outgrows the larger of the size bound and 5000 of its widest lines |
| `McpAuditLog.TenThousandLinesAreKept` | blueprints/mcp_http.py:170-176 | ten thousand entries of 199 characters are all kept |
| `McpAuditTrail.AuditedExecutionIsInFile` | blueprints/mcp_http.py:362-674 | an answered execution has a later audit step of its own, and its line is in the file if its write went through and at most 5000 lines have reached the file since |
| `AgentRecorder.TurnRecorder.Observe` | blueprints/agent.py:1568-1613 | one frame folded in place; the entry in the open table is the listed object itself |
| `AgentRecorder.Recording.RecordStream` | blueprints/agent.py:1648-1676 | hands out the chunks, records exactly those, persists once on every way out of a started stream |
| `AgentRecorder.Recording.PersistTurn` | blueprints/agent.py:1679-1702 | binds the session and adds the message, under every pattern of failing calls |
| `AgentRecorder.StoredIff` | blueprints/agent.py:1648-1702 | for every consumer and every pattern of failing calls: the message of exactly the frames handed out, sidecar included, is added if and only if they carried content, adding works and binding does not raise; the bound session is that of the last start frame exactly when the row is read and written |
| `AgentRecorder.ShownBesideIs` | blueprints/agent.py:1598-1641 | the sidecar of a stored message entry by entry, from the frames alone |
| `AgentRecorder.FramesJoin` | blueprints/agent.py:1665-1673 | the frames of two runs of chunks are those of the first, then those of the second |
| `AgentRecorder.FramesOfOne` | blueprints/agent.py:1665-1673 | a chunk carries a frame if and only if it starts with its mark and what follows reads as one |
| `AgentRecorder.HandedOutUntil` | blueprints/agent.py:1665-1676 | handing out stops at the consumer's wish, the end, or the first chunk the recorder breaks on |
| `AgentRecorder.RaisingBindLosesTheAnswer` | blueprints/agent.py:1686-1702 | a shown answer that a raising session binding keeps out of the store, and a quietly failing one does not |
| `AgentRecorder.PassesThroughIff` | blueprints/agent.py:1665-1676 | every chunk reaches the consumer if and only if no chunk is JSON other than an object |
| `AgentTurn.CallsArePaired` | blueprints/agent.py:1582-1598 | every listed call carries the ending that belongs to it, looking ahead in the frames |
| `AgentTurn.OpenIsLatestUnended` | blueprints/agent.py:1582-1598 | the list has one entry per start and unmatched end; the open table is the calls whose last start has no end |
| `AgentTurn.ProseIsInOrder` | blueprints/agent.py:1575-1578 | prose and markup are the deltas in order |
| `AgentTurn.RunIsLastStart` | blueprints/agent.py:1579-1581 | run and session of a turn are those of its last start frame |
| `AgentTurn.SidecarParts` | blueprints/agent.py:1598-1641 | the first four charts, the last usage, all notices in order, paused if and only if a confirmation was asked |
| `AgentTurn.SidecarIs` | blueprints/agent.py:1614-1641 | notices, charts, markup, usage and run, each in its place |
| `AgentTurn.ContentIff` | blueprints/agent.py:1643-1645 | a turn is stored exactly when a frame carried more than the run's identity |
| `AgentRunOptions.RuntimeLines` | blueprints/agent.py:1768-1792 | the loop with its break gives the first ten lines of the scalars in key order |
| `AgentRunOptions.ByKeyIsSorted` | blueprints/agent.py:1785-1785 | fields are visited in key order, each once |
| `AgentRunOptions.RunOptionsOf` | blueprints/agent.py:1994-2026 | the loop returns the options of the first options entry |
| `AgentRunOptions.OptionsRoundTrip` | blueprints/agent.py:1942-2026 | recovering inverts storing for every valid effort, line list, switch and attachments |
| `AgentRunOptions.RecoveredIsValidated` | blueprints/agent.py:2012-2025 | whatever is stored, only a known effort and bounded lines come out |
| `AgentRunOptions.LastUserRow` | blueprints/agent.py:1898-1925 | the most recent user row among those read back |
| `AgentRunOptions.ChatConfirm` | blueprints/agent.py:2312-2328 | the options a resumed run is built with: its own where the confirmation brings any (`ConfirmationIsPreferred`), the search only if neither switches it off |
| `AgentRunOptions.ConfirmationIsPreferred` | blueprints/agent.py:2316-2328 | what a confirmation brings is preferred, else what was found; the search needs both |
| `AgentRunOptions.SwitchOffIff` | blueprints/agent.py:1870-1895 | the switch reads as off exactly for false, a zero, an empty list or object, and five words in any case and padding |
| `AgentRunOptions.EffortIff` | blueprints/agent.py:1757-1767 | which values ask for an effort, for none, or are refused |
| `AgentRunOptions.LinesAreTheScalars` | blueprints/agent.py:1768-1792 | the lines are made of the fields with a scalar value, in key order, each once, up to ten |
| `AgentRunOptions.StoredSwitchIff` | blueprints/agent.py:1942-1992 | the row of a turn holds the switch off if and only if its body switches the search off |
| `AgentRunOptions.FalseIsOff` | blueprints/agent.py:1870-2328 | a plain false, in the turn or the confirmation, is kept and keeps the resumed run from searching |
| `AgentRunOptions.OptionsAreOfTheRowRead` | blueprints/agent.py:1898-1925 | in any conversation the options found are those of the last user row among the newest 500, and the defaults when there is none or the read fails |
| `AgentRunOptions.OwnRowReadIff` | blueprints/agent.py:2222-2228 | a resume reads its turn's own row exactly when that was stored, nobody sent anything later, and the read reaches it |
| `AgentRunOptions.OwnOptionsFoundIff` | blueprints/agent.py:2316-2328 | with anything before and after the turn and its row perhaps lost: its own options are found exactly when the row read is its own or agrees with it |
| `AgentRunOptions.LastStoredTurnDecides` | blueprints/agent.py:2222-2328 | whichever turn is resumed, the last one that could be stored decides, or the defaults out of its reach |
| `AgentRunOptions.ResumeRebuildsTheRunIff` | blueprints/agent.py:2316-2328 | a confirmation with only decisions rebuilds the run as it was first built exactly when its options are found, and so when its own row is read |
| `AgentRunOptions.ResumedSearchIff` | blueprints/agent.py:2325-2328 | in any conversation: a resumed run may search exactly when the confirmation allows it and no row read holds the switch off |
| `AgentRunOptions.LaterTurnLiftsTheSwitch` | blueprints/agent.py:2222-2328 | two stored turns, off then on: resuming the first may search |
| `AgentRunOptions.LostRowLiftsTheSwitch` | blueprints/agent.py:2222-2328 | a turn sent with search off whose row was lost is resumed with the switch of the turn before |
| `AgentRunOptions.FailedReadLiftsTheSwitch` | blueprints/agent.py:1917-1925 | a failed read turns a search switch back on |
| `AgentDecisions.ReadDecisions` | blueprints/agent.py:2391-2432 | the loops over either shape, refusing at the first invalid entry |
| `AgentDecisions.FieldIff` | blueprints/agent.py:2404-2412 | a field decides a call if and only if it names one and is true or false |
| `AgentDecisions.ItemIff` | blueprints/agent.py:2414-2429 | which items decide a call, which way, and with which tool name |
| `AgentDecisions.RefusedIff` | blueprints/agent.py:2404-2432 | a payload is refused if and only if one of its entries is invalid |
| `AgentDecisions.LastDecisionWins` | blueprints/agent.py:2404-2431 | a call has the verdict of the last entry about it, and the last tool name given for it |
| `AgentDecisions.ShapesAgree` | blueprints/agent.py:2404-2431 | a mapping and the list of its entries are read alike |
| `Lines.TailIsSuffix` | blueprints/admin.py:765-770 | cut a text anywhere: without its first line, what is left are last lines of the whole |
| `Lines.SplitJoined` | blueprints/mcp_http.py:374-380 | splitting joined lines gives them back |
| `AdminLogs.TailJsonl` | blueprints/admin.py:748-770 | the window is a suffix of the file's lines, all of them if the file fits |
| `AdminLogs.WindowStartsAfterBreak` | blueprints/admin.py:757-770 | the window of a larger file holds every line that starts after the first break in it |
| `AdminLogs.ParsedIs` | blueprints/admin.py:773-784 | the entries are those of the lines that have one, in order and each once |
| `AdminLogs.MatchingIs` | blueprints/admin.py:811-830 | the matches are the entries at the matching positions, in order and each once |
| `AdminLogs.ScanNewest` | blueprints/admin.py:811-830 | the early-exit scan returns exactly the last `limit` matches in file order and looks no further |
| `AdminLogs.ErrorsList` | blueprints/admin.py:790-834 | the error viewer's rows and total |
| `AdminLogs.ErrorFilterIff` | blueprints/admin.py:805-826 | which entries each filter of the error viewer lets through |
| `AdminLogs.AuditList` | blueprints/admin.py:2123-2196 | the audit viewer's rows and total |
| `AdminLogs.AuditFilterIff` | blueprints/admin.py:2123-2196 | which entries each filter of the audit viewer lets through |
| `AdminLogs.SeenIsEnough` | blueprints/admin.py:811-830 | entries from the end until `limit` match hold the last `limit` matches of all |
| `AdminErrorGroups.Grouping.Fold` | blueprints/admin.py:1104-1135 | the loop over the dictionary of groups and the total; it raises if and only if a group starts with a timestamp that is no text but true, and holds a text one |
| `AdminErrorGroups.GroupsAreIndependent` | blueprints/admin.py:1104-1135 | each group is the fold of its own entries, listed once |
| `AdminErrorGroups.CountsSumToTotal` | blueprints/admin.py:1104-1135 | the counts add up to the number of entries |
| `AdminErrorGroups.LastSeenIsMax` | blueprints/admin.py:1122-1128 | `count` is the group's size and `last_seen` the largest of its text timestamps |
| `AdminErrorGroups.ShownBounds` | blueprints/admin.py:1109-1128 | where the loop gets through a group, what is shown as its bounds: the odd timestamp it started with, or the texts, or nothing |
| `AdminErrorGroups.FirstSeenIsMinIff` | blueprints/admin.py:1124-1126 | `first_seen` is the smallest timestamp if and only if none is empty or the last one is |
| `AdminErrorGroups.SampleIsLatestOfLast` | blueprints/admin.py:1129-1135 | the sample is the latest entry in the file among those with the last timestamp |
| `AdminErrorGroups.SomeOrderRaisesIff` | blueprints/admin.py:1124-1128 | some order of a group's entries makes the loop raise exactly when it has an odd and a text timestamp, and then another does not |
| `AdminErrorGroups.OrderDoesNotMatter` | blueprints/admin.py:1104-1135 | where no order raises: the same counts; with a text timestamp the same bounds; without one each order shows what its first entry brought |
| `AdminErrorGroups.OddTimestampDependsOnOrder` | blueprints/admin.py:1109-1120 | without a text timestamp two orders show two things |
| `AdminErrorGroups.EmptyTimestampDependsOnOrder` | blueprints/admin.py:1124-1126 | with an empty timestamp the first one does |
| `AdminErrorGroups.GroupDescribesItsEntries` | blueprints/admin.py:1104-1135 | where the loop gets through: count, bounds as shown and sample of every group of the table |
| `EnvSubstitution.SubstitutedIsLinewise` | blueprints/broker_credentials.py:41-63 | where every line of the key has a value the substitution rewrites exactly the key's unindented lines |
| `EnvSubstitution.RewritesInPlaceIff` | blueprints/broker_credentials.py:47-63 | it rewrites in place if and only if every line of the key but the file's last has something after the equals sign |
| `EnvSubstitution.SubstitutedExactly` | blueprints/broker_credentials.py:41-63 | on any file without bare names, what the substitution does, line by line, the swallowed ones included |
| `EnvSubstitution.BlankValueSwallowsNextLine` | blueprints/broker_credentials.py:47-63 | a blank right-hand side takes the next line that is not blank with it |
| `EnvSubstitution.ReplacementIs` | blueprints/broker_credentials.py:41-63 | how a value is quoted: as it is, or escaped so that taking the backslashes away gives it back |
| `EnvSubstitution.EscapedReadsBack` | blueprints/broker_credentials.py:41-63 | escaping loses nothing |
| `EnvLines.EditLines` | blueprints/admin.py:2313-2326 | the loop that replaces the first line of the key, or appends |
| `EnvLines.SetInTextIsSetPieces` | blueprints/admin.py:2313-2333 | editing the kept lines is editing one piece of the file |
| `EnvLines.MatchesIffReads` | blueprints/admin.py:2315-2318 | the pattern finds a line exactly when it is read as setting the key |
| `EnvLines.SetPiecesReads` | blueprints/admin.py:2313-2326 | the edit sets the key and nothing else, or nothing at all when several lines set it |
| `EnvLines.SetReadBackIff` | blueprints/admin.py:2313-2333 | read-back holds if and only if at most one line set the key or it held the value |
| `EnvEdits.UpdateIsUpdatePieces` | blueprints/broker_credentials.py:41-73 | updating the text is updating or appending one piece |
| `EnvEdits.EditsAreRead` | blueprints/broker_credentials.py:273-326 | after any sequence of edits by either page: read-back, framing, and the file is still tidy |
| `EnvEdits.EditorsAgree` | blueprints/admin.py:2292-2333 | two sequences that set the same values read the same, whichever page makes each edit |
| `EnvEdits.EditIsIdempotent` | blueprints/broker_credentials.py:41-73 | the same edit again leaves the text as it is |
| `EnvRoutes.EnvFile.SetEnvValue` | blueprints/admin.py:2292-2333 | refuses a malformed key and a value to escape before reading, else edits the file |
| `EnvRoutes.EnvFile.UpdateCredentials` | blueprints/broker_credentials.py:183-345 | all edits in one write, exactly when every check passes and there is one, and then each field reads as asked under its own key (`FieldsAreRead`); a write that fails leaves the old text or the beginning of the new one; else the file is untouched |
| `EnvRoutes.CredentialsAreRead` | blueprints/broker_credentials.py:273-326 | every field given reads as given, every other key as before |
| `EnvRoutes.FieldsAreRead` | blueprints/broker_credentials.py:273-326 | on a tidy file each of the eight fields that is given reads as given under its own key, and every other key as before |
| `EnvRoutes.AskedIsRead` | blueprints/broker_credentials.py:273-326 | the same of an update that goes through, as `UpdateCredentials` promises it |
| `EnvRoutes.SettingIsRead` | blueprints/admin.py:2313-2333 | a setting saved where at most one line set the key is read, and nothing else is read differently |
| `EnvRoutes.EnvKeyIff` | blueprints/admin.py:2292-2312 | which keys the settings page takes |
| `EnvRoutes.IndentedLinesAreDoubled` | blueprints/broker_credentials.py:47-73 | where all lines of a key are indented one more is appended: its value is read, and several lines set the key |
| `EnvRoutes.SeveralLinesHideEdits` | blueprints/admin.py:2313-2333 | while several lines set a key, no run of the settings page's edits of it is read |
| `EnvPages.PagesShareNoKey` | blueprints/admin.py:2424-2437 | the settings page sets none of the eight keys of the credentials page |
| `EnvPages.RequestIsOfPage` | blueprints/broker_credentials.py:273-326 | what a credentials request edits are those eight keys |
| `EnvPages.SettingsEditLines` | blueprints/admin.py:2313-2326 | a settings edit replaces the first line of its key or appends one, and keeps every other key's lines |
| `EnvPages.OtherLinesKeptIff` | blueprints/broker_credentials.py:41-73 | a credentials edit keeps the lines of another key if and only if it swallows none of them |
| `EnvPages.RunText` | blueprints/broker_credentials.py:273-326 | any run of both pages' edits of a text without bare names is the run of edits of its lines |
| `EnvPages.SettingsKeptIff` | blueprints/broker_credentials.py:41-73 | over any run of both pages' edits on any file: the settings' lines are at all times those the settings page alone would have left if and only if no credentials edit swallows one |
| `EnvPages.PagesDoNotInterfere` | blueprints/admin.py:2292-2333 | where no credentials key is blank, after any run of edits by both pages each page's keys read as if it had been alone |
| `EnvPages.BlankCredentialEatsSetting` | blueprints/broker_credentials.py:47-63 | a blank credential in front of a setting: the next credentials edit takes the setting away |
| `AuthSession.Browser.PostLogin` | blueprints/auth.py:283-386 | the password step with every early return, the clearing and the parked second factor |
| `AuthSession.Browser.GetLogin` | blueprints/auth.py:388-402 | the login page drops an expired session |
| `AuthSession.Browser.LoginTotp` | blueprints/auth.py:405-476 | the second factor, fresh for 300 seconds |
| `AuthSession.Browser.TryResumeBrokerSession` | blueprints/auth.py:193-277 | what a resume leaves in the session, also when it breaks off |
| `AuthSession.Browser.TwoFactorConfigure` | blueprints/auth.py:501-546 | flags change with an accepted code, masked by the master switch |
| `AuthSession.Browser.CheckSessionValidity` | utils/session.py:306-343 | an invalid session is cleared and the guarded route not entered |
| `AuthSession.Browser.ChangePassword` | blueprints/auth.py:1455-1497 | an accepted change clears the session |
| `AuthSession.Browser.GetLogout` | blueprints/auth.py:1316-1332 | a foreign-initiated logout changes nothing |
| `AuthSession.UserIsAuthenticated` | blueprints/auth.py:302-461 | a session has a user only after that user's password and, where required, code within five minutes, since it was last cleared |
| `AuthSession.UserAppearsIff` | blueprints/auth.py:324-461 | exactly which requests give a session its user |
| `AuthSession.UserGoesIff` | blueprints/auth.py:1316-1497 | exactly which requests take a session its user |
| `AuthSession.PendingAppearsIff` | blueprints/auth.py:324-386 | exactly which requests leave a user waiting for a code, and since when |
| `AuthSession.CodeDecides` | blueprints/auth.py:405-476 | what a code does: nothing, an end to the waiting, or the session |
| `AuthSession.BrokerLoginIff` | blueprints/auth.py:193-277 | exactly when a session gets a broker login, whose and from when |
| `AuthSession.BrokenResumeLeaves` | blueprints/auth.py:193-277 | what a resume that breaks off leaves in the session |
| `AuthSession.LeavesNobody` | blueprints/auth.py:1316-1332 | an own logout, an expired session on a guarded route and an accepted password change leave nobody in the session; what is refused leaves everything |
| `AuthSession.StepKeepsSafe` | blueprints/auth.py:83-102 | user and pending second factor never coexist, a broker login is the user's own |
| `AuthSession.FlagsNeedACode` | blueprints/auth.py:501-546 | a session changes only its own account's flags and only with an accepted code |
| `AuthSession.FlagsBecome` | blueprints/auth.py:501-546 | what an accepted code changes the flags to |
| `AuthSession.RunKeepsConsistent` | blueprints/auth.py:522-534 | no purpose flag is ever on with the master switch off |
| `SymbolSearch.ApiSearch` | blueprints/search.py:135-224 | the loops with their seen set return the distinct rows of all answers |
| `SymbolSearch.AnswerIsTheUnion` | blueprints/search.py:169-224 | no key twice, and exactly the keys the engines answered over all exchanges and types |
| `SymbolSearch.EnginesAnswerIff` | blueprints/search.py:135-224 | a key is answered if and only if the engine asked answers it: that of derivatives when the request filters by them or the exchange is one of theirs, else the plain one |
| `SymbolSearch.FirstAppearanceOrder` | blueprints/search.py:190-221 | rows keep the order of their key's first appearance |
| `SymbolSearch.RepeatedExchange` | blueprints/search.py:169-221 | naming an exchange again changes nothing |
| `SymbolSearch.RepeatedType` | blueprints/search.py:170-221 | naming an instrument type again changes nothing |
| `SymbolSearch.ParseIsPerValue` | blueprints/search.py:108-112 | a comma-separated parameter is read value by value |
| `SymbolSearch.ParseOneValue` | blueprints/search.py:108-112 | one value is stripped and put in capitals, or dropped if blank |

## Left out

- Two lifecycle requests on one workflow at the same time: requests are served one after the other.
- add_workflow_job, add_alert and add_watch are all-or-nothing; triggers firing, one-shot alerts removing themselves, order-stream subscriptions and the start-up reconciliation of jobs are not modelled.
- How a registration fills in fields a node does not give, and converts numbers: an entry holds the node's own values.
- The graph validator beyond counting trigger nodes: its verdict is a parameter of a request.
- `_execution_blocked`, webhook routes, import and export of workflows: no state of their own beyond the row.
- Chartink: reading `%H:%M` texts (a time is its minutes or none), the fields of an order (a payload is a number), strategy and symbol routes, the square-off schedule.
- Chartink: a request's strategy, mappings and API key are read once, before its first order.
- Clocks are explicit and never go back; a sleep is a lower bound; a post takes any time.
- MCP: assumed, not shown: no other request runs between a request's first check and the end of its quota check. The code takes no lock there; it relies on a single worker that switches requests only where they wait. An append to the audit log is taken as one step too.
- MCP: transport, origins, bearer tokens and the parameter hash; the two rate specifications are parameters; `int` of digits beyond ASCII.
- The audit log's file is measured in characters, which are bytes for the ASCII it holds; a write that breaks off half way is not modelled.
- Agent: the JSON reader is a parameter; how a value that is no text prints, attachments, context building and cancellation; an edit that forgets stored runs; error kinds outside Exception.
- Strip, upper and lower case are those of ASCII, except the blanks of the `.env` patterns.
- AdminLogs.TailJsonl: a file is a sequence of characters; the replacement of bytes that are no UTF-8 is not modelled.
- AdminErrorGroups: the fingerprint and the sanitised view are parameters; a timestamp that is no text and false reads as missing; the final sort by count and last timestamp, which such a timestamp can make raise too, and its cut to a limit.
- `.env`: how a parser reads unquoted values with comments; template expansion of a replacement with backslashes is a parameter that may raise; the settings page's atomic replacement of the file; a request field that is no text.
- EnvPages: a line that is a bare name, which an equals sign on a later line completes; other programs that write the file.
- EnvEdits.EditsAreRead: values hold no single quote, backslash or line break, and lines no line break other than a newline.
- AuthSession: password hashing, code arithmetic, rate limits, password reset, the broker callback; the daily expiry is a parameter of a request; other browsers act through the shared accounts.
- SymbolSearch: the engines, the strike parser's error and the columns of a row other than its key.
