# Pudding Core: verified models

Pudding Core is a local agent daemon.  This project models the parts of it that carry
guarantees over many steps, and proves those guarantees in Dafny.  `dafny verify
dfyconfig.toml` checks everything.

| files | what they model |
|---|---|
| `EventStream`, `EventStreamProofs`, `EventHandler`, `EventTransients` | the resumable event stream of a session: log, hub, handler, wire and client as interleaved steps |
| `Regrouping`, `HistoryOrder` | replaying a history turn by turn; the theory of grouping at first occurrence is shared with the model list |
| `Messages`, `Cooling`, `CoolingProofs`, `CoolingPipeline` | which old turns may be shortened, the projection that shortens them, and the path of a request through both |
| `Compaction`, `CompactionProofs`, `Sessions`, `SessionHistory`, `SessionInvariants`, `SessionProofs`, `SessionSkills`, `RequestPath` | a session over its whole life: inputs, outputs, receipts, results, compactions and watermarks in any order, and what that means for every request |
| `LifecycleLock`, `LifecycleGroups` | the per-group lock: a mutex, a map of channels and a retry loop, as interleaved steps; which sessions exclude each other |
| `RequestLimiter`, `RequestLimiterProofs` | fixed request windows with eviction and release closures |
| `ConfigStore`, `ProviderProfiles` | the commit protocol of the encrypted configuration files: immutable records, an atomic rename, a cleanup, and crashes in between |
| `PluginConnections`, `PluginConnectionsProofs`, `PluginWebPatch`, `PluginOperations`, `PluginManager`, `PluginIdentity`, `FreshIds` | plugin connections and their bindings through puts, deletes, patches and migrations, on top of that protocol |
| `SkillReferences`, `SkillReferencesProofs` | carrying the latest skill references past a compaction, and leaving one of each current |
| `ProviderModels`, `ProviderModelsProofs`, `ProviderModelFields` | cleaning, grouping and merging a provider's models |
| `Utf8`, `ProjectInstructions` | reading instruction files within byte budgets, cut at character boundaries |
| `PluginEnablement` | migrating the saved plugin switches |
| `ModelImage` | image dimensions and bilinear resampling, over the reals |
| `ComputerActions`, `ComputerLaunches` | normalizing and dispatching action batches, and who may quit what |
| `Text`, `Decimals`, `Results` | strings, numbers as text, and result types the others use |

Code that changes things step by step is a method with loops, proved against a
specification function; what the source promises is proved about that function.  Concurrent
code is a state machine whose runs interleave freely, and its theorems hold over every run.
The clock, random names, the file system, the native service and answers from other packages
are parameters or arbitrary values.

## Where the code stops short

For each of these a concrete case is proved, and the exact condition over all inputs.

- A client that has no event id yet begins at the tail on each connection, so an event logged
  between two such connections never reaches it (`FreshClientCanMiss`, `SkippedNeverArrives`;
  `NothingMissedExactly` is the exact condition).
- Choosing a watermark spares the receipts that a hot action answers, but a watermark that is
  committed cannot know of actions to come: a receipt it has passed is cold when a later turn
  answers it (`AnsweredTooLate`; `SparedExactly` is the exact condition, and a receipt that is
  warm then stays warm: `AnsweredReceiptNeverCooled`).
- A catalogue that repeats an id can make a second merge change what the first stored, since
  the merge looks candidates up by their last occurrence and adds them by their first
  (`RepeatedCandidateCanChange`; `MergeTwice` is the exact condition).
- A web selection saved under the old plugin id is dropped when both web migrations run in one
  read, or when the first one left an entry behind (`AliasSelectionLost`; `AliasCountsExactly`
  is the exact condition).
- A file that fits but is not UTF-8 loses its end without being marked as truncated
  (`EndDroppedUnmarked`; `MarkTellsTruth` is the exact condition).
- A minute that lies across two windows can be granted twice the limit of one
  (`BoundIsReached`; `WindowLimitHoldsExactly` is the exact condition, and twice the limit is
  never exceeded: `RateBound`).

## Model

| member | source | states |
|---|---|---|
| `EventHandler.Serve` | internal/api/sse.go:54-79 | whatever the backlog and the live events have in common, the handler sends the backlog, then the live events that carry no number or one above it; of the log it has then sent everything above the resume point that it was given, in order, none twice, none missing |
| `EventTransients.NewerIsSelection` | internal/api/sse.go:62-79 | the handler passes over no live event but the numbered ones it has sent, and changes the order of none |
| `EventTransients.TransientsAreKept` | internal/api/sse.go:48-79 | as long as a connection lasts, whatever happens, an event without a number that has reached the channel has been sent or is still to be sent, in order |
| `EventTransients.ReceivedAsSent` | internal/api/sse.go:56-80 | over every run, what the client has received on its connection is what the handler sent, with or without a number, in order |
| `EventStreamProofs.EventIdComesBack` | internal/api/sse.go:89-116 | the id an event is written with is read back as its number from the header and from the query parameter, over all 64-bit numbers; a header that is no number from zero up asks for no resume point, whatever the parameter says |
| `EventTransients.NoNumberAsksForNone` | internal/api/sse.go:103-116 | a header with anything but digits after at most one sign asks for no resume point, whatever the parameter says |
| `EventStreamProofs.ConnectReadsHeader` | internal/api/sse.go:28-35 | a connection of the state machine resumes where the header of its client is read to, and at the tail of the log without one |
| `EventStreamProofs.StepKeeps` | internal/api/sse.go:28-80 | every interleaved step of log, publisher, hub, handler, wire and client keeps the invariant behind the theorems below |
| `EventStreamProofs.SentExactly` | internal/api/sse.go:48-79 | over every run the numbered events a handler has sent are exactly the logged events between its resume point and its mark, in order, none twice, none missing |
| `EventStreamProofs.NothingIsLost` | internal/api/sse.go:48-80 | over every run, from the moment a handler has subscribed, a logged event it still owes is in the backlog it has read or will read, in its channel or not yet published, unless the hub closed the channel |
| `EventStreamProofs.CaughtUp` | internal/api/sse.go:54-79 | a handler with nothing left to send has sent the whole log above its resume point |
| `EventStreamProofs.ClientStreamIsGapless` | internal/api/sse.go:28-80 | over any number of disconnects at any point, a client that has an id has received exactly the log from where its stream began to that id |
| `EventStreamProofs.ResumePointOnlyAdvances` | internal/api/sse.go:89-116 | a client's id only moves forward, only with numbered events, and its stream never begins anew |
| `EventStreamProofs.NothingMissedExactly` | internal/api/sse.go:28-35 | over every run, a client with an id has everything logged since its first connection if and only if nothing was logged between that connection and the last one it made without an id |
| `EventStreamProofs.SkippedNeverArrives` | internal/api/sse.go:28-35 | while a client without an id is connected, nothing logged up to its resume point reaches it in any continuation of the run |
| `EventStreamProofs.FreshClientCanMiss` | internal/api/sse.go:28-35 | a run with two connections without an id and an event between them, which no continuation delivers |
| `HistoryOrder.HistoryInTurnOrder` | internal/contextbuilder/history_order.go:9-38 | the loop with its groups, positions and flushes computes the turn order that the lemmas below characterize |
| `HistoryOrder.OnlyTurnOrder` | internal/contextbuilder/history_order.go:9-38 | it is the only permutation that keeps each turn's own order, keeps each turn together between barriers and orders turns by first occurrence |
| `HistoryOrder.KeepsMessages` | internal/contextbuilder/history_order.go:9-38 | no message is lost, added or repeated |
| `HistoryOrder.BarriersKeepPlace` | internal/contextbuilder/history_order.go:21-27 | a summary, and a message without a turn, keep their index |
| `HistoryOrder.OrderIsIdempotent` | internal/contextbuilder/history_order.go:9-38 | ordering an ordered history changes nothing |
| `HistoryOrder.TurnIsTogether` | internal/contextbuilder/history_order.go:5-8 | between two messages of a turn with no barrier between them there are only messages of that turn |
| `Regrouping.GathersIsRegrouping` | internal/contextbuilder/history_order.go:28-34 | over any keys, gathering each group in order at its first occurrence describes exactly one permutation |
| `Regrouping.BarrierDivides` | internal/contextbuilder/history_order.go:21-27 | over any keys, nothing crosses a barrier |
| `Cooling.CoolingCandidate` | internal/contextbuilder/cooling.go:38-76 | the scan, the search for the first hot input and the retreat to cited sources choose the watermark the lemmas are about |
| `Cooling.CooledMessages` | internal/contextbuilder/cooling.go:78-124 | the projection rewrites exactly the cold turns' notifications and tool results |
| `CoolingProofs.CoolingKeepsShape` | internal/contextbuilder/cooling.go:98-123 | length, ids, roles, turns and positions never change, and a message whose turn is not cold is untouched |
| `CoolingProofs.ColdIsShort` | internal/contextbuilder/cooling.go:98-123 | every message of a cold turn has its short form: a notification its stub, every result of a tool the stub of its content, with its other outputs dropped when that differs, and every other part as it was |
| `CoolingProofs.KeepsRecentInputs` | internal/contextbuilder/cooling.go:36-76 | after choosing and applying a watermark, every message of an input turn that no more than keepEnded other input turns follow is the very same message |
| `CoolingProofs.KeepsCurrentTurn` | internal/contextbuilder/cooling.go:36-76 | the same for the current turn |
| `CoolingPipeline.CurrentTurnNeverCooled` | internal/contextbuilder/builder.go:153-156 | over the whole path of a request, from the effective history with what is carried past a compaction through ordering, choosing a watermark and applying it: while no other turn has a later input, no message of the current turn is altered, not even after a compaction inside it |
| `CoolingPipeline.RecentTurnNeverCooled` | internal/contextbuilder/builder.go:153-156 | the same for every input turn that no more than keepEnded other input turns follow |
| `CoolingPipeline.CitedTurnNeverCooled` | internal/contextbuilder/builder.go:153-156 | the same for a receipt that a hot action answers, because a receipt is alone in its turn |
| `CoolingPipeline.ProjectionKeepsWarm` | internal/contextbuilder/builder.go:153-156 | whatever the watermark, a turn that is warm in the effective history and of which nothing is carried is left as it is |
| `CoolingPipeline.ProjectedColdExactly` | internal/contextbuilder/builder.go:153-156 | over any compaction, which turns of the projected history a watermark cools, if and only if |
| `CoolingPipeline.ProjectionCoolsTheSame` | internal/contextbuilder/builder.go:153-156 | when a turn that is both carried and still shown is shown first, what is carried makes no difference to which turns of the effective history a watermark cools |
| `CoolingPipeline.ColdByFirst` | internal/contextbuilder/cooling.go:88-91 | a watermark cools exactly the turns whose first message was stored no later than the first of its own turn |
| `CoolingProofs.KeepsCitedSources` | internal/contextbuilder/cooling.go:58-71 | a turn that opens with what a hot action answers is left as it is, however old it is |
| `CoolingProofs.ColdExactly` | internal/contextbuilder/cooling.go:53-95 | in an ordered history the cold turns are exactly those with a message before the split point |
| `CoolingProofs.CurrentTurnColdExactly` | internal/contextbuilder/cooling.go:46-75 | the current turn is cooled if and only if more than keepEnded other input turns begin after its opening and no action in what stays hot answers its opening or anything before it |
| `CoolingProofs.CurrentTurnCanCool` | internal/contextbuilder/cooling.go:46-57 | the rule protects the current turn of the histories it is meant for only: given one in which a later input turn follows the current one, it cools the current one |
| `CoolingProofs.SplitShrinks` | internal/contextbuilder/cooling.go:54-71 | keeping more turns never moves the split point forward, although more citations are looked at |
| `CoolingProofs.KeepingMoreCoolsLess` | internal/contextbuilder/cooling.go:46-75 | raising keepEnded never enlarges the set of cold turns |
| `CoolingPipeline.WatermarkStays` | internal/contextbuilder/cooling.go:58-59 | wherever later messages are sorted in, between old ones too, a committed watermark projects every older message as before |
| `CoolingPipeline.OrderingKeepsOpenings` | internal/contextbuilder/cooling.go:39-39 | a message that opens its turn in the stored history opens it in the ordered one |
| `Compaction.SplitRecentInputTail` | internal/contextbuilder/builder.go:511-531 | the backward scan cuts at the keep-th input boundary from the end |
| `Compaction.CompactPartition` | internal/engine/compact.go:247-285 | the three scans and the pass keep exactly the inputs and the latest exchange of the running turn, or the recent input turns |
| `CompactionProofs.TailHasTurns` | internal/engine/compact.go:243-250 | what stays begins with an input and holds exactly as many input turns as were to be kept, or is everything when there are fewer |
| `CompactionProofs.RunningTailIs` | internal/engine/compact.go:251-283 | of a running turn exactly its inputs stay, and everything from its latest exchange on: from the last tool call back over the answers before it, without attachments of the exchange before; the summary replaces the rest, and nothing is lost |
| `Compaction.EffectiveMessages` | internal/contextbuilder/builder.go:473-509 | the search, the index and the two passes yield the last compaction summary, the tail it lists and what was stored after it, each once |
| `SessionHistory.HistoryKeeps` | internal/store/sqlitestore/sqlitestore.go:813-870 | whatever a session stores, turns do not interleave but for receipts, a receipt is alone in its turn, an input opens its turn, and nothing but the running turn works while it runs |
| `SessionInvariants.StepKeeps` | internal/store/sqlitestore/sqlitestore.go:1656-1766 | every step of a session, compactions inside a running turn included, keeps the history, what is shown of it and the committed watermark as the results below need them |
| `SessionInvariants.CompactingHidesOlder` | internal/engine/compact.go:247-285 | of what can hold references, a compaction never hides anything later than what it keeps |
| `SessionInvariants.CompactingKeepsStraddlers` | internal/engine/compact.go:243-285 | a compaction cuts a turn only where nothing of another turn is kept before it |
| `SessionProofs.RunningTurnNeverCooled` | internal/contextbuilder/builder.go:147-156 | over every run of a session, with compactions inside the running turn and out of it, and whatever watermark was committed when, no message of the running turn is altered in a request |
| `SessionProofs.ShownIsCooledExactly` | internal/contextbuilder/builder.go:153-156 | over every run, what a request does to each message that is shown: with a watermark in effect, what is of a turn first shown no later than the watermark's turn is in its short form, and everything else is as it was stored |
| `SessionProofs.AnsweredReceiptNeverCooled` | internal/contextbuilder/cooling.go:58-71 | over every run, a receipt that is warm when a turn answers it is in every request of that turn as it was recorded, until a compaction replaces it |
| `SessionProofs.ChosenSparesCited` | internal/contextbuilder/cooling.go:58-71 | a watermark that is chosen while a turn runs that answers a receipt never cools the receipt |
| `SessionProofs.SparedExactly` | internal/contextbuilder/cooling.go:86-97 | a receipt that is shown is warm if and only if the committed watermark is through a turn that was shown before it |
| `SessionProofs.AnsweredTooLate` | internal/store/sqlitestore/widget_notices.go:56-105 | a run in which a receipt comes, a watermark passes it while another turn runs, and only then a turn answers it |
| `SessionProofs.SessionIsProjectable` | internal/contextbuilder/skill_references.go:197-228 | over every run, what is carried stands behind a summary, and a turn it belongs to is shown first, if at all |
| `SessionSkills.RequestApart` | internal/contextbuilder/history_order.go:5-8 | in every request of every run, turns speak one after the other, carried messages included |
| `SessionSkills.SessionSkillIsLast` | internal/contextbuilder/skill_references.go:29-31 | over every run, however often the history was compacted, whatever order notifications came in and whatever watermark is committed, the one reference of a skill that a request leaves current is the last one of the whole history |
| `SessionSkills.ScanFindsCalls` | internal/contextbuilder/skill_references.go:172-192 | the scan has the call of every latest reference |
| `RequestPath.OrderKeepsSpeakers` | internal/contextbuilder/history_order.go:28-36 | ordering moves nothing that speaks past anything else that speaks |
| `RequestPath.CoolingKeepsReferences` | internal/tool/cold_result.go:11-16 | cooling changes no reference to a skill and moves none |
| `RequestPath.RequestHasHistorysLast` | internal/contextbuilder/builder.go:153-156 | projected, ordered, cooled and resolved, the one reference of a skill that stays current is the last one of the whole history |
| `LifecycleLock.StepKeeps` | internal/api/session_lifecycle.go:8-46 | every step of every caller, inside or outside the mutex, keeps the invariant |
| `LifecycleLock.MutualExclusion` | internal/api/session_lifecycle.go:5-7 | over every run two callers that have one group are one caller |
| `LifecycleLock.EntryWhileHeld` | internal/api/session_lifecycle.go:21-34 | over every run a group has an entry exactly while some caller has the group |
| `LifecycleLock.NoLostWakeup` | internal/api/session_lifecycle.go:31-43 | over every run the channel a waiter waits for is closed, is the current holder's, or is about to be closed by the mutex holder |
| `LifecycleLock.FailedHoldsNothing` | internal/api/session_lifecycle.go:9-19 | over every run a caller that failed or was cancelled has neither the mutex nor an entry |
| `LifecycleLock.NoDeadlock` | internal/api/session_lifecycle.go:17-45 | over every run, while some caller is neither done nor failed, some caller can take its next step |
| `LifecycleGroups.FamilyExcludes` | internal/api/session_lifecycle.go:12-18 | over every run, of two callers whose sessions are the same, parent and child, or children of one parent, at most one has got in, given that no child has children of its own, which internal/store/sqlitestore/collaboration.go:23-29 sees to |
| `LifecycleGroups.HoldTogetherExactly` | internal/api/session_lifecycle.go:5-18 | two callers can be in at the same time if and only if their sessions are no family: unrelated sessions never wait for each other |
| `LifecycleGroups.CancelledNeverHolds` | internal/api/session_lifecycle.go:20-43 | once cancelled before it passed its last check, in no continuation does a caller get in |
| `LifecycleGroups.CancelledCanFail` | internal/api/session_lifecycle.go:39-43 | a cancelled caller never depends on another one to get out: it can go on to fail by its own steps |
| `RequestLimiter.Limiter.Acquire` | internal/api/widget_queries.go:335-363 | over shared entries, a request is granted or refused and leaves the table exactly as the value-level step says; the entry handed to its release stays the listed one |
| `RequestLimiter.Limiter.Sweep` | internal/api/widget_queries.go:343-347 | whatever order the map is walked in, exactly the idle entries of a minute or more go, and no entry with a release to come is detached |
| `RequestLimiter.Limiter.Release` | internal/api/widget_queries.go:362-362 | a release decrements the listed entry it was granted from, and no other |
| `RequestLimiterProofs.StepKeeps` | internal/api/widget_queries.go:330-363 | every request and release keeps the invariant on windows, counts and grants |
| `RequestLimiterProofs.RateBound` | internal/api/widget_queries.go:353-361 | over every run, any half-open minute wherever it begins grants an item at most twice the limit of one window |
| `RequestLimiterProofs.BoundIsReached` | internal/api/widget_queries.go:353-359 | whatever the limits, as long as they let a request through, some minute of some run grants exactly twice the limit of a window: the bound cannot be lowered |
| `RequestLimiterProofs.WindowLimitHoldsExactly` | internal/api/widget_queries.go:353-359 | every minute of every run stays within the limit of one window if and only if the limits let nothing through at all |
| `RequestLimiterProofs.ActiveIsOutstanding` | internal/api/widget_queries.go:343-363 | over every run an item's active count is the number of its releases still to come and stays within the limit, and its entry is still listed while there is one |
| `RequestLimiterProofs.RefusedOnlyWhenFull` | internal/api/widget_queries.go:357-359 | over every run a refusal means that all concurrent requests are in flight or that the minute ending now already granted a full window's worth |
| `ConfigStore.Store.Write` | internal/config/plugin_connections.go:216-263 | for every property of configurations that both files on disk have with the records that survive for sure, and that the new configuration has, every state the disk passes through has it too, in any order and failing anywhere; a reported success is durable, reads back as what was written, and holds no plain text; and when nothing goes wrong the write succeeds |
| `ConfigStore.Store.Replace` | internal/config/plugin_connections.go:216-263 | over a disk that earlier failed writes may have left in doubt: wherever a write stops, a crash leaves what it could have left before or the whole new configuration, programs read the whole old or the whole new one, and after success only the new one is left; when nothing goes wrong it succeeds |
| `ConfigStore.Store.OpenAll` | internal/config/plugin_connections.go:166-214 | every entry of the file is opened, or the file is refused with its fault |
| `ConfigStore.Store.Read` | internal/config/plugin_connections.go:166-214 | a file is read whole or not at all; one that cannot be read is left alone and the fault named; one with plain text is rewritten without it and without changing what it means |
| `ConfigStore.Store.SealAll` | internal/config/plugin_connections.go:222-250 | every entry gets its form in the new file and its record, and no record that was there changes |
| `ConfigStore.Store.WriteRecord` | internal/credentialstore/store.go:72-121 | a record is never overwritten, a half-written or abandoned one changes no meaning, and a reference is given out only once the record survives a crash for sure |
| `ConfigStore.Store.WriteBytes` | internal/credentialstore/store.go:97-112 | a new record is written and flushed, or abandoned half-written or removed, and no other record is touched |
| `ConfigStore.Store.SyncRecord` | internal/credentialstore/store.go:113-119 | a new record survives a crash for sure once its bytes and its directories were flushed, and not before |
| `ConfigStore.Store.SyncDirectory` | internal/config/config.go:714-716 | the file programs read is the one a crash leaves once its directory was flushed |
| `ConfigStore.Store.SealEntry` | internal/config/plugin_connections.go:222-250 | an entry with secrets gets a reference to its own record of exactly these secrets, one without secrets gets none; the record it has is kept when it holds exactly these |
| `ConfigStore.Store.ReplaceFile` | internal/config/config.go:682-717 | its bytes flushed before the rename, the file is the old one, the new one seen but not yet durable, or the new one for good |
| `ConfigStore.Store.Prune` | internal/credentialstore/store.go:137-156 | wherever the cleanup stops, every record the file refers to is still there unchanged |
| `ConfigStore.EncodedIsRead` | internal/config/plugin_connections.go:216-263 | what a write puts in the file decodes to the configuration it was given, with the references now in memory, and has no plain text |
| `ConfigStore.DecodesExactly` | internal/config/plugin_connections.go:166-214 | a file is read as a configuration if and only if its version is known and it has exactly these entries, each with the secrets it states, or with none and those of a record that is sealed for this entry |
| `ConfigStore.SameRecordsSameMeaning` | internal/config/plugin_connections.go:195-205 | what a file means depends only on the records it refers to |
| `ConfigStore.CrashImage` | internal/config/plugin_connections.go:254-262 | whichever file a crash leaves, and whatever becomes of the records that were not flushed, damaged, gone or back, what is found keeps the property |
| `ProviderProfiles.ProfileManager.PutProviderProfile` | internal/config/config.go:210-237 | also after writes that failed: wherever a put stops, a crash leaves what it could have left before or the whole new set of profiles, and the next call starts from the whole old or the whole new set; success leaves only the new one, without plain text; and when nothing goes wrong it succeeds |
| `ProviderProfiles.ProfileManager.DeleteProviderProfile` | internal/config/config.go:239-251 | the same for a delete |
| `PluginConnectionsProofs.RunKeepsBindings` | internal/config/plugin_connections.go:76-137 | over every run of puts, deletes, binding patches, web patches and migrations, every binding selects an existing connection of its own plugin, and once migrated the web plugin binds only "active" |
| `PluginConnectionsProofs.PutKeeps` | internal/config/plugin_connections.go:76-121 | a put leaves no binding on a connection of another plugin, because a bound connection cannot change plugin |
| `PluginConnectionsProofs.PutStores` | internal/config/plugin_connections.go:76-121 | a put stores the connection under its trimmed id with the secrets it was given, keeps its creation time and touches nothing else |
| `PluginConnectionsProofs.PutAcceptedExactly` | internal/config/plugin_connections.go:76-102 | a put is accepted if and only if it names a connection and a plugin, was made from what is stored now, and leaves plugin, method and authentication type of a selected connection as they are |
| `PluginConnectionsProofs.SecondPutIsRefused` | internal/config/plugin_connections.go:69-93 | of two puts that were made from the same state of a connection the second is refused |
| `PluginConnectionsProofs.DeleteUnbinds` | internal/config/plugin_connections.go:123-137 | after a delete the connection is gone and selected nowhere, and every other connection and selection is as it was |
| `PluginConnectionsProofs.PatchBindingsKeeps` | internal/config/plugin_connections.go:321-366 | an accepted binding patch keeps every binding sound |
| `PluginConnectionsProofs.PatchBindingsApplies` | internal/config/plugin_connections.go:337-359 | a patch sets or clears each purpose it names, and nothing else of any plugin |
| `PluginOperations.PatchBindingsAcceptedExactly` | internal/config/plugin_connections.go:321-366 | a binding patch is accepted if and only if it selects connections of its own plugin, and for the web plugin names only its purposes and agrees about them |
| `PluginOperations.PatchWebBindingsApplies` | internal/config/plugin_connections.go:321-366 | an accepted one of the web plugin sets or clears the one active connection, ends a review, and leaves every other plugin's selections alone |
| `PluginOperations.PatchPluginBindingsApplies` | internal/config/plugin_connections.go:337-359 | an accepted one of another plugin sets or clears each purpose it names and nothing else of the configuration |
| `PluginConnectionsProofs.PatchWebKeeps` | internal/config/web_tools.go:128-209 | a web patch keeps every binding sound, in whatever order its keys are walked |
| `PluginConnectionsProofs.PatchWebSelects` | internal/config/web_tools.go:181-203 | a web patch that selects a provider makes a connection of that provider the active one |
| `PluginWebPatch.PatchWebAppliesKey` | internal/config/web_tools.go:155-176 | whatever else a patch does and in whatever order its keys come, for a provider it names once: a key makes the provider's active or first connection the same one with that key, or a new one when there was none; an empty key removes that connection; without one nothing changes; only a picked provider that has none left gets one more |
| `PluginWebPatch.EmptyKeyLeavesNoSelection` | internal/config/web_tools.go:169-171 | a connection that an empty key removes is selected for nothing any more, but for what the patch selects itself |
| `PluginWebPatch.PatchWebLeavesForeign` | internal/config/web_tools.go:155-204 | a connection of no provider that the patch has a key for stays as it is, and is selected for what it was, but for what the patch selects itself |
| `PluginOperations.PatchWebAcceptedExactly` | internal/config/web_tools.go:135-154 | a patch is accepted if and only if it names known providers and does not ask for search and fetch from different ones |
| `PluginConnectionsProofs.MigratedKeeps` | internal/config/plugin_connections.go:139-164 | every read leaves a configuration with sound bindings in which the web plugin binds only "active" |
| `PluginConnectionsProofs.MigratedOnce` | internal/config/plugin_connections.go:139-164 | reading again changes nothing, whatever the old settings file says by then |
| `PluginConnectionsProofs.WebMigratedKeeps` | internal/config/web_tools.go:243-295 | moving the old web settings in loses none of their keys and touches no connection that was there |
| `PluginOperations.OldSettingsAreSelected` | internal/config/web_tools.go:259-287 | when the old web settings are moved in, a purpose that selected something keeps it, one that did not selects a connection of the provider that was to serve it, with its key, and no other selection changes |
| `PluginOperations.OneSelectionIsMade` | internal/config/web_tools.go:353-382 | reducing selections to one keeps the active one, and without one makes active what search and fetch agree on or only one of them selects |
| `PluginConnectionsProofs.SingleActiveKeeps` | internal/config/web_tools.go:353-382 | reducing per-purpose selections to one keeps every binding sound and every connection |
| `PluginConnectionsProofs.ConflictSetAside` | internal/config/web_tools.go:351-378 | under whichever id they were saved, conflicting selections are kept for review and none is picked; otherwise nothing is set aside, and the active connection is one that was selected, if one was |
| `PluginConnectionsProofs.AliasCountsExactly` | internal/config/web_tools.go:353-382 | what is saved under the plugin's old id makes a difference if and only if the old settings were moved in before, nothing stands under the plugin's id, and there is a selection or a new conflict; it is then what the result has |
| `PluginConnectionsProofs.AliasSelectionLost` | internal/config/web_tools.go:259-287 | a selection under the old id that is lost to the first migration, and to the empty entry it leaves |
| `PluginIdentity.CurrentIsIdempotent` | internal/store/plugin_identity.go:9-26 | what an id is projected to is projected to itself |
| `PluginManager.Manager.PutPluginConnection` | internal/config/plugin_connections.go:76-121 | a put stores what the operation says about the migrated configuration or refuses for the reason it says, and does one of the two whenever nothing goes wrong on the disk; every disk state on the way decodes to sound bindings |
| `PluginManager.Manager.DeletePluginConnection` | internal/config/plugin_connections.go:123-137 | the same for a delete |
| `PluginManager.Manager.PatchPluginConnectionBindings` | internal/config/plugin_connections.go:321-366 | the same for a binding patch |
| `PluginManager.Manager.PatchWebTools` | internal/config/web_tools.go:128-209 | the same for a web patch, whose keys are each walked once |
| `PluginManager.Manager.Load` | internal/config/plugin_connections.go:139-164 | a read stamps, moves the web settings in and reduces the selections, with every disk state on the way sound |
| `PluginManager.Manager.MigrateWebConnections` | internal/config/web_tools.go:243-295 | the credentials, the selections and the marker are stored together, and the old file goes only after that |
| `PluginManager.Manager.MigrateWebSingleActive` | internal/config/web_tools.go:353-382 | the reduced selections are stored together with their marker |
| `PluginManager.NormalizeWebBindingUpdate` | internal/config/web_tools.go:384-396 | whatever order an update is walked in, it is accepted exactly when its purposes are known and agree |
| `PluginManager.FindWebConnection` | internal/config/web_tools.go:64-83 | the active connection if it is the provider's, else the provider's first by id |
| `PluginManager.AddWebConnection` | internal/config/web_tools.go:85-92 | the new connection has the first unused numbered id |
| `PluginManager.ClearBindings` | internal/config/plugin_connections.go:297-305 | every selection of the connection goes and every other stays |
| `PluginManager.FindBound` | internal/config/plugin_connections.go:94-102 | found exactly when some purpose of some plugin selects the connection |
| `PluginManager.Rebind` | internal/config/plugin_connections.go:340-356 | an update is applied as a whole when every connection it names is the plugin's, and not at all otherwise |
| `FreshIds.NextPluginOAuthConnectionID` | internal/api/plugin_oauth.go:642-659 | the unbounded search ends after at most one more name than there are connections, with the first unused one |
| `FreshIds.FirstUnused` | internal/config/web_tools.go:85-89 | the same for any set of ids in use |
| `Decimals.DecimalIsInjective` | internal/api/plugin_oauth.go:653-654 | different numbers make different names, which is why the search ends |
| `FreshIds.TriedWithin` | internal/api/plugin_oauth.go:653-658 | a run of used names is no longer than the number of names in use |
| `SkillReferences.MessagesWithSkillReferences` | internal/contextbuilder/skill_references.go:160-229 | the scan for latest references and calls, and the pass over hidden messages, build the projection the lemmas are about |
| `SkillReferences.ResolveSkillReferences` | internal/contextbuilder/skill_references.go:32-154 | the two passes rewrite every message as the resolution of its references by their last position |
| `SkillReferencesProofs.LastReferenceSurvives` | internal/contextbuilder/skill_references.go:156-229 | after a compaction, also one inside a running turn, the last reference of a global or loaded-plugin skill is the one that was last in the whole history: in place when it is still visible, otherwise in a message with its call just before it |
| `SkillReferencesProofs.OnlyLastIsCarried` | internal/contextbuilder/skill_references.go:197-228 | nothing else is carried: every carried message is hidden, has its call, and is there for the last reference of a skill in the whole history, of no plugin or of one that is loaded |
| `SkillReferencesProofs.ProjectionShape` | internal/contextbuilder/skill_references.go:197-228 | the projection is the summary, then what is carried on, then the rest of the effective history unchanged; nothing visible is carried; and the early return agrees with it |
| `SkillReferencesProofs.ScanFindsLast` | internal/contextbuilder/skill_references.go:172-192 | the map of latest references has exactly the eligible keys that occur, each with its last occurrence |
| `SkillReferencesProofs.ResolvesLast` | internal/contextbuilder/skill_references.go:72-152 | resolution keeps every message and every part that is no reference, and marks a reference superseded exactly when one of its key comes after it |
| `SkillReferencesProofs.SupersededExactly` | internal/contextbuilder/skill_references.go:63-68 | a reference is superseded if and only if a later one is to the same thing: any skill of the same plugin, or the same other skill |
| `SkillReferencesProofs.ResolvedReadsBack` | internal/contextbuilder/skill_references.go:57-136 | a superseded reference reads back without a body and keeps its outcome; the last of its key reads back the status and the body its source gave, and fails exactly when that is unavailable; unless it failed it is still a reference of its key |
| `SkillReferencesProofs.LeftCurrentIsFilledIn` | internal/contextbuilder/skill_references.go:57-136 | the one reference of a key left current has what its source gave |
| `SkillReferencesProofs.ExactlyOneCurrent` | internal/contextbuilder/skill_references.go:87-91 | every key that is referred to has exactly one reference that is not superseded |
| `SkillReferencesProofs.CurrentIsHistorysLast` | internal/contextbuilder/skill_references.go:29-31 | projection and resolution together leave current exactly the reference that was last in the whole history |
| `ProviderModels.GroupModelsByFamily` | internal/api/provider_model_order.go:42-64 | the loop with its groups and indices computes the family order that the lemmas characterize |
| `ProviderModels.CleanModels` | internal/api/providers.go:225-238 | the first model of every non-empty trimmed id, then grouped |
| `ProviderModels.SyncBuzzHiveModels` | internal/api/providers.go:479-535 | the merge loops compute the merged list the lemmas are about |
| `ProviderModels.SyncOpenRouterModels` | internal/api/providers.go:449-477 | the same for the merge that adds no models |
| `ProviderModelsProofs.CleaningCleans` | internal/api/providers.go:225-238 | a cleaned list has every non-empty trimmed id exactly once, and cleaning again changes nothing |
| `ProviderModelsProofs.FamiliesTogether` | internal/api/provider_model_order.go:39-64 | no other arrangement keeps each family together, in order of first appearance and each in its own order |
| `ProviderModelsProofs.FamilyIsTogether` | internal/api/provider_model_order.go:39-41 | between two models of one family there are only models of that family |
| `ProviderModelsProofs.MergeHasEveryIdOnce` | internal/api/providers.go:479-535 | a merge has every non-empty id of either list exactly once |
| `ProviderModelsProofs.MergeMarksMissing` | internal/api/providers.go:490-500 | a merged model is marked unavailable exactly when the catalogue lacks it |
| `ProviderModelsProofs.MergedFrom` | internal/api/providers.go:490-532 | every merged model is a saved one brought up to date or one made for a candidate nobody had saved |
| `ProviderModelFields.MergedModelHas` | internal/api/providers.go:479-560 | field by field: a merged model is the first saved one of its id with what the last candidate of the id reports, its own name, options and tool loops kept; or marked as gone and otherwise unchanged; or the first candidate of an id nobody had saved |
| `ProviderModelFields.OpenRouterModelHas` | internal/api/providers.go:449-477 | the same where the limits stay and the context window changes only when it is stated |
| `ProviderModelsProofs.MergeTwice` | internal/api/providers.go:479-535 | repeating a merge with the same catalogue changes nothing if and only if the first and the last candidate of every id it adds agree |
| `ProviderModelsProofs.DistinctCandidatesAgree` | internal/api/providers.go:480-486 | a catalogue without repeated ids always agrees with itself |
| `ProviderModelsProofs.RepeatedCandidateCanChange` | internal/api/providers.go:480-519 | a catalogue with a repeated id for which a second merge changes what the first stored |
| `ProviderModelsProofs.OpenRouterTwice` | internal/api/providers.go:449-477 | the merge that adds no models can be repeated with any catalogue, and keeps exactly the saved ids |
| `ProjectInstructions.ReadProjectInstruction` | internal/contextbuilder/project_instructions.go:65-89 | what is read is the longest text within the limit, refused when it has a NUL, and marked when the file or its stated size exceeds the limit |
| `ProjectInstructions.TextIsCutClosely` | internal/contextbuilder/project_instructions.go:78-84 | of a file that is text, at most three bytes below the limit are dropped and no longer text fits |
| `ProjectInstructions.MarkTellsTruth` | internal/contextbuilder/project_instructions.go:65-89 | whatever the stated size, the mark of a reading says whether something of the file is missing if and only if the file exceeds the limit, or was said to exactly when it is no text; nothing is read if and only if the text within the limit has a NUL |
| `ProjectInstructions.EndDroppedUnmarked` | internal/contextbuilder/project_instructions.go:78-84 | a file of two bytes that loses the second without a mark |
| `ProjectInstructions.LoadProjectRootInstructions` | internal/contextbuilder/project_instructions.go:27-63 | the loop over the roots computes the instructions the lemmas are about |
| `ProjectInstructions.BudgetsHold` | internal/contextbuilder/project_instructions.go:27-63 | whatever the roots hold, at most 64 instructions, each at most 64 KiB of text without NUL that is not blank, at most 256 KiB together |
| `ProjectInstructions.InstructionsAreRead` | internal/contextbuilder/project_instructions.go:44-62 | every instruction is what was read of the file of one of the given roots, marked as it was read |
| `ProjectInstructions.PlacesAreDistinct` | internal/contextbuilder/project_instructions.go:39-43 | no resolved root is read twice under different names |
| `ProjectInstructions.WholeFileIsLoaded` | internal/contextbuilder/project_instructions.go:44-60 | a root with a fitting text file is loaded whole unless its place was seen or a budget was used up before |
| `Utf8.ValidIffEncoded` | internal/contextbuilder/project_instructions.go:82-84 | the byte grammar of section 4 of RFC 3629 accepts exactly the encodings of sequences of code points |
| `Utf8.BoundaryBelow` | internal/contextbuilder/project_instructions.go:79-84 | a cut through a text is at most three bytes past the end of a character |
| `PluginEnablement.ReadSettings` | internal/config/config.go:605-659 | the sorted moves and the split give the migrated settings, and the file is rewritten exactly when they differ |
| `PluginEnablement.MovedOneWay` | internal/config/config.go:613-639 | the moved switches are determined by the saved ones alone, whatever order the map was walked in |
| `PluginEnablement.MigratedOnce` | internal/config/config.go:605-659 | reading what a read stored changes nothing |
| `PluginEnablement.ExplicitSwitchesWin` | internal/config/config.go:613-652 | only current ids are left, and an explicit switch keeps its value through the moves and the split |
| `PluginEnablement.SplitInherits` | internal/config/config.go:640-653 | where it was not done yet, the split gives page and sheet authoring the value of the content switch when they have none of their own, and changes no other switch |
| `PluginEnablement.SubagentWins` | internal/config/config.go:617-627 | "subagent" decides for its plugin rather than any other spelling |
| `PluginEnablement.ArtifactsWins` | internal/config/config.go:614-616 | among trimmed spellings "artifacts" decides rather than "studio" |
| `ModelImage.ScreenshotFits` | internal/attachment/model_image.go:114-123 | a reduced screenshot is not enlarged, has no side above 1536 and no area above 1,200,000, also when a side is raised to one |
| `ModelImage.ScreenshotIsLargest` | internal/attachment/model_image.go:114-123 | no other reduction in proportion that meets the limits leaves a larger picture |
| `ModelImage.ScreenshotKeepsShape` | internal/attachment/model_image.go:114-123 | as long as no side had to be raised to one, the sides stay in proportion to within one pixel |
| `ModelImage.ScreenshotUnchanged` | internal/attachment/model_image.go:116-123 | a screenshot keeps its size exactly when it is within the limits |
| `ModelImage.ScreenshotOnce` | internal/attachment/model_image.go:116-123 | reducing a reduced screenshot changes nothing |
| `ModelImage.ModelImageFits` | internal/attachment/model_image.go:125-133 | a model image fits in 2048 by 2048, is never enlarged, keeps its size exactly when it fits, and is reduced once |
| `ModelImage.ModelImageKeepsShape` | internal/attachment/model_image.go:125-133 | a model image that is too large has its longer side reduced to exactly 2048 and the other in proportion, to the nearest pixel |
| `ModelImage.AxisInBounds` | internal/attachment/model_image.go:159-169 | both samples exist and are neighbours, the weight is in [0,1), and together they are the position's coordinate kept inside the source |
| `ModelImage.AxisIsMonotone` | internal/attachment/model_image.go:159-169 | later positions never fall on earlier places |
| `ModelImage.ChannelBetween` | internal/attachment/model_image.go:171-175 | an output channel lies between its four samples |
| `ModelImage.ResizeModelImage` | internal/attachment/model_image.go:135-157 | every pixel of the result is the interpolation of samples inside the source, wherever the source's corner is |
| `ModelImage.SameSizeIsIdentity` | internal/attachment/model_image.go:135-157 | resizing to the same size gives the same pixels |
| `ModelImage.PlanesAreReproduced` | internal/attachment/model_image.go:135-175 | resizing reproduces an image that is linear in x and y: every pixel has, in every channel, the value at its centre, rounded |
| `ComputerActions.NormalizeActions` | internal/computer/manager.go:252-265 | all of a batch is made canonical, or none of it |
| `ComputerActions.CheckModifiers` | internal/computer/manager.go:589-595 | accepted exactly when the modifiers are known and none is repeated |
| `ComputerActions.BatchNormalizedTwice` | internal/computer/manager.go:252-372 | a normalized batch is normalized into itself, and everything its dispatch reads is there |
| `ComputerActions.Act` | internal/computer/manager.go:205-250 | the service is asked for the normalized actions in order, up to the first one before which the call was cancelled or that was not answered as asked; that one is reported, nothing is asked after it, and the answers before it are handed on; a refused batch asks nothing |
| `ComputerActions.BatchAsksForWhatWasGiven` | internal/computer/manager.go:252-372 | a batch is accepted if and only if it has 1 to 32 actions, each with what its kind needs and nothing else; each call then asks for what was given as it was given, and for the defaults only where nothing was |
| `ComputerActions.AnsweredExactly` | internal/computer/manager.go:374-409 | an answer counts as success if and only if it repeats its call |
| `ComputerLaunches.Manager.UseApp` | internal/computer/manager.go:60-109 | an answer is accepted exactly when it is for the application asked for and complete, its windows included; exactly the applications newly launched by an accepted answer are recorded, for their own session; a launch id is given back exactly for a new launch or one the session has a record of |
| `ComputerLaunches.Manager.QuitApp` | internal/computer/manager.go:111-141 | only an application the same session launched is asked to quit; it succeeds exactly when the service answers for that application, and the record goes exactly when it is closed |
| `ComputerLaunches.Manager.ReleaseSession` | internal/computer/manager.go:411-430 | everything recorded for the session is asked to quit, each once, and its records go, and no other session is touched |
| `ComputerLaunches.Manager.FindLaunch` | internal/computer/manager.go:458-467 | a record of the session for the application, if there is one |

## Left out

- ProviderModels.SyncBuzzHiveModels: the model family of a name is a function parameter, so the keyword table is not modelled.
- SkillReferences.ResolveSkillReferences: what the plugin and skill sources answer about a current reference, and errors that abort the whole resolution, are one function parameter.
- SkillReferencesProofs.LastReferenceSurvives: key texts are pairs of kind and id rather than joined strings, and that reducing a result or filling it in keeps its key, and that what was filled in can be read off, is assumed.
- ComputerActions.BatchNormalizedTwice: that lower-casing twice is lower-casing once is assumed of the function given.
- ComputerActions.Act: coordinates are reals, so not-a-number is left out, and waiting for the write slot is not a step.
- ModelImage.ScreenshotFits: the square root is a real number given exactly; rounding of floating-point numbers is not modelled.
- ConfigStore.CrashImage: a flush that reported success is taken to have reached the medium; on systems whose directories cannot be flushed, the order of a rename is not modelled.
- ConfigStore.Store.Write: the cipher is a record that is sealed or damaged, and encoding secrets to bytes and back is a pair of functions assumed faithful; which steps fail and which names are drawn is an arbitrary function.
- ConfigStore.Store.Read: a file that is no YAML at all, and YAML nodes shared between entries, are left out.
- ProviderProfiles.ProfileManager.PutProviderProfile: the very first file, written at startup where there is none, is left out.
- PluginManager.Manager.Load: one clock value stands for all times taken during an operation; connection fields no operation looks at are one opaque value.
- LifecycleLock.StepKeeps: each release closure is called once; fairness, and so that a waiter is eventually served, is not modelled.
- RequestLimiter.Limiter.Acquire: the mutex makes each call one step, and the clock is monotone.
- EventHandler.Serve: pings and the moment the request is cancelled are steps of the state machine only; read errors that break the stream off are a disconnect; the page snapshots of a new subscription are arbitrary transient events within the buffer.
- ProjectInstructions.LoadProjectRootInstructions: which texts are blank is a function parameter that takes bytes.
- PluginEnablement.ReadSettings: settings other than the plugin switches and the split marker are left out.
- HTTP decoding, routing, status codes, token checks, OAuth exchanges, bridges, capture and audio: plumbing without a deeper invariant.
- Handlers whose guarantees live in the SQLite store, the browser tab gate, remote subscribers, source lists and version comparison: easy or settled elsewhere.
- Sessions.Enabled: a session's steps are those of its store calls; answers that steering moves behind a tool result, forks, and the reset of a subsession's context are left out, and what the metadata of a summary lists is a map beside the messages.
- RequestPath.RequestHasHistorysLast: between cooling and resolution messages become provider messages; what a mode or the tools drop there is left out.
