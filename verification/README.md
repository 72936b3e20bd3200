# The Mostro client's stateful core, in Dafny

The Rust core of the Mostro client keeps state that has to survive relay
replays, concurrent tasks, failing storage and restarts. This project models
that state, component by component, and proves what the code promises about it
over every input, every run and every interleaving. `dafny verify
dfyconfig.toml` checks all of it.

Code that updates fields in place is a class whose methods are proved against
functions on plain values. What the component promises is then proved about
those functions: as lemmas that read the outcome of one operation off its fields,
or over runs of a state machine whose steps are the points at which tasks can
interleave; lemmas on uninterrupted handlers tie the two together.

| files | component |
|---|---|
| `Messages`, `StoreEffects`, `ChatReceive`, `ChatRuns`, `ChatHandlers` | the write-through message cache, the receive path of both chats of a trade, and the interleavings of its tasks with claims, stops, sends, reads and restarts |
| `ChatRepeats`, `ChatCaps`, `ChatCursors`, `ChatStops`, `ChatScripts`, `ChatWitnesses` | when an id is added again, what the retention caps bound, where a subscription starts, what a stopped task still does, and runs showing which conditions are needed |
| `Notifications`, `NotificationStream` | the unread backlog and the replaying stream behind the notification cards |
| `ChatOwnership`, `IdSet`, `RateLimit` | which task owns a chat, the outer-id filter, the token bucket |
| `Disputes`, `DisputeHandlers`, `DisputeRaces`, `DisputeSteps`, `DisputeMarkers`, `DisputeRestart` | the dispute store, what each handler leaves, its races (one write-lock section, storage read or storage write at a time), whose dispute a stored origin marker tells of, and recovery |
| `TradeKeys` | the trade-key counter in memory, in its row and in the mirror |
| `PushReconcile`, `PushProgress`, `Resync`, `ResyncProgress` | two single-flight protocols over any number of tasks |
| `Escrow` | the escrow condition builder and checker, with the spending rule of NUT-11 (Pay-to-Public-Key) |
| `Revisions`, `NodeStats`, `RelayLists`, `OrderCounts` | replaceable events (section "Kinds" of NIP-01), cached node settings, relay lists, open-order counts |
| `LogRings`, `Scrub`, `LogBridge`, `StepStart` | log retention, secret masking, the logger that masks before it retains, the invoice step record |
| `Prelude`, `Text`, `Types` | shared vocabulary |

## What turned out differently from the comments

Each of these is proved: a concrete run shows the failure, and a lemma says when
the promise does hold.

- A coalesced resync may report a pass that had started *before* the call was
  made (`Resync.CoalescingOntoAnEarlierStart`), against the comment in
  `rust/src/api/nostr.rs`. It had started later exactly when no pass was under
  way at the call or a second one completed while the call waited
  (`Resync.CoalescedPassStartedLater`).
- An accepted trade-key floor need not be durable, against the doc comment of
  `ensure_trade_key_index_at_least`: a derivation whose save failed leaves the
  counter ahead of its row, and the resync is then a no-op
  (`TradeKeys.AcceptedFloorLostAcrossRestart`). `TradeKeys.AcceptedFloorIsDurableWhen`
  says exactly when it is.
- A stored origin marker may belong to an earlier dispute of its trade, and the
  peer's next dispute then comes back from a restart as ours. The marker does so
  exactly when it survived the daemon's verdict of its dispute in one of three
  ways: it was written after the verdict, the verdict found no live record and was
  refused, so that nothing was deleted, or no deletion has succeeded since
  (`DisputeMarkers.MarkerIsStaleExactlyWhen`). A live record is ours by mistake
  exactly when a verdict of the dispute it was claimed for has been handled; it
  was then restored from such a marker
  (`DisputeMarkers.OursIsMistakenExactlyWhen`). Runs show a late write, a refused
  verdict, and a late acceptance of a resolved dispute, which changes no record
  but still writes the marker (`DisputeMarkers.LateWriteTurnsPeerDisputeIntoOurs`,
  `DisputeMarkers.RefusedVerdictTurnsPeerDisputeIntoOurs`,
  `DisputeRestart.StaleMarkerTurnsPeerDisputeIntoOurs`). All of them need a trade
  row that does not show the verdict; that row is written by another part of the
  program, and a finished row sweeps the marker.
- A replayed assignment that arrives before the recovery pass makes a dispute of
  ours come back as the peer's. Whatever assignments and late acceptances precede
  the pass, a dispute comes back as ours exactly when an acceptance was among them,
  or its marker was stored and no assignment of its trade came first
  (`DisputeRestart.ComesBackAsOursExactlyWhen`).
- One inner id can be added more than once. Of any two additions, the later was
  looked up, by another task, when the id was neither in its trade's list nor on
  disk (`ChatRepeats.RepeatsComeFromDifferentTasks`). Either the handlers
  overlapped, of two chats, or of one chat where one of the tasks had been stopped;
  or the id went to another trade before it was durable. All three happen
  (`ChatWitnesses.OverlappingChatsAddTwice`, `ChatWitnesses.ReplacedTaskAddsAgain`,
  `ChatWitnesses.TwoTradesAddTwice`).
- The caps bound the cached list: a receipt stays within them unless another message
  joined the list since its quota check (`ChatRuns.CapsHoldExactlyWhen`), as a send
  can (`ChatWitnesses.SendDuringReceiveOvershoots`). They bound what is stored as
  well, provided the hydrating read missed no row
  (`ChatCaps.StoredStaysWithinCaps`). A failed read counts as hydration, and one
  undisturbed receive then exceeds the cap (`ChatWitnesses.FailedHistoryOvershoots`).
- A persisted cursor can fall, but only where a task saves its own that could not
  read the persisted one, or that another task of the chat has overtaken since
  (`ChatCursors.SavedCursorFallsOnlyBy`). Both happen
  (`ChatWitnesses.UnreadCursorFallsBack`,
  `ChatWitnesses.ReplacedTaskTakesCursorBack`); the second takes a task that was
  stopped and replaced before it ended (`ChatCursors.WithoutStopsTasksAreAlone`).
- Ownership keys tell chats apart exactly when no two orders differ by the
  prefix `dispute-` alone (`ChatOwnership.KeysCollideOnlyOnThePrefix`).
- A request for a push reconcile made outside an async runtime is lost until the
  next one (`PushReconcile.WithoutRuntimeARequestIsLost`), as its comment says.
- Scrubbing twice is not the same as scrubbing once: a text with a marker grows
  with every pass (`Scrub.SecondPassIsStableOnlyWithoutMarkers`).

## Model

| member | source | states |
|---|---|---|
| Messages.MessageStore.EnsureHydrated | rust/src/api/messages.rs:88-107 | the first touch of a trade appends the stored messages memory lacks; a failed read still counts as hydration |
| Messages.MessageStore.AddMessage | rust/src/api/messages.rs:118-153 | the message joins memory whatever the write does; the answer, the table and the not-durable mark follow the write |
| Messages.MessageStore.IsKnownId | rust/src/api/messages.rs:161-177 | memory answers first, then the table; a failed lookup is an error, never "unknown" |
| Messages.MessageStore.EnsureDurableId | rust/src/api/messages.rs:183-206 | a marked id is durable only after its cached copy was written again |
| Messages.MessageStore.IsQuotaExceeded | rust/src/api/messages.rs:212-225 | the count cap and the byte cap, over the hydrated trade |
| Messages.MessageStore.MarkTradeAsRead | rust/src/api/messages.rs:269-285 | every cached message of the trade and, if the write succeeds, every row of it becomes read |
| Messages.HydrateKeepsInv | rust/src/api/messages.rs:88-107 | hydration keeps every cached id, every row and the durability invariant, and touches one trade |
| Messages.AddKeepsInv | rust/src/api/messages.rs:118-153 | adding keeps the invariant; an answer of true with a database means the message is on disk |
| Messages.EnsureDurableKeepsInv | rust/src/api/messages.rs:183-206 | retrying keeps the invariant; true for a cached or stored id means it is on disk |
| Messages.MarkAsReadKeepsInv | rust/src/api/messages.rs:269-285 | reading keeps the invariant; past the hydration it changes neither ids, counts, bytes, rows nor marks |
| StoreEffects.FirstTouchBringsMissing | rust/src/api/messages.rs:88-107 | the first touch keeps what is cached and appends, in the order of the listing, the rows the cache lacks; a failed listing brings nothing |
| StoreEffects.KnownExactly | rust/src/api/messages.rs:161-177 | an id is known if and only if a copy is cached or the table holds it, and the answer is an error if and only if only an unreadable table could tell |
| StoreEffects.AddedExactly | rust/src/api/messages.rs:118-153 | the message becomes the newest of its list; its row is written and its mark set or cleared by whether the write worked, and nothing else moves |
| StoreEffects.DurableExactly | rust/src/api/messages.rs:183-206 | a marked id becomes durable if and only if there is a table, a cached copy and a working write; the first copy is then the row, and the mark is gone |
| StoreEffects.TradeIsRead | rust/src/api/messages.rs:269-285 | every cached message of the trade, and where the write works every row of it, is read afterwards and otherwise as before; no other trade changes |
| ChatReceive.ChatRxState.HandleChatEvent | rust/src/api/messages.rs:1530-1639 | which check an event fails, in the order of the checks, and what it may change: nothing before its envelope is valid, the delivery of a valid one afterwards |
| ChatReceive.ChatRxState.DeliverInner | rust/src/api/messages.rs:1576-1638 | deduplicate, check the quota, store; the cursor moves only past durable messages |
| ChatReceive.ChatRxState.BudgetOk | rust/src/api/messages.rs:1390-1405 | catch-up is free; a live event is accepted exactly when the bucket admits it |
| ChatReceive.ChatRxState.AdvanceCursor | rust/src/api/messages.rs:1406-1417 | the cursor becomes the event's time cut at the clock, and never goes back |
| ChatRuns.RunIsReliable | rust/src/api/messages.rs:88-225 | the inductive invariant of every interleaving of chat tasks, also of stopped ones with their replacements, with sends, reads and restarts |
| ChatHandlers.HandlerIsItsSteps | rust/src/api/messages.rs:1530-1639 | an uninterrupted handler is its store operations in a row |
| ChatRuns.CacheIsDurableOrMarked | rust/src/api/messages.rs:118-153 | with a database, every cached message is on disk or marked as not durable, in every reachable state |
| ChatRuns.CursorFollowsDurableEvents | rust/src/api/messages.rs:1406-1417 | every value a cursor moved to is the time, cut at the clock, of an event whose message is on disk, and is above the value before it |
| ChatRepeats.RepeatsComeFromDifferentTasks | rust/src/api/messages.rs:161-177 | of any two receipts of one id in any run, the later was looked up, by another task, when the id was neither in its trade's list nor on disk; without overlap the trades differ, and of two overlapping tasks of one chat one had lost it when it committed |
| ChatHandlers.HandlerAddsExactlyWhen | rust/src/api/messages.rs:1553-1638 | an uninterrupted handler adds its message if and only if the id is on record neither in the trade's list nor on disk, the table could be read, and the hydrated trade has room |
| ChatHandlers.VerdictExactly | rust/src/api/messages.rs:1553-1638 | which verdict comes of the record, the lookup and the room (a thousand messages, five mebibytes), what each leaves in the store, and every field of the message that is added |
| ChatHandlers.CursorMovesExactly | rust/src/api/messages.rs:1406-1417 | behind a durable message the cursor moves to the earlier of event and clock where that is later, and otherwise nowhere |
| ChatRuns.CapsHoldExactlyWhen | rust/src/api/messages.rs:208-225 | a receipt that no other message joined since its quota check leaves its trade's list within both caps; in general, as much as the list it joined had room |
| ChatCaps.StoredIsCached | rust/src/api/messages.rs:88-107 | of a trade whose hydration missed no row, no more messages and bytes are stored than cached, in every interleaving |
| ChatCaps.StoredStaysWithinCaps | rust/src/api/messages.rs:208-225 | a store that ends within both caps leaves the stored rows of such a trade within both caps |
| ChatCursors.SavedCursorIsDurable | rust/src/api/messages.rs:1406-1417 | a subscription starts from the time, cut at the clock, of an event of its chat whose message is on disk |
| ChatCursors.SavedCursorFallsOnlyBy | rust/src/api/messages.rs:1406-1417 | in every interleaving a persisted cursor falls only where a task saves its own that could not read it or was overtaken by another task of the chat |
| ChatCursors.SavedCursorNeverFalls | rust/src/api/messages.rs:1226-1250 | while every subscription can read its cursor and no chat has two tasks, no persisted cursor falls |
| ChatCursors.WithoutStopsTasksAreAlone | rust/src/api/messages.rs:1096-1119 | where nothing was stopped, every task owns its chat and no chat has two |
| ChatStops.StoppedTaskAddsAtMostOne | rust/src/api/messages.rs:1479-1500 | once its chat was taken, a task adds at most the message of the event in hand, and none when it has none, however the process goes on |
| ChatStops.RefusedEventChangesNothing | rust/src/api/messages.rs:1530-1575 | an event refused before the lookup takes the task back to its next look and changes nothing else |
| ChatWitnesses.OverlappingChatsAddTwice | rust/src/api/messages.rs:1553-1638 | a run in which two overlapping handlers, each owning its chat, add one id twice |
| ChatWitnesses.ReplacedTaskAddsAgain | rust/src/api/messages.rs:1093-1100 | a run in which a stopped task and its replacement add one id twice, through one chat |
| ChatWitnesses.ReplacedTaskTakesCursorBack | rust/src/api/messages.rs:1406-1417 | a run in which a stopped task saves a smaller cursor over its replacement's, every cursor having been readable |
| ChatWitnesses.SendDuringReceiveOvershoots | rust/src/api/messages.rs:1584-1638 | a run in which a send during a receive takes the trade past the cap |
| ChatWitnesses.TwoTradesAddTwice | rust/src/api/messages.rs:161-177 | a run without a database in which one id is added to two trades, one after the other |
| ChatWitnesses.FailedHistoryOvershoots | rust/src/api/messages.rs:88-107 | a run in which the history cannot be read and one undisturbed receive takes the stored trade past the cap |
| ChatWitnesses.UnreadCursorFallsBack | rust/src/api/messages.rs:1226-1250 | a run in which an unreadable cursor takes the persisted one back |
| IdSet.BoundedIdSet.Insert | rust/src/api/messages.rs:1165-1195 | an id is refused exactly when it is among the last ids accepted, as many as the set holds |
| RateLimit.LevelIsLeastHeadroom | rust/src/api/messages.rs:1197-1223 | the level before a take is the least, over all earlier starting points, of 60 plus half the elapsed time minus the tokens taken since |
| RateLimit.AdmitsExactlyWhatFits | rust/src/api/messages.rs:1197-1223 | an arrival is admitted exactly when every window that ends with it stays within its bound |
| RateLimit.WindowBound | rust/src/api/messages.rs:1006-1009 | any window of T seconds admits at most 60 + 0.5 T events |
| RateLimit.CompliantSenderIsNeverRefused | rust/src/api/messages.rs:1006-1009 | arrivals within that bound in every window are never refused |
| RateLimit.LevelStaysInBounds | rust/src/api/messages.rs:1197-1223 | however the clock jumps, the level stays between 0 and 60, and a clock that goes back adds nothing |
| RateLimit.TokenBucket.TryTake | rust/src/api/messages.rs:1212-1222 | one call admits exactly what the recurrence over all arrivals admits |
| ChatOwnership.CurrentExactlyWhenHeld | rust/src/api/messages.rs:1110-1163 | a generation is current exactly when it was granted and neither a stop nor its own release came since |
| ChatOwnership.GenerationsAreNeverReused | rust/src/api/messages.rs:1096-1119 | two grants never share a generation |
| ChatOwnership.EndedStaysEnded | rust/src/api/messages.rs:1122-1163 | once ended, a generation is never current again, so a stopped task cannot release its replacement |
| ChatOwnership.CurrentTaskClaimedThisChat | rust/src/api/messages.rs:1054-1068 | among orders whose keys do not collide, the current task of a chat claimed that very chat and nothing of that chat ended it since |
| ChatOwnership.KeysCollideOnlyOnThePrefix | rust/src/api/messages.rs:1054-1068 | keys tell chats apart if and only if no order is another one prefixed with `dispute-` |
| ChatOwnership.CollidingIdsStopAnotherTrade | rust/src/api/messages.rs:1144-1163 | a run in which a colliding id stops another trade's chat |
| ChatOwnership.ActiveChats.ClaimChat | rust/src/api/messages.rs:1110-1119 | grants a fresh generation exactly when no task holds the chat |
| ChatOwnership.ActiveChats.ReleaseChat | rust/src/api/messages.rs:1128-1139 | returns true exactly to the current generation, and ends it |
| ChatOwnership.ActiveChats.StopChatSubscriptions | rust/src/api/messages.rs:1144-1163 | ends both chats of the order and names those that were running |
| Notifications.NotificationBacklog | rust/src/api/messages.rs:235-252 | exactly the unread incoming messages of memory and of the table that are not the system's, memory winning, oldest first and within one second by id, each id once |
| NotificationStream.CandidateNow | rust/src/api/messages.rs:256-267 | what comes back is incoming, unread and not the system's, has the id asked for, and is the message itself or a cached copy |
| NotificationStream.CandidateNowExactly | rust/src/api/messages.rs:256-267 | with no copy cached the message comes back, and with a first copy that copy does, each if and only if it is incoming, unread and not the system's |
| NotificationStream.IdleTurnExactly | rust/src/api/messages.rs:863-894 | a stream with nothing queued hands on a live message that is unread, ends if and only if the channel closed, and sets when it replays next |
| NotificationStream.ReplayDeliversTheBacklog | rust/src/api/messages.rs:855-877 | a replay delivers, in the order of its backlog, each message still unread at its turn and nothing else |
| NotificationStream.ReplayMissesNothing | rust/src/api/messages.rs:855-877 | whatever is in the backlog, and at each turn until its own is unread with no other copy cached before it, is delivered by that replay |
| NotificationStream.NothingReadIsDelivered | rust/src/api/messages.rs:256-267 | over any run, what is delivered is unread at its turn and is the first cached copy where there is one |
| NotificationStream.LagIsRecovered | rust/src/api/messages.rs:885-890 | after a lag the very next turn replays, so unread messages the lag swallowed are delivered |
| NotificationStream.ReplayIsNeverFarOff | rust/src/api/messages.rs:863-875 | however the turns go, the next replay is due within 60 seconds of the latest clock reading |
| NotificationStream.UnreadIsDeliveredInTheEnd | rust/src/api/messages.rs:855-894 | after any past, an idle stream past the interval delivers every message that stays unread |
| NotificationStream.AnyMessageStream.NextFrom | rust/src/api/messages.rs:855-894 | one call runs the turns up to the first delivery or the end of the channel |
| Disputes.DisputeStore.BeginOpen | rust/src/api/disputes.rs:233-284 | when an attempt starts and with which error it is refused, over blank ids, live records, the trade's status and the attempt in flight, and the mark it leaves |
| Disputes.DisputeStore.EndOpen | rust/src/api/disputes.rs:284-381 | each reply's outcome; the mark is gone whichever way the attempt ends |
| Disputes.DisputeStore.InsertIfAbsentOrResolved | rust/src/api/disputes.rs:80-121 | insert, claim or refuse, in one lock section |
| Disputes.DisputeStore.RecordLateAcceptance | rust/src/api/disputes.rs:462-509 | an id-less late acceptance records nothing; any other makes a live record ours and writes the marker |
| Disputes.DisputeStore.HandleAdminTookDispute | rust/src/api/disputes.rs:522-676 | one call computes the assignment on which AssignmentTakesIntoReview and the runs are stated: a row that reads as finished loses its keys, a resolved record is an error, any other record and any row that cannot be read learn the solver, in review |
| Disputes.DisputeStore.ResolveDispute | rust/src/api/disputes.rs:986-1006 | resolves a record that is not resolved yet and clears both keys |
| Disputes.DisputeStore.RehydrateFromStorage | rust/src/api/disputes.rs:826-931 | folds the rows of the trades into the store, one at a time |
| DisputeHandlers.AssignmentTakesIntoReview | rust/src/api/disputes.rs:522-613 | unless the row reads as finished, which takes the keys, or the record is resolved, which is an error: the record is in review by the solver, a live one with its id, origin and reason, unread unless it was there with that solver, and the solver is stored where the write works |
| DisputeHandlers.VerdictResolves | rust/src/api/disputes.rs:976-1006 | a live record becomes resolved, unread and with the verdict and its time, and both keys go; without one the error says which is missing and nothing changes |
| DisputeHandlers.FailedAttemptLeavesNothing | rust/src/api/disputes.rs:233-381 | an attempt without an acceptance that names its dispute leaves only the dropped mark, and each reply has its own error |
| DisputeHandlers.AcceptedAttemptIsRecorded | rust/src/api/disputes.rs:80-121 | an acceptance opens a new record where none is live, claims the peer's one in review while the attempt is in flight, keeping what it had learned, and is refused by any other live record |
| DisputeHandlers.LateAcceptanceIsRecorded | rust/src/api/disputes.rs:462-509 | a late acceptance opens an unread record or claims the peer's one in review, leaves any other as it is, and writes the marker in each case |
| DisputeHandlers.RowIsRestored | rust/src/api/disputes.rs:826-931 | one row of a rehydration brings a record back if and only if none is in memory, the trade can still move and a solver is read |
| DisputeHandlers.FinishedIsWhatCannotMove | rust/src/api/disputes.rs:730-750 | a trade is finished in every state but the ten in which it can still move |
| DisputeHandlers.BlankExactly | rust/src/api/disputes.rs:234-236 | an id is blank if and only if each of its characters is Unicode white space |
| DisputeSteps.AcceptedAttemptIsItsSteps | rust/src/api/disputes.rs:284-381 | the accepted end of an attempt, uninterrupted, is its lock section and its marker write in a row |
| DisputeSteps.FailedAttemptIsItsStep | rust/src/api/disputes.rs:284-365 | any other end of an attempt is the one step that drops its mark |
| DisputeSteps.BeginIsTheMark | rust/src/api/disputes.rs:254-284 | an attempt starts with its mark alone, and a second one changes nothing |
| DisputeSteps.LateAcceptanceIsItsSteps | rust/src/api/disputes.rs:462-509 | the same for a late acceptance, which is of the dispute after the verdicts handled, or of the last one where its record still shows the verdict |
| DisputeSteps.AssignmentIsItsSteps | rust/src/api/disputes.rs:522-613 | an uninterrupted assignment is its row read, its lock section and its writes in a row, in each of its three outcomes |
| DisputeSteps.VerdictIsItsSteps | rust/src/api/disputes.rs:986-1006 | an uninterrupted verdict is its lock section and the two deletions in a row |
| DisputeSteps.RowIsItsSteps | rust/src/api/disputes.rs:826-931 | an uninterrupted rehydration of a row is its two reads and its restoration, or its two deletions, in every reachable state |
| DisputeSteps.RestartKeepsWhatIsStored | rust/src/api/disputes.rs:826-931 | a restart keeps the stored keys and the trade rows and nothing else of the store |
| DisputeRaces.RunKeepsInv | rust/src/api/disputes.rs:80-152 | the inductive invariant of every interleaving of lock sections, storage reads and storage writes |
| DisputeRaces.RecordsKeepTheirShape | rust/src/api/disputes.rs:194-199 | a live record that is not ours is in review by a known solver and without a reason; one of ours rests on an acceptance of the very dispute it shows, unless it was restored from a marker of an earlier one |
| DisputeRaces.BecomesOursOnlyBy | rust/src/api/disputes.rs:80-152 | a trade's record becomes ours only by an acceptance on that trade, on time or late, or by a restoration that had read a marker |
| DisputeRaces.AcceptedExactlyByAcceptances | rust/src/api/disputes.rs:233-381 | a dispute of a trade counts as accepted if and only if some step accepted it with an id, on time or late |
| DisputeRaces.OnTimeAcceptanceMakesItOurs | rust/src/api/disputes.rs:233-381 | in every interleaving, an acceptance leaves the live record ours, with the solver and the review it had learned |
| DisputeRaces.LateAcceptanceMakesItOurs | rust/src/api/disputes.rs:462-509 | the same for a late acceptance; a resolved record stays as it is |
| DisputeRaces.LateAssignmentTakesIntoReview | rust/src/api/disputes.rs:548-611 | however late the lock section of an assignment runs, a missing or live record is in review by the solver afterwards, whose key is then to be written, and all else stays |
| DisputeMarkers.MarkerIsItsLastWrite | rust/src/api/disputes.rs:677-720 | a marker is stored, for a given dispute, if and only if it was written for it and neither written nor deleted since |
| DisputeMarkers.SettledExactlyByVerdicts | rust/src/api/disputes.rs:986-1006 | a dispute counts as settled if and only if some step handled its verdict, accepted or not |
| DisputeMarkers.MarkerIsCurrentExactlyWhen | rust/src/api/disputes.rs:677-720 | a stored marker belongs to the current dispute if and only if no verdict of the dispute it was written for has been handled |
| DisputeMarkers.MarkerIsStaleExactlyWhen | rust/src/api/disputes.rs:677-720 | it is of an earlier dispute if and only if it was written after that dispute's verdict, or was stored then and either the verdict was refused for want of a live record or no deletion has succeeded since |
| DisputeMarkers.OursIsMistakenExactlyWhen | rust/src/api/disputes.rs:878-914 | a live record shows a dispute of the peer as ours if and only if a verdict of the dispute it was claimed for has been handled; it was then restored from a marker of that dispute that some step read |
| DisputeMarkers.LateWriteTurnsPeerDisputeIntoOurs | rust/src/api/disputes.rs:462-509 | a run in which a write outruns the deletion and the peer's next dispute comes back as ours |
| DisputeMarkers.RefusedVerdictTurnsPeerDisputeIntoOurs | rust/src/api/disputes.rs:986-1006 | a run in which the verdict after a restart finds no record, deletes nothing, and the peer's next dispute comes back as ours |
| DisputeRestart.RehydrateRestores | rust/src/api/disputes.rs:826-931 | for each trade: memory wins, a finished trade gets no record and loses both keys, any other comes back from its keys, in review by the stored solver and ours where the marker is stored |
| DisputeRestart.RehydrateNeverOverwrites | rust/src/api/disputes.rs:826-931 | no record in memory changes |
| DisputeRestart.RehydrateTwiceIsOnce | rust/src/api/disputes.rs:826-931 | a second pass, with fresh ids and a later clock, is the identity |
| DisputeRestart.RunKeepsPersisted | rust/src/api/disputes.rs:628-648 | along every run of handlers, crashes and recovery passes with succeeding writes, a dispute in review of an unfinished trade has its solver stored, and its marker when it is ours |
| DisputeRestart.ReviewSurvivesRestart | rust/src/api/disputes.rs:826-931 | after any run, crash and rehydration keep review, solver and ours-as-ours |
| DisputeRestart.FinishedTradesAreSwept | rust/src/api/disputes.rs:704-750 | a finished trade gets nothing back and loses both keys |
| DisputeRestart.PeerDisputeSurvivesAsThePeers | rust/src/api/disputes.rs:878-894 | a dispute in review comes back as the peer's if and only if no marker is stored |
| DisputeRestart.ComesBackAsOursExactlyWhen | rust/src/api/disputes.rs:826-931 | whatever assignments and late acceptances precede the pass after a crash: a dispute of an unfinished trade comes back if and only if its solver was stored or one was about it, and as ours if and only if an acceptance was among them, or the marker was stored and no assignment came first |
| DisputeRestart.StaleMarkerTurnsPeerDisputeIntoOurs | rust/src/api/disputes.rs:462-509 | a run whose stale marker turns a later dispute of the peer into ours |
| TradeKeys.Identity.DeriveTradeKey | rust/src/api/identity.rs:400-437 | the counter moves by one and stays moved when the save fails; only a saved index is published and returned |
| TradeKeys.DerivationHandsOutTheNext | rust/src/api/identity.rs:400-437 | the index after the counter is handed out, published and saved if and only if there is no store or the save works; the counter has moved either way, and a failed derivation moves nothing |
| TradeKeys.Identity.EnsureTradeKeyIndexAtLeast | rust/src/api/identity.rs:477-515 | one call computes the resync of the counters on which the next row and the runs are stated |
| TradeKeys.ResyncReachesTheFloor | rust/src/api/identity.rs:477-515 | with an identity and no missing store, the answer is Ok if and only if the floor was reached already, there is no store or the save works; on Ok the counter is the larger of itself and the floor and, where it moved, the floor is published and with a store in our row; on an error nothing changed |
| TradeKeys.Identity.LoadFromMnemonic | rust/src/api/identity.rs:176-202 | loads the larger of the value passed and a row of the same key, and publishes when it differs |
| TradeKeys.LoadTakesTheLarger | rust/src/api/identity.rs:176-202 | the counter is at least the value passed and a readable row of the same key, and one of them, and is published if and only if it differs from the value passed |
| TradeKeys.NoIndexIsReturnedTwice | rust/src/api/identity.rs:400-437 | over any run of derivations, failed saves, resyncs, crashes and reloads, the indices handed out strictly increase, provided each restart keeps our row or the mirror had every published index |
| TradeKeys.AcceptedFloorHoldsInProcess | rust/src/api/identity.rs:477-515 | after an accepted resync every later index of this process is above the floor |
| TradeKeys.AcceptedFloorIsDurableWhen | rust/src/api/identity.rs:440-515 | the accepted floor is in the row if and only if the counter had to move for it or the row was there already |
| TradeKeys.AcceptedFloorLostAcrossRestart | rust/src/api/identity.rs:440-515 | a run in which an accepted floor is handed out after a restart |
| PushReconcile.PassesNeverOverlap | rust/src/api/push.rs:511-520 | at most one task is inside a pass |
| PushReconcile.NoRequestIsLost | rust/src/api/push.rs:483-520 | while a request is newer than the latest pass start, a requester, a scheduled task, a waiter for the lock or a holder yet to look at DIRTY exists |
| PushReconcile.QuietMeansServed | rust/src/api/push.rs:483-520 | when no such task is left, a pass has started after the latest request |
| PushReconcile.SomeTaskCanStep | rust/src/api/push.rs:483-520 | such a task is never stuck: some step is enabled |
| PushProgress.StepsWorkOff | rust/src/api/push.rs:490-520 | until a pass starts, every step of a task that exists leaves strictly less work |
| PushProgress.ServedInTime | rust/src/api/push.rs:483-520 | whichever such steps are taken, a pass has started after the latest request once there were more of them than work was left |
| PushProgress.CanBeServed | rust/src/api/push.rs:483-520 | and such steps can always be taken until then |
| PushProgress.NoTaskIsStuck | rust/src/api/push.rs:483-520 | in every reachable state each task can step, unless it waits for the lock, and then its holder can |
| PushProgress.AnyoneMayCome | rust/src/api/push.rs:490-520 | in every state a new request sets DIRTY, and a new caller or writer queues for the lock |
| PushReconcile.WithoutRuntimeARequestIsLost | rust/src/api/push.rs:490-505 | without an async runtime a request can stay unserved with no task left |
| Resync.AtMostOnePassRuns | rust/src/api/nostr.rs:474-498 | two calls are never both inside a pass |
| Resync.CoalescedAnswerIsRecent | rust/src/api/nostr.rs:478-490 | a coalesced call returns the latest pass completed when it got the lock, and that one completed after the call was made |
| Resync.OwnPassFollowsNoOther | rust/src/api/nostr.rs:478-497 | a call that ran its own pass saw none complete between reading the generation and getting the lock |
| Resync.CoalescedPassStartedLater | rust/src/api/nostr.rs:480-485 | the reported pass had started after the call if and only if none was under way then or a second one completed meanwhile |
| Resync.CoalescingOntoAnEarlierStart | rust/src/api/nostr.rs:480-485 | a run in which it had started before the call |
| ResyncProgress.StepsMoveForward | rust/src/api/nostr.rs:474-498 | every step of a call brings it nearer its answer and touches no other call |
| ResyncProgress.AnyoneMayCall | rust/src/api/nostr.rs:474-480 | in every state a new call may read the generation and wait, and the lock is left alone |
| ResyncProgress.CallCanBeAnswered | rust/src/api/nostr.rs:474-498 | in every reachable state every call can be answered by at most seven steps of the calls there are, whatever the passes report |
| Escrow.BuilderSucceedsExactlyWhen | rust/src/cashu/escrow.rs:106-130 | the builder succeeds if and only if the three keys differ pairwise and the locktime has not passed; each refusal says which of the two fails |
| Escrow.BuilderIsAccepted | rust/src/cashu/escrow.rs:111-211 | for three different keys and a locktime neither past nor too early the builder succeeds, and the checker accepts what it made |
| Escrow.AcceptsExactlyTheBuilder | rust/src/cashu/escrow.rs:148-211 | the checker accepts exactly the builder's conditions, up to the order of the two extra keys and an omitted refund signature count |
| Escrow.RejectsForTheFirstFault | rust/src/cashu/escrow.rs:148-211 | a rejection names the first of the thirteen checks that fails, and nothing is rejected without one |
| Escrow.AcceptedEscrowIsTwoOfThree | rust/src/cashu/escrow.rs:148-211 | an accepted escrow is spendable before its locktime exactly by two of the three parties, and after it by the seller alone too |
| Revisions.SupersedesExactly | rust/src/api/node_stats.rs:247-267 | the later wins, within one second the lower id by its first differing character, and any id over none |
| Revisions.SupersedesIsStrictTotal | rust/src/api/node_stats.rs:247-267 | of two different revisions exactly one supersedes the other |
| Revisions.SupersedesTransitive | rust/src/api/node_stats.rs:247-267 | and the order is transitive |
| Revisions.KeepAllIsNewest | rust/src/api/node_stats.rs:273-314 | folding events keeps the greatest one |
| Revisions.KeepAllIgnoresOrder | rust/src/api/node_stats.rs:273-314 | the result depends only on which events were offered |
| NodeStats.CandidatesExactly | rust/src/api/node_stats.rs:273-297 | an event counts for a node if and only if the node was asked about, is its author and is named by its `d` tag |
| NodeStats.NewestInfo | rust/src/api/node_stats.rs:273-297 | per requested node, the newest of its valid events |
| NodeStats.MergeInfo | rust/src/api/node_stats.rs:299-314 | per node the newer of the two, and a change is reported exactly when the cache changed |
| NodeStats.RefreshAllIsNewest | rust/src/api/node_stats.rs:273-314 | over any batches the cache ends on the newest entry that ever arrived |
| NodeStats.RefreshIgnoresOrderAndBatching | rust/src/api/node_stats.rs:273-314 | order and batching do not matter |
| RelayLists.SameOrderAsNodeInfo | rust/src/api/nostr.rs:45-57 | relay lists and node settings order revisions alike |
| RelayLists.RelayListSeen.NoteGeneration | rust/src/api/nostr.rs:321-337 | accepts exactly a generation newer than every one noted for the node |
| OrderCounts.DedupLatest | rust/src/api/node_stats.rs:182-194 | the loop computes the newest version per key |
| OrderCounts.LatestIsNewest | rust/src/api/node_stats.rs:182-194 | without ties, the version kept is the newest of its key |
| OrderCounts.LatestIsFirstOfNewest | rust/src/api/node_stats.rs:182-194 | also with ties: per author and id, the version kept is the first among the newest to arrive |
| OrderCounts.CountOpenOrders | rust/src/api/node_stats.rs:207-220 | per node: the sum of the per-fiat counts, each per-fiat count and the newest time are those of its keys whose newest version is open |
| OrderCounts.OpenKeysAreCounted | rust/src/api/node_stats.rs:182-220 | the keys counted are those with a newest revision that is pending and has no expiry or a later one |
| OrderCounts.UpperExactly | rust/src/api/node_stats.rs:214-217 | per-fiat counts are kept under the code with its small ASCII letters made capital and all else as it was |
| OrderCounts.TotalOrdersOf | rust/src/api/node_stats.rs:182-230 | a node's total is the number of such keys |
| OrderCounts.ApplyOrderCounts | rust/src/api/node_stats.rs:222-230 | the row's total is the sum of its per-fiat counts |
| OrderCounts.LatestIgnoresOrder | rust/src/api/node_stats.rs:182-194 | the result does not depend on the order of arrival |
| OrderCounts.LatestIgnoresOlder | rust/src/api/node_stats.rs:182-194 | nor on older revisions inserted anywhere |
| LogRings.Rings.Push | rust/src/api/logging.rs:41-60 | the rings hold the last 1000 other and the last 200 relay-traffic entries of the whole log |
| LogRings.Rings.NewestFirst | rust/src/api/logging.rs:62-67 | exactly the retained entries, in strictly descending order of id |
| LogRings.RelayTrafficExactly | rust/src/api/logging.rs:87-92 | relay traffic is what is logged at debug or trace under the tag of the relay code |
| LogRings.TrafficEvictsNothingElse | rust/src/api/logging.rs:22-27 | however much relay traffic follows, the other entries retained stay the same |
| LogRings.OfKindIsSubsequence | rust/src/api/logging.rs:87-92 | the entries of a kind are those of the log, in its order |
| LogRings.RetainedIdsDiffer | rust/src/api/logging.rs:351-372 | no two retained entries share an id |
| LogRings.LogBuffer.BufferEntry | rust/src/api/logging.rs:351-377 | a message is numbered above everything before it, shown at its level, debug and trace as one, tagged by the last segment of its target, and pushed |
| LogBridge.BridgeLogger.Log | rust/src/api/logging.rs:190-208 | a record filtered out or logged from inside a log call reaches no sink; any other reaches console and history with the same scrubbed text |
| LogBridge.EnabledExactly | rust/src/api/logging.rs:149-193 | a record passes if and only if its target does not start with the name of the SDK's relay module and its level is within the maximum |
| LogBridge.BridgeLogger.RecentLogs | rust/src/api/logging.rs:437-442 | exactly the retained entries, newest first; whatever was logged, each marker in a retained message is followed by the mask, and the mask by no letter or digit of the key |
| Scrub.ScrubSecrets | rust/src/api/logging.rs:279-308 | the loop terminates and computes the specified text |
| Scrub.EveryMarkerIsMasked | rust/src/api/logging.rs:279-308 | every marker in the output, in any case, is followed by the mask and the mask by no ASCII letter or digit, also across the seams |
| Scrub.ScrubbedKeepsTheRest | rust/src/api/logging.rs:279-308 | the input is pieces that end with their only marker, each followed by the longest run of ASCII letters and digits; the output is the same pieces with the mask for each run |
| Scrub.SecondPassIsStableOnlyWithoutMarkers | rust/src/api/logging.rs:279-308 | a second pass changes nothing if and only if the text had no marker |
| StepStart.StepStartRoundTrip | rust/src/api/invoice.rs:278-291 | parsing a printed step returns its status, colons included, and its time |
| StepStart.ParseI64Exactly | rust/src/api/invoice.rs:288-291 | a text reads as a 64-bit number if and only if it is an optional fitting sign, any zeros and the number's own digits |
| StepStart.ParseStepStartExactly | rust/src/api/invoice.rs:288-291 | any stored text reads as a step if and only if such a number follows its last colon; the status is what stands before it |
| StepStart.FoldAdvances | rust/src/api/invoice.rs:278-291 | folding messages through the stored text is folding them through the step read |
| StepStart.FoldKeepsEarliestOfRun | rust/src/api/invoice.rs:256-291 | from any stored value, the fold ends on the last status with the earliest time of its trailing run |
| StepStart.EarliestOfRunIsLeast | rust/src/api/invoice.rs:278-286 | that time is the least of the longest suffix of one status, and one of its times |
| StepStart.StepRecord.RecordInvoiceStepStart | rust/src/api/invoice.rs:256-276 | a message from the future, a missing store or a failed write change nothing; any other advances the step read, an unreadable one counting as absent |

## Left out

- Relays, HTTP, Blossom, broadcast delivery: they are nondeterministic events, or results passed in.
- Cryptography: envelope validation is a verdict that comes with the event, keys are abstract.
- Rules of modules outside these files (push planning, bonds, sessions, the protocol's order machine).
- Storage backends: a table is a map, and a failed write changes nothing. Whether a process has a database does not change while it runs; a listing returns rows of the table and nothing else.
- RateLimit.LevelIsLeastHeadroom: over the reals, so floating-point rounding is not modelled; a clock that goes back refills nothing, as the source's saturating duration does.
- Widths of log ids, generations, counts and trade-key indices: unbounded naturals, so wrap-around is not modelled. The times of a step record are 64-bit.
- Weak memory: steps on atomics are sequentially consistent. A poisoned mutex, and a call dropped in the middle of a resync pass, are not modelled.
- ChatRuns.RunIsReliable: a task's cleanup is one step with its end; rejected events and the flood trip are a skip or an end. Each store operation is one step, although the source pushes to memory before its write returns. A decoded attachment URL is taken to be no longer than the JSON it came in, and content has one character per byte.
- ChatRuns.CursorFollowsDurableEvents: says nothing of older events; a later event may move the cursor past an earlier failed write, and a quota drop does not hold it back.
- Notifications.NotificationBacklog: cached copies of one id are taken to agree, which unique ids give; the sort is written as an insertion, since the library's sort is not source code here.
- NotificationStream.AnyMessageStream.NextFrom: waiting is one turn that ends with a message, a lag, the end or the timeout; the channel's own queue is not modelled.
- Unread counters, attachment progress and status, and the closing of relay subscriptions after a release or a stop.
- Disputes.DisputeStore.BeginOpen: publishing and waiting for the reply are the gap between it and EndOpen. The solver's chat key, evidence and the update stream are not modelled; a missing database is one whose writes fail and whose listing is empty.
- DisputeRestart.RunKeepsPersisted: writes succeed and handlers are atomic, and a trade that is finished stays finished. Failing and overtaking writes are the subject of DisputeRaces and DisputeMarkers.
- DisputeMarkers.MarkerIsCurrentExactlyWhen: disputes of a trade are told apart by the verdicts handled before them, since messages carry no number; a verdict delivered twice counts twice.
- DisputeRaces.RunKeepsInv: work left over may also happen again, so that equal pieces need no counting; the two deletions come in either order, and the look whether a key is there is left out, since deleting an absent key does nothing.
- DisputeRestart.RehydrateRestores: the restored id is minted locally, as in the source; the daemon's is not persisted.
- TradeKeys.NoIndexIsReturnedTwice: reads succeed at a restart; key derivation itself is abstract.
- The enabled branch of the reconcile pass, retry timers and the peer-wake debounce: a pass is one step that starts and one that ends.
- Resync.CoalescedAnswerIsRecent: the pass itself is opaque; its outcome is any outcome.
- Escrow.BuilderIsAccepted: keys are parsed already, the refusal of a locktime in the past is the library's as the source describes it, and proofs, mint calls and amounts are outside.
- Revisions.KeepAllIgnoresOrder: events of equal revision are taken to carry equal content.
- Pruning of cached nodes that are no longer configured, and the list form of the per-fiat counts.
- OrderCounts.OpenKeysAreCounted: for orders without a tie in creation time inside a key; with a tie the version kept is the first to arrive (OrderCounts.LatestIsFirstOfNewest).
- Settings, node registry, wallet connection, reputation, nyms and the single-pass invoice verdict: each is one read, one write or one pass over its input, and keeps no state the rest relies on.
- LogBridge.BridgeLogger.Log: the global level filter and the re-entry flag of the thread are inputs; the console and the live stream get the text returned.
- PushProgress.ServedInTime: says nothing of a schedule that keeps adding requests and calls without letting a task go on.
- ChatCaps.StoredStaysWithinCaps: sends are not bounded by the caps in the source, so a trade may exceed them by what is sent.
- The Flutter application and the platform runners.
