# RabiRoute: a verified model of its durable state machines

RabiRoute routes messages between chat channels and agent sessions. Most of its code is plumbing; its promises
live in a handful of small state machines and byte-level algorithms that must keep their guarantees across crashes,
replays, retries and arbitrary chunking. This project models those parts and proves the guarantees for every input
and every run.

Each part is a module. An operation the program performs by changing fields or by a loop is a class method or a
method with a loop, proved against a function of the old state and the input; the lemmas then say what that function
guarantees, over whole runs where the promise is about runs.

| module | models | main results |
|---|---|---|
| `DesktopFrames` | length-prefixed frames of the Codex Desktop bridge | `AnySplitDecodes`, `ChunkingIrrelevant`, `BytesConserved` |
| `DesktopDelivery` | steer, start, receipt and retry of one delivery | `NeverResent`, `ReaderCondition`, `OpenedOnce`, `SuccessIsConfirmed` |
| `DesktopOutcomes` | when that delivery steers, starts, retries and gives up | `AttemptOutcome`, `RetriesWhileLoading` |
| `PromiseTails` | operations chained behind a promise per key | `OneAtATime`, `EntryDroppedLast` |
| `ChatLedger` | appends to the persona chat ledger | `LedgerNeverDuplicates` |
| `ChatPaging` | backward paging of that ledger | `ReadPage`, `PagingComplete`, `PagingExact` |
| `ChatPages` | what one page holds, and which requests are refused | `PageTakes`, `RefusedWhen` |
| `ByteLines`, `RolloutScan` | backward scan of a rollout file | `ScanRolloutBackwards`, `WalkMeaning` |
| `ReplyChain` | depth-bounded walk over quoted messages | `ResolveReplyChain` |
| `ArchiveRanges`, `ConversationView`, `ConversationStore`, `RecentMessages` | the two-tier conversation log | `RunsRefineOneLog`, `ViewIsLog`, `CommittedStays`, `KeptContainer` |
| `ConversationImport` | importing older history into it, once or again | `FirstCallImports`, `ReimportKeepsViewIff` |
| `ConversationRotation` | what rotations and appends leave in which file | `RotationLeaves`, `AppendLeaves` |
| `IdentityEvents` | heads, conflicts and merging of the identity event log | `ReplicasConverge`, `OrderIrrelevantIff`, `ForksBecomeHeads`, `ForksConflictIff` |
| `IdentityLearning` | updates of that log and automatic learning | `UpdateConverges`, `SingleWriterNeverConflicts`, `LearningGrantsNothing` |
| `IdentityMerging` | what concurrent versions of a record show | `MergedShows`, `ConflictIff` |
| `IdentityUpdates` | what an update, an observation or a clue leaves in the log | `ParticipantUpdateShows`, `AccountUpdateIff`, `CluesTeach` |
| `MessageGrouping` | the debounce, batch and retry queue | the operations and their class |
| `GroupingSafety` | what that queue keeps over runs | `RunLosesNothing`, `SurvivesRestartIff`, `WellFormedRunsLoseNothing` |
| `GroupingTimers` | its timers and deadlines | `TimersStayExact`, `FragmentsCannotPostpone`, `RemainderWindowIff` |
| `GroupingFragments` | where a fragment goes and when its group is delivered | `FragmentGoes`, `FailureWaits` |
| `GroupingReplay` | the memory of delivered messages | `DeliveredIsRefused` |
| `ThreadCreation` | durable creation reservations | `RunsPassAudit`, `SecondCreateWasConfirmed`, `ReopensIff` |
| `SessionResolver` | shared in-flight creation and the choice of a session | `CreationsNeverOverlap`, `ResolveSession` |
| `ResolvedCreation` | durable creations as the resolver starts them | `ResolvedCreationsConfirmed` |
| `MemoryDelivery` | delivery to the memory consolidation agent | `SecondSendWasSettled`, `FinishedWasSent` |
| `AgentPool` | ranking and allocation of message agents | `PoolStaysWithinCap`, `HeartbeatsCreateAtMostOne`, `QuotedSessionChosen` |
| `AgentSelection` | what contacts weigh and whom the pool picks | `ScoreIs`, `SelectionIs`, `ChosenAgent` |
| `AllocationLock` | interleaved allocations behind the pool's lock | `LockedPoolWithinCap`, `LockedHeartbeatsCreateAtMostOne` |
| `Common`, `Ordering` | shared types; a stable sort and when its result ignores input order | |

Crashes are modelled by a budget: a call performs its observable steps (a file replaced, a request sent) in order and
stops after any number of them. A later call, or a restart, works on whatever is then on file.

## Where the code keeps less than its promise

- A delivery that may have been accepted can be sent again in one case: the reader of delivery receipts throws an
  error whose text the bridge takes for "turn is not active" or, when a retry is still allowed, for "owner is loading"
  (src/codexDesktopBridge.ts:397-410, 706-717, 874-923). `DesktopDelivery.ReaderCondition` gives the exact condition,
  and `DesktopDelivery.MisreadResends` the run.
- The grouping queue accepts fragments with empty fields, but after a restart it drops items without an identity or a route kind and
  groups without all their key fields (src/messageGrouping.ts:93-156, 201-250). What decides is the group a fragment
  joins: a well-formed one is lost when the group was opened without a sender, and one without a sender is recovered
  when the group has one. `GroupingSafety.SurvivesRestartIff` is the exact condition on any queue,
  `GroupingSafety.WellFormedFragmentLost` and `GroupingSafety.IllFormedFragmentRecovered` are the two inputs.
- When fragments arrive during a successful delivery, the group keeps its deadlines, moved by every such arrival, but
  takes its first arrival as its new creation time (src/messageGrouping.ts:241-245, 265-280). So the window of 300 s after
  creation holds for what is left only under the condition of `GroupingTimers.RemainderWindowIff`;
  `GroupingTimers.RemainderWindowExceeded` is a run that breaks it, and `GroupingTimers.RemainderBound` the bound that
  always holds.
- A conversation store whose index file is lost, or was not written before a crash, imports older history again and
  numbers its current file anew (src/messageContextStore.ts:713-723), so a record may change its number.
  `ConversationImport.ReimportKeepsViewIff` says exactly when that is harmless, `ConversationImport.LostIndexRenumbers`
  shows a store where it is not. The results about runs of appends therefore start from a recorded import.
- Replicas of the identity log agree when supersedes edges are explicit and acyclic. With explicit cycles they agree if and
  only if some event is superseded by none or all show the same record (`IdentityEvents.OrderIrrelevantIff`); of two
  events that supersede each other the last in the file wins (`IdentityEvents.CycleKeepsLast`).
- A creation reservation whose process died between `reserved` and `creating` blocks its key for good
  (`ThreadCreation.ReservedNeverRetried`), and so does a memory delivery that may have been accepted without a delivery
  id (`MemoryDelivery.UnknownSendBlocksForever`). Both are safe, and neither is ever retried.

## Model

| member | source | states |
|---|---|---|
| DesktopFrames.FrameDecoder.HandleData | src/codexDesktopBridge.ts:493-507 | one chunk: the handled frames, the kept bytes and the announced length are those of decoding the kept bytes followed by the chunk; it ends even with zero-length frames, and a body that does not parse is consumed |
| DesktopFrames.ReadInvertsWrite | src/codexDesktopBridge.ts:376-381 | the header read back is the length that was written, at any width |
| DesktopFrames.DrainSplits | src/codexDesktopBridge.ts:493-507 | decoding a longer stream is decoding its beginning and then the rest from the resting state |
| DesktopFrames.DrainRests | src/codexDesktopBridge.ts:495-506 | the loop stops only where it has nothing left to do, or where a parse error escaped |
| DesktopFrames.ChunkingIrrelevant | src/codexDesktopBridge.ts:493-507 | the frames, the parse error and the resting state of any chunking are those of the concatenated bytes |
| DesktopFrames.BytesConserved | src/codexDesktopBridge.ts:376-381 | emitted frames, the failed body and the unread bytes re-encode exactly the bytes received |
| DesktopFrames.DecodesEncoding | src/codexDesktopBridge.ts:376-381 | decoding the encoding of any bodies shorter than 2^32 bytes gives those bodies and leaves nothing |
| DesktopFrames.AnySplitDecodes | src/codexDesktopBridge.ts:493-507 | for every split of that encoding the decoder emits exactly those bodies, in order, once each |
| DesktopFrames.RestingStateFromBytes | src/codexDesktopBridge.ts:493-507 | two chunkings of the same bytes leave the same frames, failure and resting state |
| DesktopDelivery.DesktopBridge.ConfirmDeliveryReceipt | src/codexDesktopBridge.ts:695-717 | polling stops at the first receipt or reader failure, otherwise reports a missing receipt |
| DesktopDelivery.DesktopBridge.DeliverTurn | src/codexDesktopBridge.ts:727-766 | steering, and starting only when the turn looks inactive, with what each sends and returns |
| DesktopDelivery.DesktopBridge.StartTurn | src/codexDesktopBridge.ts:843-872 | the model check comes first; only a start timeout asks for the receipt |
| DesktopDelivery.DesktopBridge.Deliver | src/codexDesktopBridge.ts:895-923 | the whole retry loop sends, opens and returns what the specification of a delivery says, and marks the thread active on success only |
| DesktopDelivery.AttemptSafe | src/codexDesktopBridge.ts:874-893 | within one attempt a second request follows only an explicit refusal, and an attempt that ends with a loading owner was refused throughout |
| DesktopDelivery.NeverResent | src/codexDesktopBridge.ts:895-923 | if no failure of the receipt reader reads like an inactive turn or, with retries, like a loading owner, a further steer or start follows an earlier one in every run only if the owner explicitly refused it; `DesktopDelivery.ReaderCondition` shows the premise is exact |
| DesktopDelivery.ReaderCondition | src/codexDesktopBridge.ts:397-410 | nothing maybe-accepted is resent in any world if and only if no failure of the receipt reader reads like an inactive turn or, with retries, like a loading owner |
| DesktopDelivery.MisreadResends | src/codexDesktopBridge.ts:397-410 | for every other failure there is a run that sends an accepted turn again |
| DesktopDelivery.OpenedOnce | src/codexDesktopBridge.ts:895-923 | the thread is opened at most once, and a success reports truly whether it was |
| DesktopDelivery.SuccessIsConfirmed | src/codexDesktopBridge.ts:727-766 | success of a marked prompt ends with a confirmed receipt, of an unmarked one with an accepted request |
| DesktopDelivery.FirstAttemptDelivers | src/codexDesktopBridge.ts:874-923 | an active turn is steered, an inactive one started, and with the receipt found the first attempt delivers with exactly these requests |
| DesktopOutcomes.PollingIs | src/codexDesktopBridge.ts:695-717 | polling goes on while the receipt is absent, and the first other answer decides |
| DesktopOutcomes.ConfirmIff | src/codexDesktopBridge.ts:695-717 | with a working reader a delivery is confirmed if and only if some poll finds the receipt |
| DesktopOutcomes.SteerOutcome | src/codexDesktopBridge.ts:727-766 | steering is settled when accepted or timed out, confirmed or not as the receipt says, and otherwise ends with the owner's refusal |
| DesktopOutcomes.StartOutcome | src/codexDesktopBridge.ts:843-872 | nothing is started when the model check fails; an accepted start counts at once, a timed-out one as its receipt says |
| DesktopOutcomes.AttemptOutcome | src/codexDesktopBridge.ts:727-893 | with a working reader a turn is started if and only if steering was refused, without a time-out, because no turn was active |
| DesktopOutcomes.RetriesWhileLoading | src/codexDesktopBridge.ts:895-923 | the bridge tries again exactly while the owner says that it is loading; the first attempt that ends otherwise decides |
| DesktopOutcomes.OpeningFails | src/codexDesktopBridge.ts:895-923 | a thread that cannot be opened ends the delivery with that error after one attempt |
| PromiseTails.TailMap.Schedule | src/codexDesktopBridge.ts:925-941 | an operation is chained behind the last one of its key and becomes the tail |
| PromiseTails.TailMap.Release | src/codexDesktopBridge.ts:935-940 | a settled operation removes the entry of its key only while it is still the tail |
| PromiseTails.StepKeepsInv | src/codexDesktopBridge.ts:925-941 | every step keeps: each operation is behind the last earlier one of its key, whatever started has only finished predecessors, and unfinished keys have an entry |
| PromiseTails.OneAtATime | src/codexDesktopBridge.ts:925-941 | in every interleaving an operation that started found all earlier ones of its key over, so they run singly and in call order, failures or not |
| PromiseTails.EntryDroppedLast | src/codexDesktopBridge.ts:935-940 | the map has no entry for a key only when nothing of it waits or runs; otherwise it names the last one called |
| PromiseTails.EntryGoneWhenDone | src/codexDesktopBridge.ts:925-941 | once every operation of a key has settled and cleaned up, the map has no entry for it |
| PromiseTails.OutcomeStays | src/codexDesktopBridge.ts:925-941 | an operation that has settled stays as it settled, whatever others do |
| PromiseTails.FirstUnfinishedCanStep | src/personaChatHistory.ts:59-83 | no operation is stuck behind a failed one |
| PromiseTails.SettledCleansUp | src/codexDesktopBridge.ts:935-940 | a settled operation cleans up, and removes the entry of its key if it still names it |
| ChatLedger.LedgerFile.HistoryIds | src/personaChatHistory.ts:23-42 | the loaded ids are those on file, whether or not the cache stamp was usable, and the cache stays sound |
| ChatLedger.LedgerFile.AppendReply | src/personaChatHistory.ts:59-76 | a row is written exactly when its id is not on file, and the stamped cache then equals the ids on file |
| ChatLedger.MatchingStampIsExact | src/personaChatHistory.ts:23-42 | a cache whose size stamp matches the file holds exactly the ids on file |
| ChatLedger.RunningIsUnique | src/personaChatHistory.ts:59-83 | two appends to one file never run at once |
| ChatLedger.ActionKeepsInv | src/personaChatHistory.ts:44-84 | every step of every append, its failure between any two steps and a restart keep rows unique, the cache sound and the ids in hand current |
| ChatLedger.LedgerNeverDuplicates | src/personaChatHistory.ts:44-84 | in every run of overlapping calls, failures and process restarts the ledger never holds an id twice, and a cache with a matching stamp is exact |
| ChatLedger.RowsOnlyGrow | src/personaChatHistory.ts:70-74 | no run changes or removes a row already written |
| ChatLedger.UndisturbedAppends | src/personaChatHistory.ts:44-84 | an append that nothing disturbs adds its row unless the id is on file, and leaves an exact cache |
| ChatPaging.ReadPage | src/personaChatHistory.ts:87-139 | for every file, cursor and limit the windowed reader returns the page of a plain walk over the lines before the cursor, or every documented refusal; it gives up only when a line exceeds 1 MiB |
| ChatPaging.ReadBackwards | src/personaChatHistory.ts:99-136 | the same for the loop over 64 KiB windows, whatever lines they cut |
| ChatPaging.CollectHistory | src/personaChatHistory.ts:115-132 | a page over a history holds its newest records, newest first, and its cursor is the boundary of the rest |
| ChatPaging.PagingExact | src/personaChatHistory.ts:87-139 | following cursors with any limits, while the ledger grows, yields the older records newest first, each once, progresses on every page and always stops on a record boundary |
| ChatPaging.PagingComplete | src/personaChatHistory.ts:87-139 | as many pages as records return the whole history in reverse |
| ChatPaging.HistoryNeverTooLarge | src/personaChatHistory.ts:107-127 | on a history of records within the limit the reader never gives up |
| ChatPaging.CursorPages | src/personaChatHistory.ts:92-98 | later appends never change the page of an older cursor |
| ChatPages.RefusedWhen | src/personaChatHistory.ts:87-106 | each refusal exactly when: the limit, a negative cursor, a cursor past the end, one inside a record |
| ChatPages.PageTakes | src/personaChatHistory.ts:107-139 | a page takes lines from the end until it is full and no longer, and its cursor is where they begin |
| ChatPages.BrokenRecordFails | src/personaChatHistory.ts:115-132 | a record that does not parse, reached before the page is full, fails the request |
| ChatPages.OffsetIs | src/personaChatHistory.ts:107-139 | the cursor points just behind the newline of the last line not taken |
| ByteLines.SegmentsAround | src/codexRolloutActivity.ts:96-139 | splitting at newlines before and after a newline is splitting the whole |
| RolloutScan.ScanRolloutBackwards | src/codexRolloutActivity.ts:70-165 | for every file, chunk size and record limit the chunked scan concludes what a plain backward walk over the complete lines within the limit concludes |
| RolloutScan.ScanChunkWithNewlines | src/codexRolloutActivity.ts:96-147 | one chunk: the line it completes, its inner lines newest first, and what is carried keep the answer sought |
| RolloutScan.LatestTerminal | src/codexRolloutActivity.ts:150-164 | without a turn the answer is the latest end seen, or unknown |
| RolloutScan.WalkSplits | src/codexRolloutActivity.ts:70-165 | walking newer lines and then older ones is walking them all |
| RolloutScan.WalkMeaning | src/codexRolloutActivity.ts:120-139 | the newest turn is inactive exactly when a later line ends it, at the time on the oldest such line; without a turn only the ends count |
| RolloutScan.NewestTurnDecides | src/codexRolloutActivity.ts:70-165 | the newest turn among the lines within the limit is inactive since the oldest later line that ends it, or active since its own time |
| ReplyChain.ResolveReplyChain | src/napcatReplyMessages.ts:125-172 | the walk processes exactly the ids whose shortest reply distance, not passing through the current message, is below the bound; it asks for each id at most once and files every answer under resolved or errors |
| ReplyChain.LookUp | src/napcatReplyMessages.ts:147-166 | an id is answered from the local history or by one request, and its replies are those of its record |
| ReplyChain.QueueShrinks | src/napcatReplyMessages.ts:141-170 | the measure by which the queue loop ends under any branching |
| ReplyChain.NearerVisited | src/napcatReplyMessages.ts:141-170 | when the queue reaches a depth, all ids nearer than it have been visited |
| ReplyChain.VisitKeepsInv | src/napcatReplyMessages.ts:143-170 | visiting keeps depths exact and drops nothing reachable |
| ReplyChain.SkipKeepsInv | src/napcatReplyMessages.ts:143-144 | skipping a deep or visited entry drops nothing reachable |
| ReplyChain.RunReaches | src/napcatReplyMessages.ts:125-172 | a finished walk has visited exactly the ids below the bound |
| ReplyChain.ReachedIff | src/napcatReplyMessages.ts:125-172 | the walk reaches an id exactly when a chain of at most the bounded number of messages, none but its last the current one, leads to it |
| ArchiveRanges.KeptContainer | src/messageContextStore.ts:610-624 | every range lies inside a kept one, although its own container may have been dropped |
| ArchiveRanges.CoverageUnchanged | src/messageContextStore.ts:614-624 | compaction covers the same sequence numbers |
| ArchiveRanges.NoneRedundant | src/messageContextStore.ts:614-624 | no kept range makes another redundant |
| ArchiveRanges.CompactIdempotent | src/messageContextStore.ts:614-624 | compacting again changes nothing |
| ArchiveRanges.KeptUnlessRedundant | src/messageContextStore.ts:610-624 | only what another range makes redundant is dropped |
| ConversationView.KnownArchivesGood | src/messageContextStore.ts:626-686 | every entry of the rebuilt index names an existing file by its true range |
| ConversationView.KnownArchivesCover | src/messageContextStore.ts:626-686 | however far the index lagged, every archive file lies inside a rebuilt entry |
| ConversationView.ViewIsLog | src/messageContextStore.ts:1045-1070 | the archive-inclusive, de-duplicated view of a store is the one log it represents |
| ConversationView.DedupeIsLog | src/messageContextStore.ts:653-711 | sorting, keeping the first of each id and sorting again turns any reading of the records into the log |
| ConversationView.NextSequenceIsFresh | src/messageContextStore.ts:661-686 | the recomputed next sequence exceeds every stored one, whatever the index file says |
| ConversationView.NextSequenceIs | src/messageContextStore.ts:661-686 | it is the smallest number the index file does not contradict that exceeds everything known |
| ConversationView.KnownArchivesInOrder | src/messageContextStore.ts:626-686 | the rebuilt index is in the order of its ranges |
| ConversationView.KnownArchivesAre | src/messageContextStore.ts:626-686 | whatever the files hold, each entry of the rebuilt index is a numbered one of the index file or that of an archive file with numbered records |
| ConversationView.CandidatesIff | src/messageContextStore.ts:626-660 | an archive file is read exactly when the index neither names it nor covers its range |
| ConversationStore.FindExistingIsLookup | src/messageContextStore.ts:725-740 | a message is found exactly when its id is in the log |
| ConversationStore.FilingRefines | src/messageContextStore.ts:742-772 | writing the archive file changes nothing the store represents |
| ConversationStore.RotationMovesOldPrefix | src/messageContextStore.ts:742-762 | a rotation happens exactly when asked for, some record is older than the trigger and the first is old enough; it moves the longest prefix that is |
| ConversationStore.ShorteningRefines | src/messageContextStore.ts:742-782 | shortening the current file is safe once the archive file is there |
| ConversationStore.RotationReaches | src/messageContextStore.ts:742-782 | after a rotation the index in memory still leads to every record |
| ConversationRotation.RotationCuts | src/messageContextStore.ts:742-762 | the number of records rotated is that of the records before the first one younger than the include bound, if one is older than the trigger, and otherwise none, hours and defaults spelled out |
| ConversationRotation.RotationLeaves | src/messageContextStore.ts:742-782 | a finished rotation leaves the records from the cut on in the current file and those before it in one archive file named after their first and last number; without a cut nothing moves |
| ConversationRotation.AppendLeaves | src/messageContextStore.ts:784-850 | a finished append leaves the same, with the appended record at the end, and removes no archive file |
| ConversationRotation.AppendLeavesIndex | src/messageContextStore.ts:784-850 | the index it leaves numbers past every record and leads to every record that is not in the current file |
| ConversationStore.AppendReturns | src/messageContextStore.ts:784-850 | once the import is recorded on file, a finished call refuses a blank message, returns the record of a known id, or appends one numbered past all others |
| ConversationStore.AppendRefines | src/messageContextStore.ts:784-850 | once the import is recorded on file, a crash after any number of file writes leaves the log before or after the call, the write of the current file being the commit |
| ConversationStore.RunsRefineOneLog | src/messageContextStore.ts:784-850 | once the import is recorded on file, every run of appends, rotations and crashes refines one log that only grows at its end, with unique ids and increasing sequences |
| ConversationStore.CommittedStays | src/messageContextStore.ts:784-850 | once the import is recorded on file, what a finished call returned is in the view of every later state |
| ConversationImport.FirstCallImports | src/messageContextStore.ts:713-850 | the first call on a fresh directory, unless cut short, numbers the older records from one, one of each id, leaves a store that represents them with the message, and records the import |
| ConversationImport.ReimportKeepsViewIff | src/messageContextStore.ts:713-723 | without a recorded import and with no older files left, the view after the current file was numbered anew is the same log if and only if each current record is archived too or keeps its number |
| ConversationImport.LostIndexRenumbers | src/messageContextStore.ts:713-723 | a store that lost its index between the two writes of a rotation no longer shows a record it showed |
| ConversationImport.DedupePicksLog | src/messageContextStore.ts:705-711 | de-duplicating a reading in which records come in several copies picks the copies with the smallest numbers, the log |
| ConversationImport.DedupeKeepsEarliest | src/messageContextStore.ts:705-711 | de-duplicating keeps of each id the copy with the smallest number, the oldest of equals |
| ConversationImport.DedupeOrders | src/messageContextStore.ts:705-711 | what is left is ordered by number, then time, then id, each id once |
| ConversationImport.RenumberedAre | src/messageContextStore.ts:713-723 | an import changes nothing but the numbers, which count up |
| ConversationStore.StaysImported | src/messageContextStore.ts:784-850 | no write of a call takes the record of the import away |
| ConversationStore.Store.ImportLegacy | src/messageContextStore.ts:713-723 | the import: nothing when recorded, else one write of the merged and renumbered current file |
| ConversationStore.Store.ArchiveEligiblePrefix | src/messageContextStore.ts:742-782 | the rotation performs its two file writes in this order and stops where the process dies |
| ConversationStore.Store.AppendMessage | src/messageContextStore.ts:784-850 | the whole call, import included: its file writes in order, cut off by a crash anywhere, and its result |
| RecentMessages.RecentItems | src/messageContextStore.ts:1059-1089 | the newest-first loop selects what the specification selects, in chronological order |
| RecentMessages.SelectionBounded | src/messageContextStore.ts:1055-1089 | the selection keeps the limit and the character budget, except that the newest message is always chosen |
| RecentMessages.SelectionIsSuffix | src/messageContextStore.ts:1059-1089 | under an ample budget the selection is the newest messages |
| RecentMessages.ChosenIff | src/messageContextStore.ts:1059-1089 | an older message is chosen exactly when fewer than the limit of the newer ones are and it fits the budget beside them, or none is; one that does not fit is passed over |
| RecentMessages.RecentIsLogSuffix | src/messageContextStore.ts:1059-1089 | on a store that represents a log the reader returns the newest messages of that log that match the query |
| IdentityEvents.ComputeHeads | src/identityRelations.ts:512-525 | the loops over superseded and current ids compute the heads of a group |
| IdentityEvents.ComputeState | src/identityRelations.ts:500-538 | grouping and collapsing yield the state of every record and of no other |
| IdentityEvents.HeadsAreUnsuperseded | src/identityRelations.ts:512-525 | in explicit logs the heads are exactly the events nothing supersedes, if there is one, and otherwise the last event |
| IdentityEvents.CollapseForgetsOrder | src/identityRelations.ts:454-498 | heads collapse to the same record and conflict in any order |
| IdentityEvents.ReplicasConverge | src/identityRelations.ts:407-538 | logs with the same events agree on every record and conflict, whatever their order |
| IdentityEvents.OrderIrrelevantIff | src/identityRelations.ts:407-538 | the order of an explicit log does not matter if and only if some event is superseded by none or all events would show the same record |
| IdentityEvents.CycleKeepsLast | src/identityRelations.ts:512-525 | of two events that supersede each other the last one is the head, so the premise is needed |
| IdentityEvents.SupersedingMoreLosesMore | src/identityRelations.ts:512-524 | more explicit edges never bring an event back |
| IdentityEvents.ForksBecomeHeads | src/identityRelations.ts:512-525 | after any history, legacy, mixed or all-superseded, events that supersede its heads are exactly the new heads |
| IdentityEvents.UpdateResolves | src/identityRelations.ts:482-538 | one event that supersedes the heads it saw leaves its record with one head and no conflict |
| IdentityEvents.ForksConflictIff | src/identityRelations.ts:427-498 | two writers that saw the same heads conflict exactly when their records differ in the compared fields |
| IdentityMerging.ComparableIff | src/identityRelations.ts:407-452 | which fields decide whether two versions of a record disagree |
| IdentityMerging.ConflictIff | src/identityRelations.ts:454-498 | heads conflict exactly when two of them disagree, and then all of them are listed |
| IdentityMerging.MergedShows | src/identityRelations.ts:454-498 | the record shown is that of the latest head, except names, and for observed candidates aliases and evidence of all heads |
| IdentityMerging.LentIff | src/identityRelations.ts:454-480 | the name shown is lent when the latest head, an account or an observed candidate, has none and an earlier one has |
| IdentityMerging.UniqueInOrder | src/identityRelations.ts:454-480 | merged lists keep each element once, in the order of first occurrence |
| IdentityMerging.HeadsAreCurrent | src/identityRelations.ts:512-525 | every event is superseded, current or not written yet |
| IdentityMerging.LegacyEventReplacesAll | src/identityRelations.ts:512-525 | an event that names no parents replaces everything current when it was written |
| IdentityLearning.UpdateConverges | src/identityRelations.ts:614-743 | after an appending update the record is found as appended and without conflict; a call that appends nothing found exactly the record it returns |
| IdentityLearning.UpdateKeepsOthers | src/identityRelations.ts:614-743 | an update leaves all other records as they were |
| IdentityUpdates.AccountUpdateIff | src/identityRelations.ts:569-644 | an account update is accepted if and only if its texts are there, a dispute is given its links anew, and the links are sound: one per participant, at most one authoritative, each to someone who may be named |
| IdentityUpdates.AccountUpdateShows | src/identityRelations.ts:625-644 | afterwards the account shows each given field as given and each other field as it was, without conflict |
| IdentityUpdates.UnsoundLinksRefused | src/identityRelations.ts:600-612 | two authoritative links, or one to a participant who is not confirmed, are refused and nothing changes |
| IdentityUpdates.ParticipantUpdateIff | src/identityRelations.ts:645-659 | a participant update is refused only for a malformed field, or a dispute it does not settle in every field |
| IdentityUpdates.ParticipantUpdateShows | src/identityRelations.ts:645-659 | afterwards the participant shows each given field as given, within its limits, and each other field as it was |
| IdentityUpdates.StatusUpdates | src/identityRelations.ts:645-659 | an update can give a participant any status, whatever it was before |
| IdentityUpdates.CardUpdateIff | src/identityRelations.ts:660-682 | a card update is accepted if and only if all its parts are there, given or kept, disputes are settled in every part, and an active card names people who may be named |
| IdentityUpdates.CardUpdateShows | src/identityRelations.ts:660-682 | afterwards the card shows each given part as given and each other part as it was |
| IdentityUpdates.EmptyUpdateIsQuiet | src/identityRelations.ts:684-702 | an update that gives nothing, on an undisputed record without a lent name, appends nothing |
| IdentityUpdates.UnsettledIsWritten | src/identityRelations.ts:684-743 | a record that is disputed or shows a lent name is written again even when nothing in it changes |
| IdentityLearning.SingleWriterNeverConflicts | src/identityRelations.ts:614-743 | no run of updates of a single writer, from an empty log or any without conflicts, leads to a conflict |
| IdentityLearning.CandidateUpdateKeepsAuthority | src/identityRelations.ts:614-743 | an update that turns an unknown or candidate record into a candidate changes nothing else |
| IdentityLearning.ObservationKeepsAuthority | src/identityRelations.ts:749-843 | observing an account touches only undisputed candidates and leaves them such, even when its second update fails |
| IdentityLearning.FirstObservation | src/identityRelations.ts:749-843 | the first sight of an account leaves it undisputed with one new candidate participant, named after the account unless that id is taken; seeing it again writes nothing |
| IdentityUpdates.ObservationLeavesAlone | src/identityRelations.ts:749-843 | an account that is disputed, the persona's own, confirmed or ambiguous is left alone |
| IdentityUpdates.ObservationTeaches | src/identityRelations.ts:749-843 | seeing a known account again never fails: its candidate learns the name as an alias and where it was seen, and the account takes the name and keeps its links |
| IdentityUpdates.UnsoundLinksFail | src/identityRelations.ts:749-843 | observing an account that links someone twice fails and leaves the account as it was |
| IdentityUpdates.AccountsHaveOwnIds | src/identityRelations.ts:332-339 | different accounts have different ids, and so have the participants named after them, as long as no text holds a zero |
| IdentityLearning.CluesKeepAuthority | src/identityRelations.ts:849-938 | so does recording clues, even when it fails half-way |
| IdentityLearning.CluesAccepted | src/identityRelations.ts:858-915 | accepted clues are about an undisputed candidate participant and undisputed candidate cards |
| IdentityUpdates.CluesAcceptedIff | src/identityRelations.ts:858-915 | exactly when clues are accepted |
| IdentityUpdates.CluesTeach | src/identityRelations.ts:849-938 | when no step fails, the candidate shows the kind and name given or kept and all aliases and evidence, and stays a candidate, and every relation has its candidate card with the evidence it had and all that was given |
| IdentityLearning.LearningKeepsAuthority | src/identityRelations.ts:749-938 | no sequential run of learning changes a record that is not an undisputed candidate |
| IdentityLearning.ConfirmedParticipantIff | src/identityRelations.ts:950-986 | a lookup names a participant exactly when the undisputed account has one authoritative link, to an undisputed confirmed participant |
| IdentityLearning.LearningGrantsNothing | src/identityRelations.ts:749-1011 | over every run of learning the confirmed participants, authoritative links, decided cards and the confirmed participant of every lookup are unchanged |
| IdentityLearning.IdentityLog.UpdateRelation | src/identityRelations.ts:614-743 | an update returns and appends what the specification says, and an error appends nothing |
| IdentityLearning.IdentityLog.Observe | src/identityRelations.ts:749-843 | an observation performs its updates in order and stops at the first error |
| IdentityLearning.IdentityLog.Record | src/identityRelations.ts:849-938 | clues are checked before any update, then the participant and each card are updated in order until one fails |
| MessageGrouping.MessageGroupingQueue.constructor | src/messageGrouping.ts:184-199 | a start recovers the well-formed groups and the newest delivered identities and arms every recovered group |
| MessageGrouping.MessageGroupingQueue.EnqueueMessage | src/messageGrouping.ts:201-250 | the whole new state and result of an arriving fragment, duplicates and arrivals during a delivery included |
| MessageGrouping.MessageGroupingQueue.BeginDelivery | src/messageGrouping.ts:252-264 | a delivery takes the present items as its snapshot, unless one is under way |
| MessageGrouping.MessageGroupingQueue.DeliverySucceeded | src/messageGrouping.ts:265-280 | the whole new state after a success |
| MessageGrouping.MessageGroupingQueue.DeliveryFailed | src/messageGrouping.ts:281-291 | the whole new state after a failure |
| GroupingFragments.ExistingIsHost | src/messageGrouping.ts:201-223 | the group a fragment joins is that of its key, or, if it quotes nothing, the only pending one of its base key |
| GroupingFragments.AcceptedIff | src/messageGrouping.ts:201-215 | a fragment is refused, changing nothing, exactly when its identity was delivered recently or waits in the group it would join |
| GroupingFragments.PolicyWaits | src/messageGrouping.ts:70-84 | the three waits in seconds, their defaults, limits and order |
| GroupingFragments.FragmentGoes | src/messageGrouping.ts:201-250 | an accepted fragment ends up last in its host group or alone in a new one, with the deadlines its policy gives; every other group stays |
| GroupingFragments.RetryTable | src/messageGrouping.ts:281-291 | retries wait 5, 10, 20, 40 and then 60 s |
| GroupingFragments.AttemptCounts | src/messageGrouping.ts:252-264 | taking off counts an attempt and marks the group delivering |
| GroupingFragments.FailureWaits | src/messageGrouping.ts:281-291 | a failed group keeps every item and waits exactly the delay of its attempts, its bound moved no further than that |
| GroupingFragments.RestartKeepsGroup | src/messageGrouping.ts:117-199 | a recovered group has everything it had on file and waits again, no later than its bound |
| GroupingFragments.WhatEventsDo | src/messageGrouping.ts:184-321 | a timer flushes the group it is armed for, and a restart has what is on file and nothing else |
| GroupingFragments.CloseDisarms | src/messageGrouping.ts:293-306 | a closed queue has no timers, and its file holds what it held in memory |
| GroupingReplay.DeliveredIsRefused | src/messageGrouping.ts:184-280 | after a success every later fragment with an identity of its snapshot is refused, in every run with restarts, while fewer than 2000 other identities were delivered after it |
| GroupingReplay.RememberedIsRefused | src/messageGrouping.ts:184-280 | so is every identity remembered before |
| GroupingReplay.WindowIsBounded | src/messageGrouping.ts:265-280 | at most 2000 identities are remembered, unless the oldest is empty |
| GroupingReplay.StepKeepsDistinct | src/messageGrouping.ts:184-280 | every event keeps the remembered identities different |
| GroupingSafety.RemainderIsAppended | src/messageGrouping.ts:265-272 | removing the delivered identities leaves exactly what was appended meanwhile, in order |
| GroupingSafety.SucceedKeepsAppended | src/messageGrouping.ts:265-280 | after a success the group holds exactly the items appended during the delivery and waits again, or is gone |
| GroupingSafety.FailKeepsItems | src/messageGrouping.ts:281-291 | a failure keeps every item |
| GroupingSafety.StepKeepsInv | src/messageGrouping.ts:201-327 | every event, whatever fields its fragment has, keeps group keys unique, identities distinct, deadlines within bounds, flights a prefix of their groups and the file in step with memory |
| GroupingSafety.RunLosesNothing | src/messageGrouping.ts:184-291 | in every run of any arrivals, deliveries, failures, crashes and restarts each identity accepted where a restart recovers it is delivered or in a group a restart recovers |
| GroupingSafety.WellFormedRunsLoseNothing | src/messageGrouping.ts:184-291 | with non-empty fields throughout, every accepted identity is delivered or recoverable in every run |
| GroupingSafety.SurvivesRestartIff | src/messageGrouping.ts:93-250 | on any queue with unique keys an accepted fragment is recovered, in its group, if and only if that group has all its key fields and the fragment an identity and a route kind |
| GroupingSafety.WellFormedFragmentLost | src/messageGrouping.ts:93-250 | a well-formed fragment is accepted and lost in a restart when its group was opened without a sender |
| GroupingSafety.IllFormedFragmentRecovered | src/messageGrouping.ts:93-250 | a fragment without a sender is recovered when its group has one |
| GroupingSafety.RestoredFinds | src/messageGrouping.ts:117-199 | a restart normalizes each group on its own and drops those that cannot be |
| GroupingTimers.TimersStayExact | src/messageGrouping.ts:307-321 | for any fragments, from any state file and across restarts, while the queue is open the armed timers are exactly the keys of pending groups |
| GroupingTimers.StartHasTimers | src/messageGrouping.ts:184-199 | a start from any state file arms exactly the recovered groups |
| GroupingTimers.NewGroupWindow | src/messageGrouping.ts:70-84 | a new group's deadlines lie within its normalized maximum wait, at most 300 s |
| GroupingTimers.FragmentsCannotPostpone | src/messageGrouping.ts:201-250 | while a group waits for its first delivery no number of later fragments and no traffic of other groups moves the deadline past its window |
| GroupingTimers.FlightGathers | src/messageGrouping.ts:201-250 | over a run that leaves a delivery under way its group gains exactly the arrivals that joined it, and its bound and deadline follow them |
| GroupingTimers.RemainderWaits | src/messageGrouping.ts:241-280 | after a delivery that fragments joined the group waits from its first arrival, until the deadline its last arrival set and at the latest the bound at take-off or of any arrival; without arrivals it is gone |
| GroupingTimers.RemainderWindowIff | src/messageGrouping.ts:241-280 | what is left keeps the 300 s window if and only if the bound at take-off and that of every arrival lie within 300 s of the first arrival |
| GroupingTimers.RemainderWindowExceeded | src/messageGrouping.ts:241-280 | a group taken off at 0 s and joined at 10 s and 20 s waits until 320 s, 310 s after its new creation time |
| GroupingTimers.RemainderBound | src/messageGrouping.ts:241-280 | what is left never waits past the bound at take-off or 300 s after the latest arrival |
| GroupingTimers.RetryDelays | src/messageGrouping.ts:281-291 | retry delays grow with attempts and stay within 5 and 60 s |
| ThreadCreation.CreationStore.CreateWithReservation | src/codexThreadCreationReservations.ts:165-261 | a call performs its writes, creation and stage reports in order, cut off by a crash anywhere |
| ThreadCreation.CreationStore.RunCreate | src/codexThreadCreationReservations.ts:212-260 | every reported stage is on file before the next, and the last write records the outcome |
| ThreadCreation.RunsPassAudit | src/codexThreadCreationReservations.ts:89-261 | in every run of non-overlapping calls, crashing anywhere, no creation is repeated without a confirmation that the earlier task is missing, and the file fits the history |
| ThreadCreation.SecondCreateWasConfirmed | src/codexThreadCreationReservations.ts:185-210 | between two creations there is a positive confirmation that the first task is missing |
| ThreadCreation.ConfirmationIsAboutStale | src/codexThreadCreationReservations.ts:185-210 | a task is confirmed missing only for a `creating` reservation at least as old as the bound, without a thread id, when the confirmation said so |
| ThreadCreation.ReopensIff | src/codexThreadCreationReservations.ts:178-213 | on a reservation no failure reopened a call creates, and confirms a missing task, if and only if it is `creating`, at least as old as the bound, has no thread id, and the confirmation said missing |
| ThreadCreation.ClosedReservation | src/codexThreadCreationReservations.ts:178-217 | otherwise the call returns the completed result, blocks, or marks a stale reservation uncertain and blocks |
| ThreadCreation.OpenReservationCreates | src/codexThreadCreationReservations.ts:177-231 | without a reservation, and after a failure before creation, every call creates exactly once, `creating` on file before |
| ThreadCreation.CreationEnds | src/codexThreadCreationReservations.ts:224-261 | however a call came to create, it ends with the outcome on file: the completed result, or an uncertain reservation with the error |
| ThreadCreation.CrashAfterReport | src/codexThreadCreationReservations.ts:232-240 | a call that dies after a report leaves that stage and thread id on file |
| ThreadCreation.FailedCreationBlocks | src/codexThreadCreationReservations.ts:251-260 | a creation that fails stays uncertain with the last reported thread id and blocks every later run |
| ThreadCreation.StoredThreadIsFinal | src/codexThreadCreationReservations.ts:172-184 | with a thread id on file a call neither writes nor creates |
| ThreadCreation.ThreadIdEndsCreation | src/codexThreadCreationReservations.ts:165-261 | once a thread id is on file no later run creates or writes anything |
| ThreadCreation.CompletedIsReturned | src/codexThreadCreationReservations.ts:172-178 | in every run with crashes every later call returns a completed result and writes nothing |
| ThreadCreation.FreshCreationCompletes | src/codexThreadCreationReservations.ts:165-261 | a first call that is not cut short creates, leaves a completed reservation, and every later call of every run returns its result |
| ThreadCreation.ReservedNeverRetried | src/codexThreadCreationReservations.ts:172-184 | a reservation left `reserved` or `uncertain`, or an unreadable one, blocks every later call of every run |
| SessionResolver.CreationsNeverOverlap | src/codexSessionResolver.ts:68-97 | in every interleaving at most one creation of a key is unfinished |
| SessionResolver.RunningCreationIsShared | src/codexSessionResolver.ts:79-86 | while a creation runs, calls under its key start nothing and share its outcome |
| SessionResolver.CallReturnsEntry | src/codexSessionResolver.ts:79-97 | the entry a call leaves names the creation it returned, new or shared |
| SessionResolver.SuccessIsShared | src/codexSessionResolver.ts:68-97 | a success is shared by calls of its key for a minute after it was filed, and not longer |
| SessionResolver.FailureIsForgotten | src/codexSessionResolver.ts:89-97 | after a failure the next call of its key creates anew at once |
| SessionResolver.CreationMap.CreateIdempotently | src/codexSessionResolver.ts:68-97 | a call shares a running or recent creation of its key and otherwise starts one, changing nothing else |
| SessionResolver.CreationMap.FileOutcome | src/codexSessionResolver.ts:89-95 | a success stamps its own entry, a failure removes it, and a replaced entry stays |
| SessionResolver.UniquelyLatestThread | src/codexSessionResolver.ts:50-66 | returns the thread later than all others exactly when there is one |
| SessionResolver.ResolveSession | src/codexSessionResolver.ts:103-151 | the bound thread wins; an archived one is replaced or reported; otherwise the one match, the uniquely latest of several, an ambiguity, a creation or nothing |
| SessionResolver.MatchingInOrder | src/codexSessionResolver.ts:135-140 | the candidates are the unarchived threads of this name and workspace, in the order of the listing |
| ResolvedCreation.CallsNeverOverlap | src/codexSessionResolver.ts:68-97 | two calls on one reservation file, started through the resolver, are never both under way |
| ResolvedCreation.MoveKeepsInv | src/codexThreadCreationReservations.ts:165-261 | whatever steps of creations, settlings and restarts interleave, the file and history of a key are those of the one call under way |
| ResolvedCreation.ResolvedCreationsConfirmed | src/codexSessionResolver.ts:68-151 | in every such interleaving a confirmation that the first task is missing lies between two creations under one key |
| ResolvedCreation.UndisturbedCreationRuns | src/codexSessionResolver.ts:68-97 | a creation nothing disturbs goes through all its steps on file and is then shared when it succeeded, forgotten when it failed |
| MemoryDelivery.MemoryAgent.DeliverPrompt | src/memoryConsolidationAgent.ts:128-188 | a delivery performs its state writes, send and receipt read in order, cut off by a crash anywhere |
| MemoryDelivery.RunKeepsSafe | src/memoryConsolidationAgent.ts:47-188 | in every run of deliveries, crashes and restarts the pending mark on file guards each send that may have been accepted |
| MemoryDelivery.SecondSendWasSettled | src/memoryConsolidationAgent.ts:128-188 | before a second send the first one succeeded, was reported not started without a delivery id, or was read back as accepted under exactly the delivery id it reported last |
| MemoryDelivery.UnknownSendBlocksForever | src/memoryConsolidationAgent.ts:133-150 | after a possibly accepted delivery without an id no run of deliveries, crashes and restarts sends anything, and the mark stays on file |
| MemoryDelivery.CleanDelivery | src/memoryConsolidationAgent.ts:152-176 | with nothing pending a successful delivery sends the prompt once, marked on file before, and leaves no mark |
| MemoryDelivery.AcceptedReceiptFinishes | src/memoryConsolidationAgent.ts:133-150 | a pending prompt whose receipt says accepted is finished without being sent again |
| MemoryDelivery.FinishedWasSent | src/memoryConsolidationAgent.ts:128-188 | in every run with crashes and restarts a prompt is reported finished only after a send of exactly that prompt that succeeded or whose own delivery was read back as accepted |
| MemoryDelivery.FinishesOwnPrompt | src/memoryConsolidationAgent.ts:128-188 | a delivery finishes only its own prompt: sent now with success, or pending under its own hash and accepted |
| MemoryDelivery.ForeignMarkRefuses | src/memoryConsolidationAgent.ts:132-148 | a mark of another prompt, or one without a delivery id or binding, refuses every delivery outright, and no mark lets anything be sent |
| MemoryDelivery.SendsIff | src/memoryConsolidationAgent.ts:149-164 | without a mark a delivery sends its prompt, and only it, if and only if a usable binding was found |
| MemoryDelivery.FailedDelivery | src/memoryConsolidationAgent.ts:165-180 | what a failed send leaves: the id it reported, nothing if it did not start, and otherwise a mark without an id |
| MemoryDelivery.RestartReads | src/memoryConsolidationAgent.ts:47-77 | a restart reads the file as it is if its binding is usable, and otherwise nothing |
| MemoryDelivery.CrashForgets | src/memoryConsolidationAgent.ts:47-77 | a delivery cut short leaves in memory only what a restart reads |
| AgentPool.RankedByScore | src/messageAgentPool.ts:303-324 | ranking keeps the workers and orders them by score |
| AgentPool.MessageAgentPool.SelectWorker | src/messageAgentPool.ts:803-861 | the chain of fallbacks selects what the specification selects |
| AgentPool.SelectionInPool | src/messageAgentPool.ts:803-861 | a selection names a worker of the pool |
| AgentSelection.ScoreIs | src/messageAgentPool.ts:303-324 | what the best contact weighs, 1000 to 5000, and 6000 for a quoted session |
| AgentSelection.RankedBefore | src/messageAgentPool.ts:303-324 | equals rank by latest use, index, age and id |
| AgentSelection.SelectionIs | src/messageAgentPool.ts:803-861 | a heartbeat goes to the best-ranked worker that served one; otherwise the first ranked worker with the best offer wins: close or familiar and idle, idle, familiar and loadable, loadable, archived and then replaced |
| AgentSelection.NobodyOffers | src/messageAgentPool.ts:803-861 | when nobody offers anything, a full pool takes the best-ranked worker; else one is created if anything can be loaded |
| AgentSelection.CreatedAgent | src/messageAgentPool.ts:901-951 | a created worker has the manager's thread, the next index and this group as its only contact |
| AgentSelection.ChosenAgent | src/messageAgentPool.ts:650-681 | a chosen worker keeps its place and the others theirs; an archived one gets the thread that replaces it or the allocation fails |
| AgentSelection.AdoptedThread | src/messageAgentPool.ts:1036-1052 | a replaced thread changes nothing but the thread of its worker |
| AgentSelection.RemembersGroup | src/messageAgentPool.ts:1060-1073 | a worker remembers each group once, the newest last, and forgets only beyond a hundred |
| AgentPool.CreatesNewIff | src/messageAgentPool.ts:803-861 | a worker is created exactly when no worker is close, idle, loadable or archived, there is room or no worker at all, and something can be loaded |
| AgentPool.MessageAgentPool.AllocateWorker | src/messageAgentPool.ts:650-681 | the part of a delivery under the allocation lock: which worker serves the group, and the whole new pool |
| AgentPool.MessageAgentPool.constructor | src/messageAgentPool.ts:623-642 | a new pool keeps the best-ranked restored workers up to its cap |
| AgentPool.BestRankedFills | src/messageAgentPool.ts:623-642 | it drops none while there is room and invents none |
| AgentPool.PoolStaysWithinCap | src/messageAgentPool.ts:901-951 | over every run of allocations, each one step, and replaced threads the pool never exceeds its cap and never shrinks |
| AgentPool.HeartbeatReused | src/messageAgentPool.ts:803-861 | a worker that served a heartbeat takes the next one, whatever availability is reported |
| AgentPool.HeartbeatsCreateAtMostOne | src/messageAgentPool.ts:803-861 | a run of heartbeat groups creates at most one worker |
| AgentPool.QuotedRankFirst | src/messageAgentPool.ts:303-324 | a session whose message is quoted ranks above every other |
| AgentPool.QuotedSessionChosen | src/messageAgentPool.ts:650-681 | a delivery that quotes a message of a pool session is always allocated to such a session, without changing its thread |
| AgentPool.RememberedGroup | src/messageAgentPool.ts:1060-1073 | the serving worker remembers the group within the affinity limit |
| AllocationLock.OneAllocation | src/messageAgentPool.ts:889-899 | two allocations never run at once |
| AllocationLock.UndisturbedAllocates | src/messageAgentPool.ts:650-681 | choosing, asking the manager and committing, undisturbed, is one allocation and leaves the lock free |
| AllocationLock.ThreadReplacedAnytime | src/messageAgentPool.ts:1036-1052 | a replaced thread changes neither the lock nor a choice under way |
| AllocationLock.LockedPoolWithinCap | src/messageAgentPool.ts:889-951 | in every interleaving of deliveries, choices, commits and replaced threads the pool never exceeds its cap, although the cap is checked before the manager is asked |
| AllocationLock.LockedHeartbeatsCreateAtMostOne | src/messageAgentPool.ts:803-951 | however heartbeat deliveries interleave and whatever availability is reported, they create at most one worker |

## Left out

- Channel sends, HTTP, IPC sockets, process spawning, SQLite reads and the orchestration over them: their answers are arbitrary inputs of the models.
- JSON, SHA-256, regular expressions, collation and date parsing: identifiers stand for their collation rank, digests for the text they are taken of, times for numbers, and parsers are functions or already applied.
- Lock files and leases: each critical section is assumed to exclude others, and a file replaced atomically is either old or new.
- A torn last line of an append-only file (the identity log, the chat ledger) and a full disk are not modelled; a failed append of a ledger row leaves the file as it was.
- Time inside one call: a creation call and an update read the clock once.
- ConversationStore.RunsRefineOneLog: starts from a store whose index on file records the import; `ConversationImport.ReimportKeepsViewIff` says what happens otherwise.
- ConversationImport.FirstCallImports: what the older history files hold is an input, record normalization is field copying, and where records with and without numbers are merged the code's comparison is not an order, so the model puts those without first.
- ConversationStore.Store.AppendMessage: searches, sorting and de-duplication are functions on values; the file reads behind them are not separate steps.
- RecentMessages.RecentIsLogSuffix: reads one directory; merging several mirrored directories and skipping archives by their recorded times are left out.
- IdentityEvents.ReplicasConverge: assumes explicit and acyclic supersedes edges and one record kind per event; `IdentityEvents.OrderIrrelevantIff` is the exact condition for explicit edges, and legacy events depend on the order by design.
- IdentityLearning.IdentityLog.UpdateRelation: a patch holds parsed fields, so which malformed JSON value each parser refuses is not modelled, nor are fields explicitly set to null; speaking habits are opaque and evidence keeps only its message id and a note.
- IdentityLearning.LearningGrantsNothing: event ids are drawn fresh, as random UUIDs are; the texts of a lookup's unresolved hints and its relevant relations are not modelled.
- GroupingTimers.TimersStayExact: is about a queue that is not closed; a delivery in flight when the queue closes arms its timer again, and failures to write the state file are not modelled.
- GroupingTimers.FragmentsCannotPostpone: is about a group that waits without an attempt since; retries extend deadlines by design, and what is left after a success has the window of `GroupingTimers.RemainderWaits`.
- ThreadCreation.RunsPassAudit: calls for one key do not overlap; `ResolvedCreation.ResolvedCreationsConfirmed` derives that from the resolver within one scope, and nothing supplies it across processes.
- SessionResolver.ResolveSession: the creation it asks for is a result, left to the shared-creation map.
- MemoryDelivery.MemoryAgent.DeliverPrompt: finding or creating the agent's binding is one input, and white space is the ASCII kind.
- DesktopDelivery.DesktopBridge.ConfirmDeliveryReceipt: the grace period and the poll interval are the length of the list of polls.
- DesktopDelivery.DesktopBridge.Deliver: waiting between attempts and the time since which a thread is active are left out.
- RolloutScan.ScanRolloutBackwards: the parser of a line is a function, and reading a chunk always returns the bytes asked for; the result cache around the scan is left out.
- ChatLedger.LedgerNeverDuplicates: nobody else writes the ledger file.
- ChatLedger.LedgerFile.HistoryIds: the modification time of a cache stamp is an input that says whether it matches.
- AgentPool.MessageAgentPool.constructor: merging stored and detached affinities into the restored workers is left out.
- AgentPool.MessageAgentPool.AllocateWorker: titles, initialization prompts, reserved and initializing worker ids and merging of stored affinities are left out; availability is an arbitrary function.
- ReplyChain.ResolveReplyChain: appending resolved messages to the history file is left out.
