# Verification model of spk-mail

Dafny models of the two hard parts of spk-mail, its sync protocol and its content-addressed blob
store, with the smaller mechanisms around them, and proofs of what they guarantee.

Check everything with `dafny verify dfyconfig.toml`.

## How the model is built

Concurrent parts are transition systems: a state, the actions of the program, the server, the user
and the failures, and a `Next` relation in which any enabled action may happen. A result about
`Reachable(s)` holds over every run. One storage transaction is one action, because the store has a
single writer connection. Where the program updates fields in place or loops, there is also a class
or a method with the same branches, proved against the function the transition system uses. What such a
function means is stated once more over the plain tables, by index and with literal constants.

| module | what it covers |
|---|---|
| `Runs`, `Common` | runs and invariants of transition systems, small datatypes |
| `ImapClient`, `IdleProtocol` | EXISTS handlers, IDLE loop and session loop |
| `FolderSync`, `FolderPass`, `FlagDeltas` | resumable folder sync, the chunk loop on its own, CONDSTORE watermark, flag deltas |
| `WriterQueue` | store writer, its queue, acks and shutdown drain |
| `Tables`, `Storage`, `ThreadStats` | tables and transactions, thread rows against the fold over their messages |
| `Ledger`, `BlobPresence` | blob refcounts under every interleaving; when a needed blob has its file |
| `BlobClients`, `AttachmentClients` | each procedure that moves references, run on its own |
| `BlobFiles`, `BlobWriter` | blob files under concurrent writers and crashes; one write; the path scheme |
| `FlagRouting` | flipped flags to STORE commands in the right mailbox; the downloader's SELECT cache |
| `Supervisor`, `Events` | worker supervision; event emitter |
| `PartPaths`, `Filenames`, `SearchTokens`, `UidRanges` | MIME part identifiers, file-name cap, search tokens, UID ranges |

History variables (`wakeupDropped`, `blemished`, `unlinked`, `lost`, `bound`, `upTo`, ...) record the past for a
statement; no action's effect on the real state depends on them.

Standards: RFC 2177 (section 3), RFC 3501 (sections 2.3.1.1, 5.2, 6.3.1, 6.4.5, 6.4.8, 7.3.1),
RFC 7162 (sections 3.1.2.1, 3.1.4.1), the well-formed UTF-8 table of the Unicode Standard.

## Hypotheses

- No lost wake-up: no failed folder lookup has dropped the last notification since the last SEARCH.
  `FailedLookupLosesIff` says exactly which failed lookups do.
- Folder sync: passes on one folder do not overlap, and everything happens in one UIDVALIDITY epoch.
  That rows of a chunk arrive in UID order and that inserts succeed is not assumed; a message whose
  insert failed, or that a later row overtook, is `blemished`, and the claims are about the others.
- Watermark: about rows without a local-only edit whose message's last change does not fall between
  the row's read and the recorded baseline. A row in that window has missed a change (`DriftIff`).
- Ledger: a message's folder belongs to the message's account.
- Blob files: temporary file names are not reused; `BytesNeverChange` takes the digest to be
  collision free.
- Shutdown of the writer is taken to be free of panics.

## Where the code falls short, and exactly when

- A folder lookup that fails after an EXISTS consumes the notification without a SEARCH
  (`internal/sync/idle_session.go:130-133`). It loses an announced message if and only if nothing
  else announces it: `IdleProtocol.FailedLookupLosesIff`, reachable by `FailedLookupLosesWakeup`.
- `Idle` sends the replayed notification before anything reads the channel
  (`internal/imap/idle.go:62-64`); 16 notifications in between block it for good:
  `IdleProtocol.ReplayCanBlock`, `BlockedForever`, and the only way to come to rest early
  (`RestMeansStored`).
- References also leak where the result of `ClearAttachmentBlob` is discarded
  (`internal/api/attachment_stub.go:72`, `internal/storage/backfill.go:120`):
  `Ledger.LossesIdentified` lists every leaking statement, in both directions.
- A sweep's unlink can race a dedup hit, leaving a live link without its file
  (`BlobPresence.LinkWithoutFile`): exactly when at the unlink the row counts a link or token or a
  writer is on its way to it (`UnlinkHitsNeededIff`), and nothing else can (`NeededFileIff`). The
  healing reads give back exactly one reference (`Ledger.HealGivesBackOne`).
- A failed insert or an overtaken row is lost if and only if a message above it is stored, and then
  for good; otherwise the next SEARCH finds it: `FolderSync.GapIff`, `SkippedForever`, reachable by
  `FailedInsertLeavesGap` and `OvertakingLeavesGap`.
- Recording the first watermark without a sweep keeps older flag drift (`FolderSync.BaselineKeepsDrift`).
  Under the watermark a row has missed its message's last change if and only if the message changed
  between its read and the baseline (`DriftIff`), and the drift lasts until the message changes again
  (`DriftStays`). Every other unedited row under the watermark is right (`WatermarkSound`).
- A delta stream that fails midway leaves thread rows unrefreshed
  (`internal/sync/sync_folder.go:305-307`). Such a row is right if and only if the flags still sum up
  to it (`FlagDeltas.UnrefreshedIff`), and the next pass does not repair it, because the repeated
  deltas change no row (`RetryChangesNothing`).
- After a folder wipe or an account removal a surviving thread row is right if and only if the thread
  lost no message: `ThreadStats.SurvivorStats`, `SurvivorStatsOfAccount`.
- Removing a star deletes the first occurrence of the flag only, so the toggle negates `has_flagged`
  if and only if no message carries the flag twice: `ThreadStats.ToggleNegates`.
- A refused SELECT is not remembered in `currentSel`, so the next operation on the folder selected
  before is lost: `FlagRouting.StaleSelectionLosesOp`, with the exact condition in `CarriedOutIff`.
- `UIDsAbove` does not end if and only if the server names UID 4294967295: `UidRanges.InnerLoopEndsIff`.
- The part identifier of a message that is itself an attachment is empty and asks for the whole
  message, where section 6.4.5 of RFC 3501 calls it part 1: `PartPaths.MatchesStandardIff`.
- An account started before `Run` under a request that has ended stays registered with nothing
  running, and only such an account does: `Supervisor.StrandedIff`, `StartAfterRunNeverStrands`,
  `StartBeforeRunCanStrand`.
- The comment at `internal/events/events.go:13-15` says `Emit` drops `e.mu` before sending; the code
  holds it (`events.go:76-86`). The model follows the code; as a consequence an `Emit` never meets a
  closed subscription.

## Model

| member | source | states |
|---|---|---|
| ImapClient.Client.PushIdleNotif | internal/imap/client.go:54-70 | alone, a notification lands in the registered buffer or raises the missed flag; it is never dropped |
| ImapClient.HandoverLosesNothing | internal/imap/idle.go:46-77 | whichever critical section comes first, a notification handled around registration or exit is in the flag the next Idle takes or in a fresh channel with room |
| IdleProtocol.CoveredStep | internal/sync/idle_session.go:93-152 | every step but a failed lookup keeps each announced message covered by a travelling notification, a certain SEARCH or the current fetch |
| IdleProtocol.NoLostWakeup | internal/imap/idle.go:46-157 | unless a failed lookup dropped the last notification, in every reachable state each announced, unstored message is covered, handlers holding a dead channel included |
| IdleProtocol.InternalStepDescends | internal/imap/idle.go:79-150 | every step of handlers, loop and session descends in a well-founded order |
| IdleProtocol.RestMeansStored | internal/sync/idle_session.go:112-152 | the program can rest only with everything announced stored, or in the blocked replay |
| IdleProtocol.MaximalRunStores | internal/sync/idle_session.go:93-152 | every maximal run of internal steps stores what was announced at its start, or ends in the blocked replay |
| IdleProtocol.MaximalRunExists | internal/sync/idle_session.go:93-152 | such a run exists from every state, so the progress claim is not empty |
| IdleProtocol.FailedLookupLosesIff | internal/sync/idle_session.go:93-133 | a failed lookup loses an announced message exactly when nothing on the wire, in a handler, in the pipeline or in the flag still announces it |
| IdleProtocol.FailedLookupLosesWakeup | internal/sync/idle_session.go:130-133 | such a loss is reachable, and nothing is left to repair it |
| IdleProtocol.ReplayCanBlock | internal/imap/idle.go:62-64 | the blocked replay is reachable with no failed lookup |
| IdleProtocol.BlockedForever | internal/imap/idle.go:62-64 | no step, the session's timeout included, ends the blocked replay |
| FolderSync.ReachableInv | internal/sync/sync_folder.go:37-211 | rows truthful, downward closed, pass and watermark consistent, in every reachable state |
| FolderSync.GapFree | internal/sync/sync_folder.go:67-99 | below a stored UID every live, unblemished UID is stored, over runs interrupted anywhere |
| FolderSync.CompletePassStores | internal/sync/sync_folder.go:128-202 | a pass that ends its fetch has stored everything its SEARCH reported that is live and unblemished |
| FolderSync.WatermarkSound | internal/sync/sync_folder.go:256-325 | every row without local edit whose MODSEQ is at most the watermark has the server's flags, unless its message changed between its read and the baseline |
| FolderSync.DriftIff | internal/sync/sync_folder.go:271-318 | under the watermark a row has its message's last change exactly when that change is not after the row's read and at or before the baseline |
| FolderSync.WatermarkNeverRegresses | internal/storage/folders.go:49-54 | the watermark only grows and never passes the server's counter |
| FolderSync.SkippedForever | internal/storage/tx.go:190-195 | a gap below MAX(uid) stays a gap under every step |
| FolderSync.RowsFollow | internal/sync/sync_folder.go:286-304 | rows are added only as they were read, never overwritten by an insert, and changed only by a delta, which brings the server's flags and ends a local edit, or by a local edit |
| FolderSync.DeliveredKept | internal/sync/sync_folder.go:141-159 | a delivered message stays queued across the end of its pass until it is stored or its insert fails; only a crash drops it |
| FolderSync.GapIff | internal/sync/sync_folder.go:67-99 | between passes a missing live message is lost exactly when something above it is stored; otherwise the next SEARCH finds it, a failed insert included |
| FolderSync.FailedInsertLeavesGap | internal/sync/store_writer.go:75-77 | a failed insert with a success above it leaves such a gap although the pass completes |
| FolderSync.OvertakingLeavesGap | internal/sync/sync_folder.go:142-159 | a row out of UID order followed by a crash leaves such a gap |
| FolderSync.BaselineKeepsDrift | internal/sync/sync_folder.go:271-275 | a row in that window, with flags that differ from the server's, is reachable |
| FolderSync.DriftStays | internal/sync/sync_folder.go:276-304 | a row that is wrong under the watermark stays wrong until its message changes again |
| FolderSync.LaterWatermarkWouldLie | internal/sync/sync_folder.go:313-318 | recording the counter at the end of the sweep would claim a change never reported |
| FolderPass.Folder.SyncFolder | internal/sync/sync_folder.go:67-202 | whatever rows the chunks stream and wherever the pass is cut, exactly the rows of the complete chunks and those streamed of the cut one are added; the checkpoint is the least value above the cursor and every row of the complete chunks that does not fall behind the server's |
| FolderPass.InOrderIsPrefix | internal/sync/sync_folder.go:131-159 | answers in UID order deliver all of the SEARCH result when the pass is not cut, and otherwise exactly its beginning: 200 for each complete chunk and what was streamed of the cut one |
| FolderPass.DeliveredIff | internal/sync/sync_folder.go:131-175 | by chunk and row, what any pass delivers |
| FolderPass.ResumesIff | internal/sync/sync_folder.go:67-99 | the next pass finds everything still owed exactly when nothing delivered lies above something that was not |
| FolderPass.Folder.MaxUid | internal/storage/tx.go:190-195 | the largest stored UID, 0 when there is none |
| FolderPass.Resumes | internal/sync/sync_folder.go:67-99 | cutting a pass anywhere and searching again from the new cursor finds exactly what was still owed, fetches nothing twice and ends where one pass would |
| FlagDeltas.ApplyDeltas | internal/sync/sync_folder.go:285-304 | the last delta of each UID wins, unknown UIDs are skipped, the changed rows are counted, and all threads outside the collected set still agree |
| FlagDeltas.LastDeltaWins | internal/sync/sync_folder.go:285-304 | a row has the flags of the last delta that names it, keeps them when none does, and nothing else of it changes |
| FlagDeltas.ChangesCountRows | internal/sync/sync_folder.go:299-304 | when no message is named twice, the count is the number of rows whose flags end up different |
| FlagDeltas.SyncFlagDeltas | internal/sync/sync_folder.go:256-325 | flags, count, watermark and thread rows after each outcome; the deltas are applied exactly when a recorded watermark is behind the server, and the watermark never passes a delta that was not applied; after a failed stream exactly which rows are right |
| FlagDeltas.UnrefreshedIff | internal/sync/sync_folder.go:285-307 | without the refresh a thread row is right exactly when unread count and star come out as before, in particular when no message of it changed |
| FlagDeltas.FailedStreamLeavesDrift | internal/sync/sync_folder.go:305-307 | a stream failing midway can leave a thread row wrong |
| FlagDeltas.SweepsRepair | internal/sync/sync_folder.go:282-312 | whatever inserts, mark-reads, toggles and other passes run between the deltas and the refreshes, only threads some pass has yet to refresh or gave up on can be wrong; when all passes finish, none is |
| FlagDeltas.RetryChangesNothing | internal/storage/messages.go:68-70 | streaming the same deltas of distinct messages again changes no row, so the retry refreshes no thread |
| WriterQueue.ExactlyOnceInOrder | internal/sync/store_writer.go:41-121 | processed, in hand and queued together are the submissions in order; nothing is processed twice |
| WriterQueue.AckBarrier | internal/sync/sync_folder.go:141-175 | a producer's WaitGroup is never negative and is zero exactly when all it submitted is processed |
| WriterQueue.StopsEmptyOrExpired | internal/sync/store_writer.go:94-121 | Run returns with everything submitted processed, unless the grace period is over |
| WriterQueue.ShutdownProgresses | internal/sync/store_writer.go:62-82 | once cancelled a step is always possible and each brings the loop closer to stopping |
| WriterQueue.StoreWriter.DrainOnShutdown | internal/sync/store_writer.go:94-121 | the pending message is written first, then the queue in order; what is dropped is what the deadline cut off |
| Ledger.LedgerBalances | internal/storage/blobs.go:61-113 | over every interleaving and crash refcount = links + held tokens + lost references, so it never drops below the links |
| Ledger.NoDanglingReference | internal/storage/messages.go:448-566 | every link and every token names an existing blob row with a positive count |
| Ledger.LossesIdentified | internal/storage/attachments.go:87-115 | the lost references grow at exactly the listed statements |
| Ledger.RawPathLosesNothing | internal/api/raw.go:193-218 | capture, lazy fetch, healing and retention lose nothing when their decrements succeed |
| Ledger.QuiescentCountIsLinks | internal/storage/blobs.go:103-113 | with nothing in flight and nothing lost, refcount is the link count |
| Ledger.CollectorSafe | internal/storage/blobs.go:174-229 | the row a sweep deletes has no link, token or lost reference, whatever ran between listing and delete |
| Ledger.OnlyTheCollectorDeletes | internal/storage/blobs.go:213-229 | no other step removes a blob row |
| Tables.DrainMatchesCascade | internal/storage/tx.go:104-119 | the drain over both columns takes from each blob as many references as the removal takes links |
| Tables.CascadeIsScope | internal/storage/accounts.go:73-95 | the account's cascade removes exactly the messages the account-scoped drain counted |
| Ledger.DrainIsPerRowRelease | internal/storage/tx.go:157-171 | the grouped update equals one decrement per row, in any order |
| Ledger.HealGivesBackOne | internal/api/raw.go:133-137 | a healing read of either kind removes its link at once, and its release gives back exactly one reference to that blob, whatever runs in between |
| BlobPresence.NeededFileIff | internal/storage/blobs.go:174-206 | a blob that is linked, held or being written has its file exactly when no sweep has unlinked it since it was last written |
| BlobPresence.UnlinkHitsNeededIff | internal/storage/blobs.go:180-191 | an unlink takes a needed file exactly when, at that step, the row counts a link or token or a writer stands between its file and its reference |
| BlobPresence.LinkWithoutFile | internal/storage/blobs.go:174-206 | the race is reachable: all procedures done, nothing lost, and a live link whose file a sweep has taken |
| Storage.Store.InsertOrIncBlob | internal/storage/blobs.go:61-95 | the digest's row gains one reference, or is created with one |
| BlobClients.DecSlack | internal/storage/blobs.go:103-113 | a decrement takes one reference off this blob and none off any other |
| BlobClients.PersistLinked | internal/storage/messages.go:448-483 | what each answer obliges the caller to give back so that no reference drifts: nothing, the old blob, or the new reference |
| Storage.Store.SweepExpiredRaw | internal/storage/messages.go:529-566 | clears exactly the slots older than the cutoff and reports their blobs |
| Storage.CountLinks | internal/storage/tx.go:159-164 | the grouped count: for every blob the number of scoped rows that point at it |
| Storage.Store.DecBlobRefs | internal/storage/tx.go:157-171 | counting first and subtracting once per blob drains both columns by exactly the scoped rows |
| Storage.Store.DeleteMessagesByFolder | internal/storage/tx.go:104-120 | exactly the folder's messages go, no blob's count drifts from its links, no thread is left empty |
| Storage.Store.DeleteAccount | internal/storage/accounts.go:73-104 | exactly the account's messages go, without drift or empty threads; an unknown account is reported |
| Tables.BulkDeleteRows | internal/storage/tx.go:104-120 | either bulk delete removes exactly the messages of its folder or account with their attachments |
| Tables.BulkDeleteThreads | internal/storage/tx.go:180-184 | the threads left are those that keep a message, with their rows unchanged |
| Tables.BulkDeleteBlobs | internal/storage/tx.go:157-171 | each blob row loses one reference for every link that goes and keeps the rest |
| Tables.AccountGone | internal/storage/accounts.go:73-104 | an account goes with its folders; an unknown one leaves both tables alone |
| Storage.Store.InsertParsedMessageBundle | internal/storage/tx.go:61-91 | all rows of the bundle and its thread, or an unchanged store; it succeeds exactly when thread, account and folder exist and the UID is new |
| ThreadStats.InsertWrites | internal/storage/tx.go:64-88 | the message row is the bundle's with its thread and an empty raw slot, each attachment row is the bundle's with this message, every other row is unchanged |
| ThreadStats.InsertThread | internal/storage/tx.go:65-73 | a new thread takes the bundle's subject, an existing one keeps its own, other threads stay as they are |
| Storage.Store.UpdateThreadStats | internal/storage/tx.go:234-249 | the row comes to agree with the thread's messages and keeps its subject; no other row changes |
| ThreadStats.AgreesIff | internal/storage/tx.go:234-249 | column by column, what the row must say: counts, star, attachment, and the latest date or 0 |
| ThreadStats.RefreshMeans | internal/storage/messages.go:215-223 | a refresh makes the touched rows right, keeps subjects and leaves everything else |
| Storage.Store.RefreshThreadStatsForSet | internal/storage/messages.go:215-223 | refreshing a set one by one is refreshing it at once |
| Storage.Store.MarkRowsAsSeen | internal/storage/messages.go:180-213 | appends the flag where it was missing and reports exactly those messages and their threads |
| Storage.Store.MarkMessagesRead | internal/storage/messages.go:229-260 | marks the listed ids that exist, reports those that flipped, refreshes their threads |
| Storage.Store.MarkFolderMessagesRead | internal/storage/messages.go:271-295 | the same for everything unread in a folder |
| ThreadStats.MarkReadWrites | internal/storage/messages.go:180-213 | \Seen is appended to the listed messages that lack it; no other flag and no other message changes |
| Storage.Store.ToggleThreadFlagged | internal/storage/messages.go:307-393 | the toggle on all rows of the thread, the messages it reports as changed, and the action reported: noop exactly on a thread without messages, added with the one message starred, which no message of the thread postdates, removed with messages that each lose one star |
| ThreadStats.ToggleMeans | internal/storage/messages.go:307-382 | read off the tables, when a toggle does nothing, stars or unstars, and exactly what it writes |
| Storage.Store.UpdateFlagsByUID | internal/storage/messages.go:57-87 | replaces one message's flags; unknown UIDs are an error |
| Storage.Store.SetMessageRawBlob | internal/storage/messages.go:448-480 | the slot names the blob with the new capture time in all three cases, and the answer says what was there |
| Storage.Store.ClearMessageRawBlob | internal/storage/messages.go:505-520 | the slot is emptied and its blob returned; an empty slot changes nothing |
| Storage.Store.SetFolderHighestModSeq | internal/storage/folders.go:45-54 | writes only a greater value, and nothing else |
| Tables.WatermarkCallsCommute | internal/storage/folders.go:45-54 | two watermark calls in either order leave the greater value; a stale one that lands late changes nothing |
| ThreadStats.StatsFrame | internal/storage/tx.go:234-249 | a thread's fold depends on its own messages only |
| ThreadStats.RefreshTouched | internal/storage/messages.go:215-223 | refreshing the touched threads makes them right and keeps every other row as right as it was |
| ThreadStats.InsertKeepsStats | internal/storage/tx.go:61-91 | inserting a bundle keeps every right row right and puts the message in its thread |
| ThreadStats.MarkReadKeepsStats | internal/storage/messages.go:229-260 | marking read keeps every right row right although only flipped threads are refreshed |
| ThreadStats.MarkReadCount | internal/storage/messages.go:180-213 | unread_count drops by exactly the messages of the thread that flipped |
| ThreadStats.ToggleKeepsStats | internal/storage/messages.go:307-385 | toggling keeps every right row right |
| ThreadStats.TogglePreservesOthers | internal/storage/messages.go:337-382 | other flags keep value and order in every message; other messages are untouched |
| ThreadStats.ToggleNegates | internal/storage/messages.go:324-385 | has_flagged is negated if and only if no message carries the flag twice |
| ThreadStats.ToggleTwice | internal/storage/messages.go:307-393 | toggling twice from an unflagged thread restores the tables exactly |
| ThreadStats.StatsAlwaysAgree | internal/storage/tx.go:61-91 | through every run of inserts, mark-reads and toggles all thread rows equal the fold |
| ThreadStats.BulkDeletesLeaveNoOrphans | internal/storage/tx.go:180-184 | after either bulk delete no thread is without messages |
| ThreadStats.SurvivorStats | internal/storage/tx.go:104-119 | a surviving thread row is right if and only if the thread lost no message |
| ThreadStats.SurvivorStatsOfAccount | internal/storage/accounts.go:73-95 | the same after an account removal, for threads that span accounts |
| BlobClients.PersistKeepsSlack | internal/sync/store_writer.go:247-272 | whatever the link answers, register-link-undo leaks nothing |
| BlobClients.PersistLinks | internal/api/raw.go:193-218 | when it succeeds the message is linked to the row of its digest and nothing else changes |
| BlobClients.PersistRaw | internal/api/raw.go:193-218 | the procedure leaks nothing on any path and, unless the link fails, ends with the message linked to the row of the digest |
| BlobClients.TryCached | internal/api/raw.go:112-139 | bytes of the linked digest, or the link cleared and one reference given back; an I/O error changes nothing |
| BlobClients.GetAttachmentPath | internal/api/attachment_stub.go:31-57 | an existing file of the linked digest, or the row pending again and one reference given back |
| BlobClients.SweepOnceAt | internal/sync/raw_sweeper.go:47-62 | expired slots cleared and as many references given back, blob by blob |
| BlobClients.SweepReclaims | internal/storage/blobs.go:142-207 | an undisturbed pass reclaims exactly the zero-reference blobs it can unlink: rows, files and both counters |
| BlobClients.SweepBlobs | internal/storage/blobs.go:174-207 | a row goes exactly when it counts no reference and its file could be unlinked, a file exactly when it is that of such a row, and both counters say so |
| BlobClients.SizesAre | internal/storage/blobs.go:195-203 | the byte counter adds up the sizes of the reclaimed rows |
| AttachmentClients.LinkSlack | internal/sync/attachment_downloader.go:111-119 | exactly which references a downloader's or backfill's row leaks |
| AttachmentClients.StepKeepsSlack | internal/storage/backfill.go:114-147 | a backfilled row leaks nothing, whatever happens to its file |
| AttachmentClients.Backfill | internal/storage/backfill.go:93-164 | a pass leaves each listed row as its file deserves, other rows alone, the ledger balanced, and counts the migrated |
| BlobFiles.ReachableInv | internal/fsutil/blob.go:35-137 | bindings complete and synced, writers' files disjoint, in every reachable state |
| BlobFiles.BlobIntegrity | internal/fsutil/blob.go:35-137 | what is found at a blob's path hashes to its digest, over writers, EXDEV copies, sweeps and crashes |
| BlobFiles.ReturnPlaces | internal/fsutil/blob.go:60-101 | the digest returned is that of the input and its blob is in place at that moment, whatever was unlinked before |
| BlobFiles.ReturnedIsStored | internal/fsutil/blob.go:60-101 | afterwards the blob is in place exactly as long as no sweep has unlinked it since its name was last bound |
| BlobFiles.BytesNeverChange | internal/fsutil/blob.go:19-30 | no step, rename races and crashes included, changes the bytes at a blob's path |
| BlobFiles.ReturnCleans | internal/fsutil/blob.go:41-48 | a call leaves no temporary name behind, whichever way it ends |
| BlobWriter.Volume.CopyHashing | internal/fsutil/hash.go:11-19 | the bytes hashed are the bytes written |
| BlobWriter.ConcatIs | internal/fsutil/hash.go:11-19 | the chunks stand in the order they were read |
| BlobWriter.Volume.CopyAndRename | internal/fsutil/blob.go:112-137 | complete synced copy under the destination, or no name changed |
| BlobWriter.Volume.WriteContentAddressed | internal/fsutil/blob.go:35-101 | digest and size of everything read, its content in place, an existing blob untouched; a failure changes no name; no litter |
| BlobWriter.BlobPathInjective | internal/storage/blobs.go:33-43 | no two digests share a path, malformed ones included |
| BlobWriter.BlobPathIs | internal/storage/blobs.go:33-43 | two levels of two digits; what is too short to be a digest has a place of its own |
| FlagRouting.Group | internal/api/thread_stub.go:260-264 | one group per occurring (account, folder), with its UIDs in order |
| FlagRouting.NothingLost | internal/api/thread_stub.go:260-264 | each change is at its place in its own folder's group |
| FlagRouting.OrderKept | internal/api/thread_stub.go:359-363 | no place is used twice |
| FlagRouting.NothingInvented | internal/api/thread_stub.go:359-363 | each place of a group is a change of that folder |
| FlagRouting.OneFolder | internal/api/thread_stub.go:326-331 | changes of one folder make one operation with all their UIDs |
| FlagRouting.RoutedRight | internal/sync/account_worker.go:166-212 | every STORE carried out is on the mailbox of the operation's own folder, whatever the server answers |
| FlagRouting.CarriedOutIff | internal/sync/account_worker.go:180-211 | exactly when an operation reaches the server |
| FlagRouting.LookupRemembers | internal/sync/account_worker.go:180-200 | a folder name found in the store is remembered for later operations and changes no other folder's name |
| FlagRouting.NameOfFirst | internal/sync/account_worker.go:166-173 | the first entry with the id decides the name |
| FlagRouting.SentIsCarried | internal/sync/account_worker.go:174-213 | what a run sends is exactly the operations carried out, in order, each on its folder's true mailbox |
| FlagRouting.StaleSelectionLosesOp | internal/sync/account_worker.go:202-208 | a refused SELECT loses the next operation on the folder selected before |
| FlagRouting.HealthyDelivers | internal/sync/account_worker.go:175-213 | when nothing is refused and every folder is in the snapshot or the refreshed list, every operation is carried out |
| FlagRouting.EndToEnd | internal/api/thread_stub.go:250-266 | whatever the server answers, a message is flagged in a mailbox exactly when it is one of the account's changes there and its operation is carried out, with the right sign and flag |
| FlagRouting.EveryChangeMade | internal/api/thread_stub.go:250-266 | with nothing refused and every folder known, every change is made and no other |
| FlagRouting.Worker.Run | internal/sync/account_worker.go:174-213 | the loop sends exactly the operations carried out, in order, and keeps every STORE on its own folder's mailbox |
| FlagRouting.DownloadOnce | internal/sync/attachment_downloader.go:66-97 | every body part is asked of the row's own mailbox; without refusals every row with a known folder is fetched |
| Supervisor.LiveMeansOwner | internal/sync/engine.go:284-334 | a supervisor with a live context owns workers[id]; the WorkerFor check never stops one that ctx.Done would not |
| Supervisor.ExactlyOneSupervisor | internal/sync/engine.go:190-259 | a registered account has exactly one supervisor with a live context, and it is still looping |
| Supervisor.RestartIsClean | internal/sync/engine.go:190-259 | stop and start yield a new supervisor while the old one can only run down |
| Supervisor.DoneRunsDown | internal/sync/engine.go:294-334 | once its context is done every step of a supervisor brings it closer to its end, with at most one more run of the worker, and nothing revives it |
| Supervisor.DoneCanStep | internal/sync/engine.go:294-334 | until then some step of it is possible |
| Supervisor.DisownedLeaves | internal/sync/engine.go:318-325 | a supervisor that comes to the ownership check after its account was stopped never launches again |
| Supervisor.StrandedIff | internal/sync/engine.go:196-212 | while the engine lives a registered account has no live supervisor exactly when the context its start derived from is done |
| Supervisor.StartAfterRunNeverStrands | internal/sync/engine.go:196-212 | an account started after Run keeps a live, looping supervisor as long as that start is registered and the engine lives |
| Supervisor.StartBeforeRunCanStrand | internal/sync/engine.go:196-199 | stranding is reachable: registered, nothing running, and starting again does nothing |
| Supervisor.StreakIs | internal/sync/engine.go:307-309 | the attempt index is the distance back to the last healthy run |
| Supervisor.BackoffShape | internal/sync/engine.go:285-288 | waits never shrink while runs fail, reset after a healthy run, and reach five minutes at the sixth |
| Supervisor.DelayIs | internal/sync/engine.go:285-326 | each wait by the number of short runs since the last healthy one: 1, 2, 5, 15, 60, then 300 seconds |
| Supervisor.Supervise | internal/sync/engine.go:284-334 | the loop sleeps by the table, index always in range |
| Supervisor.Engine.StartAccount | internal/sync/engine.go:190-212 | afterwards the account is registered, no supervisor of it but that one is uncancelled, and no other account changes |
| Supervisor.Engine.StopAccount | internal/sync/engine.go:245-259 | afterwards every supervisor the account ever had is cancelled, and no other |
| Events.NoSendAfterClose | internal/events/events.go:28-52 | an Emit inside a subscription finds it open |
| Events.CloseEnds | internal/events/events.go:41-74 | when Unsubscribe returns the subscription is closed and off the list, and stays so |
| Events.NoDeadlock | internal/events/events.go:57-87 | every active thread can move, or the holder of the lock it waits for waits for nobody and can move now; no waiting is circular and no consumer is needed |
| Events.LockComesFree | internal/events/events.go:57-87 | each move of the emitter lock's holder brings its release closer and no other step puts it off |
| Events.NextSubIsFree | internal/events/events.go:61-74 | an Emit never waits for a subscription's lock |
| Events.StreamLaw | internal/events/events.go:54-87 | a stream is, in order, the events emitted while subscribed minus the dropped ones |
| Events.DroppedOnlyWhenFull | internal/events/events.go:28-39 | an event is dropped only on a buffer holding 64 |
| Events.Emitter.Emit | internal/events/events.go:76-86 | every subscriber with room gets the event, whatever the others do |
| Events.Emitter.Unsubscribe | internal/events/events.go:61-74 | removes that subscription only, closes it, and may be repeated |
| PartPaths.Itoa | internal/mime/parser.go:359-369 | the decimal numeral |
| PartPaths.DecimalIs | internal/mime/parser.go:359-369 | that numeral has the value and no leading zeros |
| PartPaths.DigitsSnoc | internal/imap/fetch.go:363-365 | digit strings are read in base ten |
| PartPaths.AtoiItoa | internal/imap/fetch.go:363-365 | decimal parsing inverts itoa on every int |
| PartPaths.AtoiUnsigned | internal/imap/fetch.go:363-365 | digits give their value up to the largest 64-bit int; anything without a sign that is no digit string is rejected |
| PartPaths.AtoiSigned | internal/imap/fetch.go:363-365 | one sign is allowed, within the range of a 64-bit int |
| PartPaths.ParsePartPath | internal/imap/fetch.go:355-367 | the numbers between the dots, in order |
| PartPaths.PartPathWord | internal/imap/fetch.go:355-367 | word by word between the dots; words that are no number are skipped |
| PartPaths.RoundTrip | internal/imap/fetch.go:355-367 | reading a part identifier gives the path it was written from |
| PartPaths.ParsedMessage.Walk | internal/mime/parser.go:86-167 | succeeds exactly when depth stays within 64 and every body that is read is readable, and appends the identifiers of the attachments in order |
| PartPaths.TooDeepIff | internal/mime/parser.go:86-89 | too deep means that some entity lies below 64 levels |
| PartPaths.ReadableIff | internal/mime/parser.go:119-167 | readable means that every entity that is no multipart has a readable body |
| PartPaths.AtChild | internal/mime/parser.go:121-146 | parts are numbered from one, and paths descend through multiparts only |
| PartPaths.PathsAreAttachments | internal/mime/parser.go:119-145 | the collected paths lead to exactly the attachments, each once |
| PartPaths.PathsAscend | internal/mime/parser.go:121-146 | attachments are collected in reading order |
| PartPaths.PartIDsLocate | internal/mime/parser.go:86-146 | each identifier reads back as the path of its own entity; identifiers are distinct and at most 64 deep |
| PartPaths.MatchesStandardIff | internal/imap/fetch.go:352-358 | the path is the standard's part number exactly for multipart messages |
| Filenames.Truncate | internal/mime/parser.go:317-338 | no index out of range, valid UTF-8 of 197 to 200 bytes, extension of at most 100 bytes kept, cut at the last rune that fits |
| Filenames.EncodingIsRune | internal/mime/parser.go:331-337 | the encoding of every Unicode scalar value is one rune |
| Filenames.RuneIsEncoding | internal/mime/parser.go:331-337 | every rune is the encoding of a scalar value |
| Filenames.FindExt | internal/mime/parser.go:323-326 | the extension starts at the last dot of the last path element |
| SearchTokens.Tokenize | internal/storage/search_parser.go:71-94 | the loop computes the scan the following rows characterise |
| SearchTokens.TokensWellFormed | internal/storage/search_parser.go:71-94 | tokens are non-empty and hold no unquoted space; only the last may leave a quotation open |
| SearchTokens.OpenIff | internal/storage/search_parser.go:80-85 | a quotation is open after an odd number of quotation marks |
| SearchTokens.ConcatIsStripped | internal/storage/search_parser.go:71-94 | tokens concatenate to the query minus its unquoted spaces |
| SearchTokens.JoinIsSqueezed | internal/storage/search_parser.go:71-94 | tokens are cut at the unquoted spaces and nowhere else |
| SearchTokens.RetokenizeSame | internal/storage/search_parser.go:71-94 | tokenizing the space-joined tokens gives the same list |
| SearchTokens.SameTokensIff | internal/storage/search_parser.go:71-94 | two queries have the same tokens exactly when they squeeze to the same text |
| SearchTokens.SpacingIsIrrelevant | internal/storage/search_parser.go:21-57 | what a query asks for depends on that normal form only |
| SearchTokens.FieldsAre | internal/storage/search_parser.go:25-55 | every token is used once: operator values, accounts and match terms stand in their own field, in order |
| SearchTokens.TokenAdds | internal/storage/search_parser.go:25-55 | what one more token adds to each field |
| SearchTokens.OperatorIff | internal/storage/search_parser.go:26-29 | which tokens are operators, with their key and value |
| SearchTokens.UnreadIff | internal/storage/search_parser.go:49-52 | the unread switch is on exactly when a plain token asks for it |
| SearchTokens.AttachmentIff | internal/storage/search_parser.go:36-39 | the attachment switch is on exactly when a has: operator asks for it |
| UidRanges.InnerLoopEndsIff | internal/imap/fetch.go:99-103 | the range loop ends exactly when the range stops below the largest UID |
| UidRanges.UidsAbove | internal/imap/fetch.go:78-107 | exactly the named UIDs above the bound, ascending for sorted ranges |

## Left out

- Ledger.LossesIdentified: counts a lost reference whether or not the retried work later takes a new one.
- FolderSync.GapFree: says nothing about blemished messages; the gap they leave is real.
- FolderSync.WatermarkSound: one UIDVALIDITY epoch; workers upsert uid_validity 0 on every start and a wipe keeps highest_modseq, so epochs are not told apart after a restart.
- FolderSync.CompletePassStores: the persisted uid_next checkpoint is not part of this state, because the cursor is MAX(uid); `FolderPass` has it.
- BlobPresence.NeededFileIff: files that vanish other than by a sweep's unlink, by a user's hand or a power cut, are not modelled; the healing reads answer those too.
- FolderPass.Folder.SyncFolder: the writer stores each message as it is delivered; queueing, failed inserts and everything concurrent are in `FolderSync`.
- IdleProtocol.NoLostWakeup: the store step takes in all that was found; a sync that fails midway ends the session, which is the bounce of the model.
- FlagDeltas.SyncFlagDeltas: runs undisturbed, with refreshes and watermark write that succeed; `SweepsRepair` has the interleavings and the failing refreshes.
- FlagDeltas.SweepsRepair: bulk deletes are not among the steps; `ThreadStats.SurvivorStats` says what they leave behind.
- FlagRouting.RoutedRight: each folder row has one mailbox name for the whole run; operations refused by a full queue never reach the drain and are not part of it.
- Supervisor.ExactlyOneSupervisor: worker side only; the downloader's map and goroutines are not modelled.
- BlobFiles.ReturnedIsStored: nothing is claimed across a crash, because syncing the directory is best effort in the code.
- BlobWriter.Volume.CopyAndRename: the copy is one step here; `BlobFiles` has it byte by byte.
- PartPaths.PartIDsLocate: parts are those read before the end of the multipart or its first malformed boundary.
- Filenames.Truncate: starts from the cleaned name; header decoding and rune filtering come before it.
- SearchTokens.SpacingIsIrrelevant: match terms stay a list, not yet joined with spaces; case folding, number parsing and quoting are parameters; whether a match expression is well formed for tokens with inner quotes is not claimed.
- BlobClients.SweepBlobs: no other activity; races are in `Ledger`.
- JSON flag arrays are sequences of strings; malformed JSON, SQL text, FTS5 and schema details beyond keys and cascades are not modelled.
- Row ids the database assigns and the rows a SELECT returns are parameters.
- Network, TLS, IMAP wire format, clocks and timers: steps that may happen at any time.
- SHA-256 is a function parameter; encryption, key storage and HTML sanitising are not part of this model.
- Raw capture's date window and thread resolution by message id or subject: they decide whether a step happens, not what it keeps.
- User interface, tray, HTTP and SSE transport, profiles, ring buffer, display-name helpers: correct but easy.
