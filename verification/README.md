# A verified model of the broker node

The broker node takes a file cut into chunks, attaches the chunks to the tangle and buries PRL along the
way. Its state lives in database rows and key-value stores that periodic jobs load, change and write back,
while the tangle and the Ethereum chain answer as they like. This project models the algorithms and state
machines of those jobs in Dafny 4.11 and proves what they keep. `dafny verify dfyconfig.toml` checks all of it.

What is covered, one module to a part of the program:

- **Upload sessions.** `SessionCursors` gives the two cursors of a session and what each update does to them;
  `UploadSessions` has the row, the objects holding a private copy of it, and the updates as the loops they
  are; `TangleCheck` is the comparison of chunks with the tangle; `TreasureMerge`, `OrderedReads`,
  `AttachJob` and `VerifyJob` are the two jobs. `CursorProtocol` interleaves all workers, each with its own copy
  of the row and writing the whole row back, with the purge that deletes it. `AttachCursor` has
  what the attach cursor proves in it. `StoreRuns`, `AttachRuns`, `VerifyRuns` and `PassRuns` prove that what
  arriving data, a move, a batch of the attach job, a page of the verify job or a whole pass of either does to the
  row and to the chunk stores is a run of that protocol; a protocol state has the indexes whose chunk each store
  holds. `PurgeJob` is the purge, whose moves, finished or broken off, are runs as well.
- **Chunk database.** `BadgerKeys`, `ChunkStores` and `ChunkDatabase`: keys, the in-progress and completed
  stores, split transactions, moves and the combined read. Every committed state is kept in a ghost history.
- **Addresses.** `HashChain`: the chain of hashes, its storage in batches, and the three ways of addressing.
- **Buried indexes.** `BuriedIndexes`: stretching data indexes around one treasure per sector.
- **Money.** `TreasureBurial`, `Claims` and `BrokerPayments`: jobs whose sub-steps go over the rows of a table and
  overwrite them; `RowJobs` says what a job as a whole does to a row.
- **Codecs.** `Trytes`: text and bytes as trytes, 9-padding and the stopper.

Hash functions, the tangle, the chain, the random source and time-outs are parameters or arbitrary choices,
so every statement holds for all of their answers. Floating point is used by the program only on integers
that it represents exactly and is modelled by integers.

## What the proofs found

- The attach cursor proves as much as the verify cursor as long as it is only moved by matches
  (`AttachCursor.BehindAttachConfirmed`). Each of the three other ways to move it is enough to break that: in every
  file sending, or declaring the attachment finished, can pass any index unconfirmed; handing chunks to a webnode can
  pass any but the last of the scan (`SendingPassesUnconfirmed`, `AdjustingPassesUnconfirmed`,
  `WebnodePassesUnconfirmed`). What saves a session is the verify cursor.
- Treasure indexes can lie outside the file they are for. `BuriedIndexes.TreasuresInsideIff` says for which numbers of
  sectors and chunks, both of which come from the client, no digest can bring that about; consistent numbers can fail
  (`TreasureBehindTheEnd`). The cursors do not leave the file all the same: the theorems about them hold for every set
  of treasure indexes, because no hash is ever completed outside the file: there is none in a new database
  (`HashChain.NewIsInside`), and neither filling nor moving makes one (`FillingKeepsInside`, `MovingKeepsInside`). So a
  scan stops at such an index.
- One chunk more is fetched than the channels have room for (`UploadSessions.FetchAsksForOneMore`), and the attach
  cursor can pass it although it is not handed over: `AttachJob.PassedUnsentIff` says exactly when. When the search
  for addresses fails, a batch leaves its unskipped chunks to a later run (`AttachJob.DroppedIff`).
- A reader of both stores is meant not to notice that chunks are moved. For the bare move of a whole file that is so
  exactly when no chunk has its hash in one store and its message only in the other
  (`ChunkStores.FinishedMoveUnseenIff`, on stores that agree where both hold a key; `ChunkStores.SplitChunkAppears`).
  The jobs never meet such a chunk: a treasure that a job moves was read whole from a store, and a session that the
  purge finds completed has every chunk of the file whole in a store (`PurgeJob.CompletedIsHeld`). So no reader notices
  a purge, at none of its commits, whether it finishes or breaks off (`PurgeJob.PurgeSession`).
- `GetChunkForWebnodePoW` writes the first session's row whichever session gave the chunk, because the loop
  variable shadows the index used after the loop; with no session it panics.
- The comparison with the tangle replaces what an earlier page of 1000 transactions had at an address, so a match can
  be hidden: the exact condition is in `TangleCheck.PagingHidesMatchesIff`, and pages that do it exist for every
  chunk whose message is made of trytes and fits into a transaction (`TangleCheck.MatchHiddenByLaterPageIff`).
- Merged treasure indexes are absolute, while stretching compares them as offsets in a sector. A file is covered
  exactly if and only if it has one sector, or every treasure but the first happens to be the last chunk of its
  sector (`BuriedIndexes.MergedCoverIff`; `FiveSectorsCovered` is such a file). A file that reaches beyond the start
  of its last sector is then covered only if it has one sector, and otherwise a data chunk is stored where the last
  treasure goes (`BuriedIndexes.MergedIndexesCoverIff`, `LastTreasureOverwritten`).
- The PRL check of a burial passes without any PRL exactly when nothing was to be buried
  (`TreasureBurial.ConfirmedWithoutPRLIff`).
- A failed gas reclaim in the unused-PRL job is neither retried nor purged (`Claims.FailedReclaimIsForEver`).
- A beta broker's payment row can be deleted without payment (`BrokerPayments.BetaRowLostUnpaid`), and every row of
  the same two addresses goes with it (`BrokerPayments.PairGoesTogether`). It is stuck for ever once its session was
  set to paid (`BrokerPayments.PaidBetaRowIsStuck`). Half of a payment of 1 wei is nothing, and beta does not accept
  it (`BrokerPayments.HalfMeetsThresholdIff`).
- A message that already consists of trytes is passed on without the stopper. Exactly those messages do not come
  back (`Trytes.RecoverableIff`), and some of them are taken for another message: `Trytes.PassThroughCollidesIff`
  says which.

## Model

| member | source | states |
|---|---|---|
| `CursorProtocol.RowAlwaysValid` | models/upload_sessions.go:1057-1197 | under every interleaving of the jobs, with lost updates and chunks still arriving, and for every set of treasure indexes, the stored row has 0 <= verify <= attach <= N for alpha and -1 <= attach <= verify <= N-1 for beta |
| `CursorProtocol.BehindVerifyConfirmed` | models/upload_sessions.go:1080-1098 | under every interleaving, each index the verify cursor has passed was at some time reported matching, or is a treasure seen on the tangle, and a store still holds its chunk whole |
| `CursorProtocol.PurgedOnlyWhenConfirmed` | jobs/purge_completed_sessions.go:75-114 | the purge deletes a session's row only when all N indexes were confirmed, and then all N chunks are whole in the completed store |
| `CursorProtocol.ChunksConserved` | jobs/purge_completed_sessions.go:75-107 | over any run from any reachable state the stores hold what they held and what arrived: no interleaving of arrivals, treasure moves, purges and failures loses a chunk or invents one |
| `CursorProtocol.RunKeepsInv` | models/upload_sessions.go:1057-1197 | the invariant behind the four theorems above is kept by runs of any length; it holds of every set of treasure indexes |
| `AttachCursor.BehindAttachConfirmed` | models/upload_sessions.go:1114-1162 | in every run without the three kinds of step below, every index the attach cursor of the row or of any copy has passed was reported on the tangle |
| `AttachCursor.SendingPassesUnconfirmed` | jobs/process_unassigned_chunks.go:128-136 | in every file, sending alone can take the attach cursor past every index with nothing reported |
| `AttachCursor.AdjustingPassesUnconfirmed` | jobs/verify_data_maps.go:98-110 | so can declaring the attachment finished after a failed read |
| `AttachCursor.WebnodePassesUnconfirmed` | models/upload_sessions.go:1469-1500 | so can handing chunks to a webnode, for every index but the last of the scan |
| `SessionCursors.ScanFromMaximal` | models/upload_sessions.go:1083-1095 | the shared scan covers only hits and stops short only at a miss, in both directions |
| `SessionCursors.ScanFromFull` | models/upload_sessions.go:1083-1095 | over an unbroken run of hits the scan goes as far as the list is long |
| `SessionCursors.ScanPassesIff` | models/upload_sessions.go:1083-1095 | the scan passes an index exactly when everything from its start up to it is a hit and the list is long enough |
| `SessionCursors.AttachAdvanceMeaning` | models/upload_sessions.go:1114-1162 | the attach cursor passes only listed indexes and filled treasures, at most as many as are listed, and stops early only at a miss |
| `SessionCursors.VerifyAdvanceMeaning` | models/upload_sessions.go:1057-1109 | the verify cursor does the same and stops at the attach cursor |
| `SessionCursors.DowngradeMeaning` | models/upload_sessions.go:1167-1197 | each cursor falls back exactly to the earliest listed index, unless it was there or before |
| `SessionCursors.AdvancesKeepValid` | models/upload_sessions.go:1057-1162 | both advances keep the cursors ordered and in bounds, for any treasure indexes of which those filled are in the file |
| `SessionCursors.DowngradeKeepsValid` | models/upload_sessions.go:1167-1197 | a downgrade keeps them ordered, moves neither forward, and leaves attach at or before every listed index |
| `UploadSessions.UploadSession.Find` | jobs/verify_data_maps.go:31-33 | a worker's copy is the row at the time of loading |
| `UploadSessions.UploadSession.Save` | models/upload_sessions.go:1158-1161 | saving overwrites the whole row with the copy |
| `UploadSessions.UploadSession.Scan` | models/upload_sessions.go:1068-1096 | the loop both advances share walks exactly as far as the scan specification |
| `UploadSessions.UploadSession.UpdateIndexWithVerifiedChunks` | models/upload_sessions.go:1057-1109 | verify moves over listed indexes and filled treasures but not past attach; the whole row is written |
| `UploadSessions.UploadSession.UpdateIndexWithAttachedChunks` | models/upload_sessions.go:1114-1162 | attach moves over listed indexes and filled treasures; the whole row is written |
| `UploadSessions.UploadSession.DownGradeIndexesOnUnattachedChunks` | models/upload_sessions.go:1167-1197 | both cursors fall back to the earliest listed index in scan order; an empty list writes nothing |
| `UploadSessions.UploadSession.GetUnassignedChunksBySession` | models/upload_sessions.go:831-852 | returns what the in-progress store holds completely in the fetch range, in scan order, and nothing after a failed read |
| `UploadSessions.FetchedIdxs` | models/upload_sessions.go:834-846 | the keys asked for are exactly the indexes from the cursor to the stop index, both included |
| `UploadSessions.FetchAsksForOneMore` | jobs/process_unassigned_chunks.go:39 | inside the file, one chunk more than the offset is asked for, up to the end of the file |
| `UploadSessions.GetReadySessions` | models/upload_sessions.go:1328-1343 | selects in order the sessions with chunks left to attach |
| `UploadSessions.GetVerifiableSessions` | models/upload_sessions.go:1361-1372 | selects in order the sessions all attached and not all verified |
| `UploadSessions.GetCompletedSessions` | models/upload_sessions.go:1378-1398 | selects in order the sessions whose verify cursor is at the end |
| `UploadSessions.ExactlyOneJob` | models/upload_sessions.go:1328-1398 | with ordered cursors every session is on exactly one of the three lists |
| `UploadSessions.GetChunkForWebnodePoW` | models/upload_sessions.go:1469-1500 | the first session not at its last chunk hands out the chunk read at its cursor and moves its copy; only the first session's row is written; no session means a panic |
| `UploadSessions.SingleReadAgrees` | utils/kv_store.go:389-414 | a chunk read by itself is the chunk a bulk read returns, where the store holds all of it |
| `OrderedReads.FetchIsGood` | models/upload_sessions.go:831-852 | what is fetched for a session on the list of ready ones is in scan order, in range, at most one chunk more than asked for, and what the stores hold |
| `TangleCheck.MakeTransactionObjectsMap` | services/iota_wrappers.go:589-595 | groups the transactions of a page by address, in order |
| `TangleCheck.CheckTxObjectsForMatch` | services/iota_wrappers.go:578-614 | finds a match exactly when some transaction's fragment contains the message |
| `TangleCheck.FilterChunks` | services/iota_wrappers.go:522-576 | the loops over pages and chunks compute the three-way split |
| `TangleCheck.VerifyChunksMatchRecord` | services/iota_wrappers.go:470-520 | each of the three lists holds exactly the chunks it should, told by the transactions found: matching, if the last page that mentions the address carries the message; mismatching, if only the address is mentioned; unattached, if nothing is, also when no transaction at all was found; after a failed search or without a proper address all are empty |
| `TangleCheck.ComparedMeans` | services/iota_wrappers.go:470-576 | the same for every list of chunks and every answer |
| `TangleCheck.HeardIsOnTangle` | services/iota_wrappers.go:522-576 | a chunk is only called matching if some transaction found at its address carries its message; for a single page that is all it takes |
| `TangleCheck.ContainsIff` | services/iota_wrappers.go:597-614 | the message is looked for anywhere in the fragment |
| `TangleCheck.SplitPartitions` | services/iota_wrappers.go:554-575 | every chunk is in exactly one of the three lists or skipped for its address |
| `TangleCheck.ComparedPartitions` | services/iota_wrappers.go:470-520 | with proper addresses nothing is lost unless the search fails, and then everything is |
| `TangleCheck.SinglePageExact` | services/iota_wrappers.go:554-575 | for one page, matched means some transaction at the address contains the message, unattached means none is at the address |
| `TangleCheck.LastPageWins` | services/iota_wrappers.go:549-551 | with several pages, a chunk gets the verdict of the last page that mentions its address |
| `TangleCheck.PagingHidesMatchesIff` | services/iota_wrappers.go:549-551 | paging changes a verdict exactly when a match on an earlier page is hidden; it never makes one |
| `TangleCheck.MatchHiddenByLaterPageIff` | services/iota_wrappers.go:526-552 | for every chunk at a proper address: pages cut as the program cuts them, the first with 1000 transactions, can hide a match exactly when the message is made of trytes and fits into a transaction |
| `TreasureMerge.InsertTreasureChunks` | jobs/process_unassigned_chunks.go:268-323 | the loops compute the merge by index, empty lists included; the scan ends in both directions |
| `TreasureMerge.InsertSortsIffDistinct` | jobs/process_unassigned_chunks.go:268-323 | for two non-empty lists the result is the strictly ordered permutation of both exactly when all indexes differ |
| `TreasureMerge.InsertedIsPermutation` | jobs/process_unassigned_chunks.go:268-323 | with distinct indexes nothing is lost or doubled, also when a list is empty |
| `TreasureMerge.InsertedKeepsOrder` | jobs/process_unassigned_chunks.go:268-323 | from lists in scan order with distinct indexes comes a list in scan order, also when one is empty |
| `AttachJob.SkipVerificationOfFirstChunks` | jobs/process_unassigned_chunks.go:143-202 | the loop and its early exits compute the skip split |
| `AttachJob.SkipsExactlyTheWindow` | jobs/process_unassigned_chunks.go:181-201 | for a list in scan order the early exits change nothing: an order-preserving partition at the window |
| `AttachJob.SkipWindowsDisjoint` | jobs/process_unassigned_chunks.go:154-174 | for every file size no index is in both brokers' skip windows, and what each window is: 45 percent of the chunks, rounded down, unless that is one chunk |
| `AttachJob.HandleTreasureChunks` | jobs/process_unassigned_chunks.go:356-424 | treasures on the tangle are moved, others kept apart; after a failed lookup all chunks are treated alike, with the earlier moves done; for a list in scan order, which chunk is in which list is told by the lookups alone; no reader notices, and when no write fails every moved chunk is in both completed stores and in no in-progress store |
| `AttachJob.HandledMeans` | jobs/process_unassigned_chunks.go:356-424 | the moved treasures are those present on the tangle and met before any lookup fails; the kept ones are the absent ones |
| `AttachJob.ProcessBatch` | jobs/process_unassigned_chunks.go:86-138 | one batch: for a list in scan order, exactly which chunks are matched, moved and sent, told by the lookups and the transactions; cursors after matches and after sending, when the row is written; without write failures the cursors can pass every moved treasure that has a hash |
| `AttachJob.BatchMeans` | jobs/process_unassigned_chunks.go:86-138 | a chunk is matched exactly when it is checked and heard of on the tangle; a chunk at a proper address is sent exactly when it is skipped, checked and not heard of, or an absent treasure |
| `AttachJob.SendOrder` | jobs/process_unassigned_chunks.go:120-126 | skipped chunks are sent first, then unattached, then mismatching ones, each in scan order; with a treasure among them all are in scan order |
| `AttachJob.BatchPartitions` | jobs/process_unassigned_chunks.go:86-138 | each chunk of a batch is matched, moved, handed on or dropped unjudged, and only one of these; after a failed treasure lookup the moved ones are also handed on |
| `AttachJob.DroppedIff` | jobs/process_unassigned_chunks.go:99-124 | exactly when chunks of a batch are dropped |
| `AttachJob.SendChunks` | jobs/process_unassigned_chunks.go:326-351 | bundles of 100 in order, one per channel; all chunks are handed over exactly when the channels have room |
| `AttachJob.PassedUnsentIff` | jobs/process_unassigned_chunks.go:128-136 | for distinct indexes: the attach cursor passes a chunk that was not handed over exactly when one lies beyond the channels' room up to which, from the cursor on, everything is to be sent or filled |
| `AttachJob.WholeRunPassed` | jobs/process_unassigned_chunks.go:128-136 | a gap-free list from the cursor on is passed whole, and handed over whole exactly when it fits |
| `AttachJob.BatchPowOnLambda` | services/iota_wrappers.go:690-728 | batches of 300 that join to the list, or a panic exactly when a message is not made of trytes |
| `AttachJob.FilterAndAssignChunksToChannels` | jobs/process_unassigned_chunks.go:76-139 | over all batches: what every batch turned into and handed over, the states between batches, each leading to the next; the cursors stay ordered and only move forward; no reader notices the moves |
| `AttachJob.PassAccounted` | jobs/process_unassigned_chunks.go:76-139 | over a whole pass each chunk was matched, moved, handed over, left unsent or dropped, and only one of these |
| `AttachJob.AssignToChannels` | jobs/process_unassigned_chunks.go:31-54 | one session of the list: reading and the pass over it, without any condition on what is read; when the channels are used up |
| `AttachJob.ProcessPage` | jobs/process_unassigned_chunks.go:86-138 | one turn of the loop over batches, with what reaches the channels or the lambda |
| `VerifyJob.AdjustIndexes` | jobs/verify_data_maps.go:98-110 | with equal cursors and nothing to fetch, or a failed read, attaching is declared finished |
| `VerifyJob.AdjustedIff` | jobs/verify_data_maps.go:98-110 | exactly then, told by the stores: the cursors are equal, and the read fails or no chunk of the fetch range is whole in progress |
| `VerifyJob.GetChunksToVerify` | jobs/verify_data_maps.go:61-96 | reading in pages gives what a reader of both stores sees under the pending keys, in scan order; with failing reads, a part of it |
| `VerifyJob.PendingExactly` | jobs/verify_data_maps.go:62-67 | the pending keys are exactly those from verify up to before attach, each once |
| `VerifyJob.CheckChunks` | jobs/verify_data_maps.go:113-161 | one page: which chunks count as matching, mismatching, unattached and seen treasures, told by the transactions found; treasures seen are moved, two downgrades, then the verify advance if anything matched; when the row is written; without write failures the cursors can pass every moved treasure that has a hash |
| `VerifyJob.CheckedMeans` | jobs/verify_data_maps.go:113-161 | the same for every page and every answer |
| `VerifyJob.WrongIsBad` | jobs/verify_data_maps.go:128-154 | the chunks that pull the cursors back are exactly those at whose address nothing is, and the data chunks not heard of; in particular every data chunk no transaction carries |
| `VerifyJob.CheckedStaysBehind` | jobs/verify_data_maps.go:153-160 | a page leaves the cursors ordered, attach not forward, and not past any chunk reported bad |
| `VerifyJob.FinePageAdvances` | jobs/verify_data_maps.go:156-160 | a page with nothing bad, right behind the verify cursor, moves it by the whole page |
| `VerifyJob.FineIff` | jobs/verify_data_maps.go:156-160 | a page is fine exactly when every chunk of it was found at a proper address, data chunks with their message, and some chunk with its message |
| `VerifyJob.TreasuresAloneStall` | jobs/verify_data_maps.go:157 | a page whose only finds are treasures with other messages leaves the cursors where they are |
| `VerifyJob.CheckSessionChunks` | jobs/verify_data_maps.go:29-59 | one pass reads the pending interval, ends not past any chunk of any page at whose address nothing was found or, for a data chunk, not its message, and ends with verify = attach when every pending chunk was read and found; the states between pages, each leading to the next |
| `StoreRuns.MovesRun` | models/upload_sessions.go:855-892 | a move of treasures, complete or broken off, takes the protocol's sets of held indexes from one state to the next by copy and drop steps on the moved chunks only |
| `StoreRuns.FillingIsArrival` | models/upload_sessions.go:1504-1533 | whatever hashes or messages are written to the in-progress stores, all of them or a part: for the protocol exactly the chunks they complete arrive |
| `AttachRuns.BatchIsRun` | jobs/process_unassigned_chunks.go:86-138 | a batch of the attach job is a run of the protocol from the state before it to the state after it, also if the row was deleted meanwhile: moves of the treasures it found, then exactly its steps on matches and sent chunks |
| `AttachRuns.BatchIsTruthful` | jobs/process_unassigned_chunks.go:86-138 | what the steps of a batch record as matched, a transaction found carries; the treasures they move were found present |
| `PassRuns.AttachPassIsRun` | jobs/process_unassigned_chunks.go:76-139 | a whole pass of the attach job, from loading the row on and not interrupted, is a run of its batches' steps, so it leads from reachable states to reachable ones |
| `PassRuns.AttachPassIsTruthful` | jobs/process_unassigned_chunks.go:76-139 | whatever a pass records of the tangle, the tangle answered to one of its batches |
| `VerifyRuns.PageIsRun` | jobs/verify_data_maps.go:113-161 | a page of the verify job is a run from the state before it to the state after it, also if the row was deleted meanwhile: moves of the treasures it saw, then exactly its downgrades and its advance |
| `VerifyRuns.PageIsTruthful` | jobs/verify_data_maps.go:113-161 | what the steps of a page record as matched, a transaction found carries; at the address of a treasure they record as seen a transaction was found |
| `PassRuns.SessionCheckIsRun` | jobs/verify_data_maps.go:29-59 | a whole pass of the verify job, not interrupted, is a run of loading the row, perhaps adjusting the indexes, and its pages' steps, so it leads from reachable states to reachable ones |
| `PassRuns.SessionCheckIsTruthful` | jobs/verify_data_maps.go:29-59 | whatever a pass records of the tangle, the tangle answered to one of its pages |
| `PurgeJob.CompletedIsHeld` | models/upload_sessions.go:1378-1398 | in every reachable state whose row is on the list of completed sessions, the stores hold all N chunks whole, and none is split between them |
| `PurgeJob.PurgeIsRun` | jobs/purge_completed_sessions.go:75-114 | a purge whose move succeeded is a run that ends without the row |
| `PurgeJob.BrokenPurgeIsRun` | models/upload_sessions.go:902-955 | a purge whose move broke off anywhere is a run that leaves the row |
| `PurgeJob.PurgeSession` | jobs/purge_completed_sessions.go:75-114 | the purge of a completed session: no state committed on the way looks different to a reader, without any condition on how the chunks lie in the stores; the state it leaves is reachable, with the row deleted or not; after a deletion the completed store holds all N chunks; when the stores do not fail nothing of the file is left in progress, and the row is deleted if its completed upload can be recorded |
| `PassRuns.NothingFetchedIsEnabled` | jobs/verify_data_maps.go:98-110 | when the job finds nothing to attach, no chunk of the fetch range is in progress |
| `BadgerKeys.KeyRoundTrip` | utils/kv_store.go:131-160 | the chunk index comes back out of a key whatever the genesis hash contains |
| `BadgerKeys.KeyInjective` | utils/kv_store.go:158-160 | two indexes of one file never share a key |
| `BadgerKeys.GenerateBulkKeys` | utils/kv_store.go:104-128 | the keys from one index to another, both included, upwards or downwards |
| `ChunkDatabase.ChunkDb.SetWithTTL` | utils/kv_store.go:622-635 | one write into a transaction, committing and starting a new one when it is too big |
| `ChunkDatabase.ChunkDb.BatchSetToUniqueDB` | utils/kv_store.go:602-649 | success is exactly the store updated with all pairs, wherever the transaction splits; an error leaves only some of them written, at every commit |
| `ChunkDatabase.ChunkDb.BatchDeleteFromUniqueDB` | utils/kv_store.go:697-739 | success is exactly the store without the keys; an error leaves only some of them deleted |
| `ChunkDatabase.ChunkDb.BatchGetFromUniqueDB` | utils/kv_store.go:493-547 | exactly the pairs stored under the keys, without missing and empty keys |
| `ChunkDatabase.ChunkDb.GetBulkChunkData` | utils/kv_store.go:449-489 | in key order, the chunks of which the store holds both hash and message |
| `ChunkDatabase.ChunkDb.ReassembleChunks` | models/upload_sessions.go:1701-1733 | the loops compute the merge by key, with its shortcuts |
| `ChunkDatabase.ChunkDb.CombinedRead` | models/upload_sessions.go:1652-1661 | where the stores agree, merging their reads is reading one view of both, in which a chunk counts where one store holds all of it; also when the second read is skipped |
| `ChunkDatabase.ChunkDb.GetMultiChunkDataFromAnyDB` | models/upload_sessions.go:1652-1661 | the combined read returns the view's chunks in key order; what it returns when a store cannot be read |
| `ChunkDatabase.ChunkDb.SameViewSameRead` | models/upload_sessions.go:1652-1661 | stores with the same view give the same combined read |
| `ChunkDatabase.ChunkDb.MoveChunksToCompleted` | models/upload_sessions.go:855-892 | for each chunk an outcome: copied means both completed stores hold it, moved means the in-progress stores hold nothing of it any more; without write failures all are moved; no state committed on the way looks different to a reader; nothing else is touched |
| `ChunkDatabase.ChunkDb.MoveWindow` | models/upload_sessions.go:919-943 | one window of the big move, stopping at an error; when the stores do not fail it is moved and dropped |
| `ChunkDatabase.ChunkDb.MoveAllChunksToCompleted` | models/upload_sessions.go:902-955 | ends for every N with its overlapping windows; only chunks of the file are touched; when the stores do not fail it succeeds and drops everything; a finished move is unseen exactly when no chunk it moves was split between the stores, and then at no commit; on success the completed store gains exactly the in-progress entries of [0, N) and, if the deletes worked, the in-progress store loses them |
| `ChunkStores.CopyUnseen` | models/upload_sessions.go:868-875 | copying what is there to the completed store keeps the stores agreeing and, at settled keys, changes nothing a reader sees, also when only a part is written |
| `ChunkStores.DropUnseen` | models/upload_sessions.go:877-880 | deleting in-progress keys the completed store covers changes nothing a reader sees |
| `ChunkStores.FinishedMove` | models/upload_sessions.go:902-955 | a finished move is one map update of each store |
| `ChunkStores.FinishedMoveUnseenIff` | models/upload_sessions.go:902-955 | on stores that agree, a finished move changes no reader's answer if and only if all its keys were settled |
| `ChunkStores.SplitChunkAppears` | models/upload_sessions.go:902-955 | the stores agree, and yet a move makes a chunk appear |
| `ChunkStores.FillingKeepsSettled` | models/upload_sessions.go:1504-1533 | writing hashes or messages of a file nothing of which is completed keeps its chunks settled and the stores agreeing |
| `HashChain.BuildDataMapsForSession` | models/upload_sessions.go:328-381 | the stored hash at i is the i-fold hash, although failed batches are retried later; nothing else is written; the stores stay in agreement and the file settled if nothing of it was completed, and no hash outside the file becomes completed |
| `HashChain.MovingKeepsInside` | models/upload_sessions.go:855-955 | a move of chunks of the file, whole or broken off, leaves no hash readable in the completed store under an index outside the file |
| `HashChain.ComputeSectorDataMapAddress` | utils/trytes_conversion.go:162-178 | the addresses of a sector's first chunks come from the chain at the sector's offset |
| `HashChain.AddressesAgree` | models/upload_sessions.go:1684-1699 | after a successful build, the address a treasure is buried at, the address of the chunk read back and the address in the sector map are the same at every index of every sector |
| `BuriedIndexes.NestedCeil` | utils/utils.go:159-164 | counting sectors by bytes and by chunks agrees |
| `BuriedIndexes.TotalsAgreeIff` | utils/utils.go:159-169 | the two totals are equal exactly when n = 0 or n > (ceil(n/(S-1))-1)*S |
| `BuriedIndexes.GenerateInsertedIndexesForPearl` | utils/utils.go:188-204 | one offset per sector, drawn from the sector's own window, the short last one included |
| `BuriedIndexes.EveryOffsetVectorCanBeDrawn` | utils/utils.go:199-201 | every valid offset can be drawn |
| `BuriedIndexes.StretchedIndexesCover` | utils/utils.go:172-185 | for every file and offset vector, stretched data indexes increase strictly and tile [0, total) with the treasures, no gap and no overlap |
| `BuriedIndexes.DrawnOffsetsCover` | utils/utils.go:159-204 | the cover fills the total counted from the file size |
| `BuriedIndexes.UntransformInverts` | utils/utils.go:178-184 | explicit inverse of stretching at every position that is not a treasure |
| `BuriedIndexes.NothingBuriedNothingMoved` | utils/utils.go:173-176 | without offsets an index is unchanged |
| `BuriedIndexes.TransformFailsIff` | utils/utils.go:178-184 | stretching panics exactly when there are offsets, but none for the index's sector |
| `BuriedIndexes.MergeIndexes` | utils/utils.go:255-280 | the loop, its size check, the short last sector, and index 0 moved to 1 |
| `BuriedIndexes.MergedIsRemainder` | utils/utils.go:267-277 | an index lies behind the start of its sector by the remainder of the digest modulo the sector's width, unless that is 0 in the first sector, which becomes 1 |
| `BuriedIndexes.MergedOnePerSector` | utils/utils.go:261-277 | for any digest, one non-zero index per sector, strictly increasing |
| `BuriedIndexes.MergedInsideFileIff` | utils/utils.go:267-273 | with several sectors the last index is inside the file exactly when the file reaches the last sector |
| `BuriedIndexes.TreasuresInsideIff` | utils/utils.go:255-280 | for which numbers of sectors and chunks every merged index is a chunk of the session, whatever the digests; for all other numbers a digest, or where the last sector has width 0 the conversion of NaN, can put one outside |
| `BuriedIndexes.TreasureBehindTheEnd` | utils/utils.go:255-280 | consistent numbers with a treasure index one past the last chunk of the session |
| `BuriedIndexes.MergedCoverIff` | utils/utils.go:172-280 | for every file and digest, stretching with the merged indexes covers the file exactly if and only if it has one sector, or every treasure but the first is the last chunk of its sector |
| `BuriedIndexes.MergedIndexesCoverIff` | utils/utils.go:172-280 | in a file that reaches beyond the start of its last sector, if and only if it has one sector |
| `BuriedIndexes.FiveSectorsCovered` | utils/utils.go:255-280 | merged indexes of five sectors that cover their file |
| `BuriedIndexes.LastTreasureOverwritten` | utils/utils.go:172-280 | in such a file with several sectors, the data chunk that is stored at the last treasure's place |
| `TreasureBurial.UpdateRows` | jobs/bury_treasure_addresses.go:55-77 | a sub-step changes every row by its own event and no other |
| `TreasureBurial.BuryTreasureAddresses` | jobs/bury_treasure_addresses.go:14-45 | one run of the job is its nine sub-steps in order on every row; rows keep a history over any number of runs, and no run lowers a milestone |
| `TreasureBurial.MilestoneStep` | jobs/bury_treasure_addresses.go:47-269 | no event lowers the milestone, and only the next observation raises it, by one |
| `TreasureBurial.MilestonesNeverGoBack` | jobs/bury_treasure_addresses.go:47-269 | the milestone never goes back over any run |
| `TreasureBurial.MilestoneObserved` | jobs/bury_treasure_addresses.go:47-202 | each milestone is reached only at its observation, made while the one before it stood |
| `TreasureBurial.MilestoneIff` | jobs/bury_treasure_addresses.go:47-202 | with which answer, and no other, a waiting row reaches its milestone: PRL enough for the amount; any gas; the burial flag with the session marked; nothing worth reclaiming on an old row |
| `TreasureBurial.SentIff` | jobs/bury_treasure_addresses.go:350-500 | with which answers, and no others, the next transaction becomes pending |
| `TreasureBurial.FailedIff` | jobs/bury_treasure_addresses.go:204-500 | exactly when a row becomes failed, and as what |
| `TreasureBurial.StagedIff` | jobs/bury_treasure_addresses.go:238-269 | only staging takes a failed row back; a finished row stays |
| `TreasureBurial.OneMilestoneARun` | jobs/bury_treasure_addresses.go:14-45 | one run takes a row past one milestone at most, except for a burial followed by the end of the reclaim |
| `TreasureBurial.RetryRestoresStage` | jobs/bury_treasure_addresses.go:204-269 | a time-out then a retry give back exactly the stage before the send |
| `TreasureBurial.FailedSendRestoresStage` | jobs/bury_treasure_addresses.go:238-269 | a failed send then a retry give back the stage too |
| `TreasureBurial.SendsAccounted` | jobs/bury_treasure_addresses.go:350-500 | over any run the successful sends of a stage are its time-outs plus one if it is pending or passed |
| `TreasureBurial.ReclaimsAccounted` | jobs/bury_treasure_addresses.go:152-202 | the same for the gas reclaim, which may also end without a send |
| `TreasureBurial.ConfirmedWithoutPRLIff` | jobs/bury_treasure_addresses.go:55-60 | the PRL check can pass at an address without PRL exactly when the amount is not positive |
| `Claims.ClaimUnusedPRLs` | jobs/claim_unused_prls.go:14-43 | one run of the job is its eleven sub-steps in order on every row, then the purge; over any number of runs, a row that is purged was seen to have its PRL gone |
| `Claims.ClaimTreasureForWebnode` | jobs/claim_treasure_for_webnode.go:16-41 | one run of the job is its twelve sub-steps in order on every row, then the purge; over any number of runs, a row that is purged was seen to be claimed |
| `Claims.UnusedStaysConsistent` | jobs/claim_unused_prls.go:45-393 | no gas yet means no claim yet, a gas reclaim means the PRL was claimed, and a claimed PRL stays claimed |
| `Claims.TreasureStaysConsistent` | jobs/claim_treasure_for_webnode.go:45-434 | the same for treasure claims |
| `Claims.UnusedSuccessShown` | jobs/claim_unused_prls.go:76-105 | PRL success is reached only at an empty balance seen while the claim was processed |
| `Claims.TreasureSuccessShown` | jobs/claim_treasure_for_webnode.go:90-129 | PRL success is reached only by an event on this row that saw the claim clock moved since the run had read it, or by a claim on this row that found nothing at the address |
| `Claims.ClockWasRead` | jobs/claim_treasure_for_webnode.go:392-459 | the clock a row has was read by a claim on that row, when it had none |
| `Claims.ReclaimEndsIff` | jobs/claim_unused_prls.go:107-138 | a reclaim in progress ends exactly when there is no balance, or less than the gas needed; a balance that covers it keeps the row |
| `Claims.GasArrivedIff` | jobs/claim_treasure_for_webnode.go:45-86 | any gas confirms the transfer for unused PRL, enough gas that for a treasure |
| `Claims.GasSentIff` | jobs/claim_unused_prls.go:231-263 | exactly when gas is sent for a new row, and what the row becomes in either job |
| `Claims.GasResentIff` | jobs/claim_treasure_for_webnode.go:356-390 | the same for old and failed transfers |
| `Claims.UnusedClaimIff` | jobs/claim_unused_prls.go:358-393 | exactly when the claim of unused PRL is processed, and when it succeeds |
| `Claims.TreasureClaimIff` | jobs/claim_treasure_for_webnode.go:392-459 | what a treasure claim becomes for every clock, balance, key and answer |
| `Claims.ClaimResentIff` | jobs/claim_treasure_for_webnode.go:186-255 | the same for old and failed claims of either job |
| `Claims.LeftoverIff` | jobs/claim_unused_prls.go:285-330 | what becomes of a row whose PRL is claimed, for every answer about the gas left over |
| `Claims.OthersLeaveAlone` | jobs/claim_unused_prls.go:14-43 | a sub-step that is not meant for a row's statuses leaves it as it is |
| `Claims.FirstUnusedRun` | jobs/claim_unused_prls.go:14-43 | in its first run a row of unused PRL is sent gas at most |
| `Claims.TreasureFinishedInOneRun` | jobs/claim_treasure_for_webnode.go:16-41 | a treasure claim can be sent, claimed and finished in its first run |
| `Claims.UnusedPurgedOnlyClaimed` | models/completed_uploads.go:339-348 | a row is purged only after that |
| `Claims.TreasurePurgedOnlyClaimed` | models/webnode_treasure_claims.go:174-183 | a treasure claim is purged only after that |
| `Claims.NothingToClaimUnlessUserPays` | models/completed_uploads.go:116-142 | rows are created consistent, and finished exactly when the user does not pay |
| `Claims.FailedReclaimIsForEver` | jobs/claim_unused_prls.go:318-328 | a failed reclaim of the unused-PRL job is never left |
| `Claims.TreasureReclaimRetried` | jobs/claim_treasure_for_webnode.go:204-268 | the treasure job starts an old or failed reclaim over |
| `BrokerPayments.CheckAlphaPayments` | jobs/check_alpha_payments.go:14-22 | one run of the job is its four sub-steps in order on every row; over any number of runs of both jobs, the history of a deleted row shows the payment or that its pair was given up |
| `BrokerPayments.CheckBetaPayments` | jobs/check_beta_payments.go:16-29 | the same for its five sub-steps, of which one reaches the other rows of a pair |
| `BrokerPayments.GiveUpOnPairs` | jobs/check_beta_payments.go:59-93 | rows waiting too long are listed first; then exactly the rows of their pairs of addresses are deleted, whatever their type and status; who gives up is a beta session's row that waits for its PRL |
| `BrokerPayments.PairGoesTogether` | jobs/check_beta_payments.go:89-93 | giving up on one row deletes every row of its pair |
| `BrokerPayments.DeletedOnlyWhenPaid` | jobs/check_beta_payments.go:32-146 | a row is deleted only after a sub-step on this row saw enough at beta's address, which confirmed it, or because a beta broker's row of its pair was given up |
| `BrokerPayments.BetaRowLostUnpaid` | jobs/check_beta_payments.go:71-93 | a beta row deleted without payment |
| `BrokerPayments.PaidBetaRowIsStuck` | models/upload_sessions.go:1416-1425 | a beta row whose session was set to paid stays as it is for ever, unless its pair is given up |
| `BrokerPayments.HalfPaymentsBounded` | jobs/check_alpha_payments.go:157-199 | half the PRL is sent at most once more than the row is taken back by a time-out or by its session being set to paid |
| `BrokerPayments.HalfPaymentsExact` | jobs/check_alpha_payments.go:157-199 | until beta is confirmed the payments are exactly those taken back and the pending one |
| `BrokerPayments.TimeOutRestoresStage` | jobs/check_beta_payments.go:113-126 | a time-out gives back the stage before the payment |
| `BrokerPayments.HalfMeetsThresholdIff` | jobs/check_beta_payments.go:36-41 | the half that is sent of a sufficient balance satisfies beta exactly when the balance is at least 2 |
| `BrokerPayments.GasSuffices` | jobs/check_alpha_payments.go:60-142 | the gas sent is the least that lets the row go on once it has arrived |
| `BrokerPayments.ClientPaidIff` | jobs/check_alpha_payments.go:26-56 | the client has paid exactly when the balance is positive and covers the cost, and what the row then waits for |
| `BrokerPayments.GasThereIff` | jobs/check_alpha_payments.go:60-142 | exactly when gas is there or sent |
| `BrokerPayments.BetaTurnIff` | jobs/check_alpha_payments.go:157-199 | exactly when beta counts as paid already, half is sent, or nothing happens |
| `BrokerPayments.BetaPaidIff` | jobs/check_beta_payments.go:32-57 | beta has been paid exactly when the balance is positive and at least half of the cost, rounded down: 2 * balance + 1 >= cost |
| `BrokerPayments.StagedBackIff` | jobs/check_beta_payments.go:113-146 | what time-outs, staged errors, the purge and a session set to paid do to every status |
| `BrokerPayments.OthersLeaveAlone` | jobs/check_alpha_payments.go:14-22 | a check that is not meant for a row's status leaves it as it is |
| `BrokerPayments.StagesShown` | jobs/check_alpha_payments.go:14-199 | over any run alpha's row leaves its first stage only when the client was seen to pay or the session was set to paid, and reaches the payment to beta only when there was seen to be gas |
| `BrokerPayments.HalfSentOnlyWhenPaid` | jobs/check_alpha_payments.go:157-199 | half of the PRL is sent on only after both |
| `BrokerPayments.BetaPaidInOneRun` | jobs/check_alpha_payments.go:14-22 | one run can take a row from the client's payment to the payment to beta |
| `BrokerPayments.PaidRowNotGivenUp` | jobs/check_beta_payments.go:16-29 | a row seen to be paid is confirmed before anything is given up, and purged |
| `Trytes.TryteIsAlphabet` | utils/trytes_conversion.go:13-16 | a tryte's number is its place in the alphabet |
| `Trytes.AsciiToTrytes` | utils/trytes_conversion.go:18-40 | the loop computes the encoding, which exists exactly when no character is above 255 |
| `Trytes.EncodeAt` | utils/trytes_conversion.go:18-40 | every code becomes two characters of the alphabet, the low digit first |
| `Trytes.DecodeAt` | utils/trytes_conversion.go:55-93 | every two characters become the value of their digits |
| `Trytes.IndexIsPlace` | utils/trytes_conversion.go:55-93 | a digit is the place in the alphabet, -1 for any other character |
| `Trytes.TrytesToAscii` | utils/trytes_conversion.go:55-79 | the loop computes the decoding, or the error on an odd length |
| `Trytes.TrytesToAsciiTrimmed` | utils/trytes_conversion.go:42-53 | gives text back from its encoding after any 9-padding, up to trailing NULs |
| `Trytes.AsciiRoundTrip` | utils/trytes_conversion.go:18-79 | decoding undoes encoding |
| `Trytes.PaddedAsciiRoundTrip` | utils/trytes_conversion.go:42-53 | after any 9-padding the text comes back up to its trailing NULs, whole exactly when it has none |
| `Trytes.BytesToTrytes` | utils/trytes_conversion.go:118-130 | the loop computes the encoding |
| `Trytes.TrytesToBytes` | utils/trytes_conversion.go:82-93 | the loop computes the decoding, or the panic on an odd length |
| `Trytes.BytesRoundTrip` | utils/trytes_conversion.go:82-130 | decoding undoes encoding for all bytes |
| `Trytes.ChunkMessageToTrytesWithStopper` | utils/trytes_conversion.go:95-116 | passes trytes on, encodes other messages with the stopper, panics above two trytes |
| `Trytes.StopperRoundTrip` | utils/trytes_conversion.go:95-116 | a message encoded with the stopper is recoverable after any 9-padding |
| `Trytes.NoStopperNotInjective` | utils/trytes_conversion.go:95-116 | without the stopper a trailing NUL is encoded as two more nines, after any text, so it could not be told from padding |
| `Trytes.RecoverableIff` | utils/trytes_conversion.go:95-105 | for every encodable message and padding: the message comes back exactly when it is not made of trytes itself |
| `Trytes.SharedEncodingIff` | utils/trytes_conversion.go:95-105 | two different messages share an encoding exactly when one is made of trytes and is the other's encoding |
| `Trytes.PassThroughCollidesIff` | utils/trytes_conversion.go:95-105 | a message made of trytes can be mistaken for another one exactly when it ends in the stopper and decodes to a message that would be encoded |
| `Trytes.PassThroughCollides` | utils/trytes_conversion.go:95-105 | the shortest such input: the empty message and the message "A" |
| `Trytes.AddressDeterminesDigest` | utils/trytes_conversion.go:132-153 | addresses of 81 trytes are equal exactly when the digests agree in their first 40 bytes and in the low digit of the next |
| `Trytes.AddressAt` | utils/trytes_conversion.go:132-153 | each tryte of the address of a digest of more than 40 bytes |

## Left out

- `AttachJob.FilterAndAssignChunksToChannels`: treasures are not staged for burial; one answer of the tangle per address serves a whole pass, and one comparison per batch.
- `VerifyJob.CheckSessionChunks`: in the method itself no other worker writes the row between loading and saving; interleavings are `CursorProtocol`, in which `VerifyRuns` places every single page.
- `CursorProtocol.PurgedOnlyWhenConfirmed`: only the purge's deletion is meant; jobs/remove_unpaid_upload_session.go deletes the rows of sessions nobody paid for. Other writers that save a row as they loaded it are the step `Resave`.
- `PurgeJob.PurgeIsRun`: the run takes all windows of the move as one, and a move that broke off as one copy and the drops; in the protocol a purge may also take window after window.
- `PurgeJob.PurgeSession`: no other worker writes the row or the stores while it runs; interleavings are `CursorProtocol`.
- `StoreRuns.FillingIsArrival`: that the stores still agree afterwards is not part of it; they do unless a client sends other content for a chunk that is already completed.
- `ChunkDatabase.ChunkDb.MoveChunksToCompleted`: the chunks moved must still be what the stores hold for them, as they are when they were read from there; the order of pairs in a batch is arbitrary, and the empty key is an error as in badger.
- `HashChain.BuildDataMapsForSession`: the panic is an outcome; the mode that stores chunks in SQL is not modelled.
- `TangleCheck.MatchHiddenByLaterPageIff`: transactions have the address and the fragment only.
- `UploadSessions.GetChunkForWebnodePoW`: the read of the chunk does not fail.
- `TreasureBurial.BuryTreasureAddresses`: rows of the money jobs are values in an array that the sub-steps overwrite in place; which rows a query selects, its limits and time thresholds are an arbitrary choice of the events. Transaction hashes, nonces, keys and the disabled purge are not part of a row; database updates succeed. The amounts sent are modelled for the payments between brokers only.
- `BrokerPayments.DeletedOnlyWhenPaid`: rows may be created with any status but the last; the creation itself is not modelled.
- `Trytes.ChunkMessageToTrytesWithStopper`: messages are sequences of code points; invalid UTF-8 is not modelled.
- `BadgerKeys.KeyRoundTrip`: a number too large for 64 bits does not occur and is not modelled.
- Wrap-around of 64-bit balances: balances are taken to be in range.
- Time to live of stored chunks, and the stores' file handling.
- The SQL variants of the chunk stores and of the moves.
- AES, SHA and MD5: uninterpreted functions; nothing cryptographic is claimed.
- Proof of work, broadcasting, channels and their timing estimates.
- HTTP handlers, logging, metrics, payment amounts in decimals, selling of genesis hashes.
- Whether all data of a session is present: the program samples only some chunks.
- Liveness: nothing is claimed about what eventually happens.
- One genesis hash is taken to have one session row.
