# GoSend, verified

A Dafny model of the engines that GoSend's promises rest on: resumable file transfer, rekeying of a live
connection, the per-peer transfer queue, the limiters and tables that forget, the frame stream and the
discovery cache. `dafny verify dfyconfig.toml` checks everything.

## How it is laid out

| files | what they model |
|---|---|
| `Common`, `Chunks` | shared types; how a file is cut into chunks and put together again |
| `TransferState`, `TransferNodes` | the sender's and the receiver's records: each step as a function, and the objects that make the steps in place |
| `TransferProtocol`, `TransferSafety`, `TransferProgress` | both nodes, the network and crashes as one transition system; what every run keeps; how much is sent again |
| `TransferOutcomes`, `TransferAnswers`, `TransferFinish` | what each kind of step does to sender and receiver, told field by field in every reachable state; every live transfer can still be completed |
| `TransferSpoils`, `TransferRuns`, `TransferStaleRow`, `TransferLateApproval`, `TransferRedelivery` | exactly where those guarantees end, and a run that gets there in each case |
| `KeyDerivation`, `SecureSession` | session keys and their contexts; one connection's keys, counters and read loop |
| `RekeyProtocol`, `RekeySafety`, `RekeyRounds` | the rekey round over two channels; what every run keeps; what a round does, at any epoch |
| `RekeyTexts`, `RekeyLoss`, `RekeyNodes` | what becomes of texts; runs that lose or refuse one; the handlers in place |
| `SchedulerState`, `SchedulerSafety`, `SchedulerOutcomes`, `SchedulerNodes` | the transfer queue: each manager method as a function, what every run keeps, what each method does in a reachable state, the methods in place |
| `FileRequestLimiter`, `ConnectionLimiter`, `PendingQueue` | what forgets, against a form that never does |
| `MessageDelivery`, `DeliveryOutcomes` | incoming messages and the ids they leave behind; every check spelled out |
| `Frames`, `DiscoveryCache`, `DiscoveryOverflow` | the length-prefixed stream; the cache and its events; a run that drops one |

Where the program changes objects in place, there is a class whose methods do the same, each proved equal to a
function on values; the theorems about runs are about those functions. What each function does is stated once more
without it, in the fields of the state, in the files whose names end in `Outcomes`, `Answers` and `Rounds` and in the
lemmas whose names end in `Exactly`.

## What is assumed

- **Transfer.** A completed `WriteAt` survives a restart of the process, the source file does not change, both sides
  use one positive chunk size, `MaxChunkRetries` is positive (the manager makes it so), and equal SHA-256 digests mean
  equal contents. Writes to the store succeed. Messages are authentic: the network can lose, repeat, reorder and delay
  them without bound, but not make them up. One file is sent over one outbound and one inbound record; a step is one
  handler call or one turn of the sending run. A process can die between any two steps, and between the rename and the
  row that records it. A dialog can be open for at most one request and be answered at any later time.
- **Rekey.** One connection between two devices with different ids. Each direction is a FIFO channel. Sealing and
  writing a frame is one step; a text's inner encryption and its frame are two, and so are the responder's answer and
  its rotation. The shared secret of two ephemeral
  keys is the unordered pair of them (section 6.1 of RFC 7748), and a derived key stands for its secret and its info
  string (section 2.3 of RFC 5869). A frame opens only under the key that sealed it. The peer follows the protocol.
- **Scheduler.** Each manager method, and the block after a run, is one step. A new transfer has a new id. A late
  completion finds no run of its transfer. Checkpoints are restored before any peer connects.
- **Limiters, tables, discovery.** One call is one step, and the clock never goes back. Rows of one time are listed in
  any order, which may differ from query to query. Map iteration is in any order.

## Where the code does not keep what one might expect

- A file's row is inserted once and never corrected until the conversation is cleared, and a restarted receiver takes the size and the checksum from it.
  If the sender's cancel reaches the receiver before there is a row, that row has size 0. A later retry can be accepted
  and acknowledged, and then a restart of the receiver cuts the temp file to nothing (`TransferStaleRow`).
- The answer to a file dialog does not look for a record in memory. A dialog left open can so replace a record that was
  accepted without one: acknowledged chunks are sent again (`TransferLateApproval`), and if the download directory has
  changed meanwhile, what was received is no longer in the record's temp file. `TransferSpoils` has the exact conditions
  for both; the guarantees of `TransferSafety` and `TransferProgress` hold outside them.
- A file that was delivered while the answer was lost is requested again by the sender, accepted into a new temp file,
  completed with the chunks from where the sender stands (none, if it had sent them all) and then marked "failed" on
  both sides, unless everything before them is zero (`TransferRedelivery`). The guarantees of `TransferSafety` therefore
  speak of the first inbound transfer.
- During a rekey, a frame sealed under the new key can reach the other end before that end has rotated. It is lost and
  counts as malformed, and three malformed frames in a row close the connection (`RekeyLoss`; the exact condition is
  `RekeySafety.LostExactlyWhenAhead`).
- A text is sealed a second time inside its frame, without an epoch, and opened with the reader's session key of the
  moment. So a text from before a rotation that is read after it comes out of its frame, under the previous key, and is
  then refused (`RekeyLoss.TextIsRefused`; the exact condition is `RekeyTexts.OpenedExactly`). A file chunk is sealed
  in the same way; there it only means a nack and another attempt.
- A retry moves a transfer to the back only if it is not queued; one that is still waiting keeps its place
  (`SchedulerSafety.RetryCanKeepOldPlace`).
- A good verdict that reaches a run whose user has canceled meanwhile is first recorded and then overwritten: the row says
  "canceled" for a file that is in place (`TransferOutcomes.VerdictIsRecorded`).
- The connection limiter admits up to 2 * limit - 1 connections in a half-open interval of one window's length, and up
  to 2 * limit in a closed one; both bounds are reached.
- A message may wait for seven days, but it is sent with the timestamp of its writing, and the receiver refuses
  everything older than five minutes (`MessageDelivery.KeptButRefused`).
- The skew test also passes for timestamps 2^63 ns (292 years) or more ahead of the clock, because the clamped
  difference is its own negative (`MessageDelivery.SkewExactly`). For exactly those a message can be delivered twice.
- A discovery event that finds the channel full is dropped for good: a peer that stays as it is is never announced again
  (`DiscoveryCache.SteadyPeerIsNotAnnounced`; `DiscoveryOverflow` has the run).

## Model

| member | source | states |
|---|---|---|
| TransferSafety.ChunksAreOnDisk | network/file_transfer.go:796-818 | In every reachable state before the first inbound transfer ends and before a step has spoiled it (messages lost, duplicated, reordered; either side restarted at any step), every chunk below either side's `NextChunk` or stored checkpoint, every chunk in `ReceivedChunks` and every chunk named by an ack ever sent is in the temp file with exactly the source's bytes, also when the sender is ahead of a restored receiver; `TransferSpoils` says exactly when a state is spoiled |
| TransferSafety.FirstCompletionDelivers | network/file_transfer.go:1786-1848 | Under the same condition, the first completion the receiver handles after it accepted finds a temp file equal to the source, so the check passes, the file is renamed into place, the row, unless it has been cleared, becomes complete, and the sender is told "complete" |
| TransferSafety.CompleteMeansDelivered | network/file_transfer.go:1719-1735 | Neither side ever records "complete", in a run or by the late path, unless the receiver has put a file with the source's bytes into place |
| TransferSafety.CountersAgree | network/file_transfer.go:913-917 | In every reachable state, through resumes and restores, `NextChunk` is at most the number of chunks, `BytesSent = min(NextChunk * ChunkSize, Filesize)`, and all bytes are counted exactly when all chunks are, which is what the all-sent test (line 1722) relies on |
| TransferSafety.StepKeepsInv | network/file_transfer.go:737-1000 | Every step of either node, of the network and every crash keeps the counters, the meaning of "complete" and, until a step spoils it, the disk right together |
| TransferSafety.OnEventOk | network/file_transfer.go:829-919 | Any event at a running transfer keeps its counters, its checkpoint and its waiting point consistent, and never takes `NextChunk` back |
| TransferSafety.ResumeOk | network/file_transfer.go:796-818 | A resume starts at the larger of the clamped resume point and the sender's own next chunk, and the byte counter it leaves is that of the start chunk |
| TransferSafety.RestartSenderOk | network/file_transfer.go:2123-2156 | A sender rebuilt from a checkpoint has consistent counters and stands exactly at the checkpointed chunk |
| TransferSafety.RestartReceiverKeepsDisk | network/file_transfer.go:2194-2223 | Rebuilding the receiver from its checkpoint and the file's row, and sizing the temp file by that row, loses no chunk that anyone believes delivered, if the row is the file's |
| TransferSafety.OnRequestKeepsDisk | network/file_transfer.go:1129-1137 | Answering a request for a transfer in memory, or deciding one at once, keeps every believed chunk on disk |
| TransferSafety.DecideKeepsDisk | network/file_transfer.go:1214-1343 | A dialog's answer, however late, keeps every believed chunk on disk unless it replaces the record in memory by one over another temp file |
| TransferSafety.SpoiledBySpoils | network/file_transfer.go:2194-2223 | A step spoils a run exactly when it restores the record from a row that is not the file's, or is a late approval that moves the record to another temp file |
| TransferSafety.OnDataKeepsDisk | network/file_transfer.go:1626-1672 | A chunk that arrives, whole, partly written or unreadable, keeps every believed chunk on disk, and is acknowledged only once it is there |
| TransferSafety.CompleteFindsSource | network/file_transfer.go:1786-1819 | While the first inbound transfer lasts, any "complete" in the network means that the temp file is the source |
| TransferProgress.ReceivedIsPrefix | network/file_transfer.go:1643-1650 | Until the receiver first restarts or a late approval replaces its record, the received set is exactly the chunks below `NextChunk` and `BytesReceived` is the sum of their lengths |
| TransferProgress.NextIsLeastMissing | network/file_transfer.go:1647-1649 | In every reachable state, spoiled or not, `NextChunk` is the least chunk not received |
| TransferProgress.RepeatChangesNothing | network/file_transfer.go:1626-1650 | Before a step has spoiled it, a chunk that was received already is acknowledged again and changes nothing in memory, in the checkpoint or on disk |
| TransferProgress.ResendIsBounded | network/file_transfer.go:2652-2682 | After any mix of restarts of both sides, a run is waiting on a chunk fewer than 50 chunks and less than 10 MiB behind anything ever acknowledged since the last user retry |
| TransferProgress.NoResendWithoutSenderRestart | network/file_transfer.go:804-808 | If only the receiver restarted, no acknowledged chunk is sent again |
| TransferProgress.NoResendWithoutReceiverRestart | network/file_transfer.go:796-808 | If only the sender restarted and no late approval replaced the receiver's record, no acknowledged chunk is sent again by a run whose accept answers its own request |
| TransferProgress.OwnAnswerIsCurrent | network/file_transfer.go:762-764 | The accept that answers a run's own request always makes that run a current one in the sense of the row above |
| TransferProgress.AcknowledgedIsKnown | network/file_transfer.go:903-917 | What an ack has told the sender stays known, through crashes, until the user retries |
| TransferSpoils.SpoiledExactly | network/file_transfer.go:2194-2223 | A state is spoiled if and only if an earlier step met one of the two guards, told from the state before that step |
| TransferSpoils.RowIsStaleExactly | network/file_transfer.go:1865-1895 | Until the history is cleared the first row of a file stays, and it is the one with size 0 if and only if, since the last clearing, a cancel by the sender reached the receiver while there was neither a row nor a record |
| TransferSpoils.UnspoiledWithout | network/file_transfer.go:2061-2070 | So a run in which no cancel comes before the row, and no dialog is answered for another directory, is never spoiled |
| TransferSpoils.RestartKeepsDiskIff | network/file_transfer.go:2194-2223 | A restart that brings the record back keeps every chunk believed delivered if and only if the row is the file's or nothing is believed delivered |
| TransferSpoils.LateApprovalKeepsDiskIff | network/file_transfer.go:1290-1343 | A late approval keeps them if and only if it stays with the temp file, or the other temp file has those chunks too |
| TransferSpoils.CompletionPassesIff | network/file_transfer.go:1786-1819 | In every reachable state a completion is answered "complete" if and only if the record is the file's and the temp file is the source |
| TransferSpoils.KnownIsBounded | network/file_transfer.go:913-917 | What the sender knows to be delivered never exceeds the number of chunks |
| TransferSpoils.ResendsExactlyWhenBothBehind | network/file_transfer.go:796-808 | An accept makes the sender send an acknowledged chunk again if and only if the resume point and its own next chunk are both behind what was acknowledged |
| TransferSpoils.LateApprovalResendsIff | network/file_transfer.go:1290-1343 | Before a late approval a restarted sender starts at or after all that was acknowledged; after one it still does if and only if its checkpoint is not behind that |
| TransferStaleRow.AcknowledgedChunkIsLost | network/file_transfer.go:1865-1909 | A nineteen-step run (cancel while the dialog is open, refusal, retry, accept, one ack, restart of the receiver) in which the acknowledged chunk is gone and both sides end "failed" |
| TransferLateApproval.AcknowledgedChunkIsSentAgain | network/file_transfer.go:1194-1212 | A thirteen-step run (a dialog left open, an accept without one, one ack, the dialog answered yes, restart of the sender) in which an acknowledged chunk is sent again though the receiver never restarted |
| TransferRedelivery.RedeliveryPassesOnlyForZeros | network/file_transfer.go:804-806 | When the receiver has delivered and forgotten a file that its sender requests again from chunk n on, whatever n, and all later chunks are written, the check passes if and only if the source is all zeros below chunk n |
| TransferRedelivery.RedeliveryPassesIff | network/file_transfer.go:1290-1303 | The same over whatever an old temp file still holds: the check passes if and only if that file already had the source's bytes below chunk n |
| TransferRedelivery.DeliveredFileMarkedFailed | network/file_transfer.go:1688-1850 | A twelve-step run with one lost answer, after which both sides record "failed" for a file that is in place with the right bytes |
| TransferFinish.CanAlwaysFinish | network/file_transfer.go:737-1000 | From every reachable state in which the transfer is live at the sender and neither ended, spoiled nor canceled at the receiver, whatever was lost and whoever restarted, the run can be continued to the file in place and "complete" at both sides |
| TransferFinish.EveryFileHasARun | network/file_transfer.go:737-1000 | Every file, the empty one included, cut into chunks of any size, has a run that delivers it |
| TransferOutcomes.VerdictIsRecorded | network/file_transfer.go:951-985 | In every reachable state with the run waiting for the verdict: it ends the run, marks it done and removes the checkpoint, and the row says complete, failed or canceled as the verdict does, but canceled if the user has canceled meanwhile |
| TransferOutcomes.RejectionIsRecorded | network/file_transfer.go:768-791 | A rejection, before or between the chunks, ends the run as rejected and not done, removes the checkpoint, and the row says rejected, or canceled if the message or the user says so |
| TransferOutcomes.AcceptStarts | network/file_transfer.go:792-842 | An accept starts the run at the later of the two sides' next chunks, stores that at once, and the chunk with the source's bytes, or the completion, is on its way |
| TransferOutcomes.AckMovesOn | network/file_transfer.go:903-933 | An ack moves the run on by exactly one chunk, with the bytes up to it counted; it is stored exactly once 50 chunks or 10 MiB have gone by; the next chunk, or after the last one the completion, is on its way |
| TransferOutcomes.FailedAttemptIsRepeated | network/file_transfer.go:841-911 | A nack or a timer sends the same chunk again while attempts are left, and otherwise interrupts the run |
| TransferOutcomes.StopInterrupts | network/file_transfer.go:406-437 | A stopped run, or one that waits too long for the verdict, keeps its counters and its checkpoint and is pending again, unless the user has canceled |
| TransferOutcomes.RunningIsUndecided | network/file_transfer.go:383-443 | In every reachable state a running transfer is waiting somewhere and is neither done nor rejected |
| TransferOutcomes.OtherRepliesAreDiscarded | network/file_transfer.go:1981-2059 | A reply that the run is not waiting for changes nothing |
| TransferOutcomes.BeginsExactly | network/file_transfer.go:383-404 | A run begins, and a request goes out, exactly for a transfer in memory that is neither running nor over |
| TransferOutcomes.CancelTakesEffect | network/file_transfer.go:576-614 | A cancel tells the receiver and marks a running transfer, ends any other at once, and does nothing to one that is over |
| TransferOutcomes.RetryStartsOver | network/file_transfer.go:666-735 | A retry starts from zero with no checkpoint, and is refused exactly while a run is on |
| TransferOutcomes.LateVerdict | network/file_transfer.go:1715-1751 | A verdict that finds no run is believed exactly if it is good, every chunk was acknowledged and the transfer is not done |
| TransferOutcomes.SenderComesBack | network/file_transfer.go:2094-2156 | A restart brings a transfer back exactly if it has a checkpoint and its row is not final, and then at exactly the checkpoint |
| TransferAnswers.ChunkIsTaken | network/file_transfer.go:1626-1672 | A readable chunk of a file in memory is written at its place and acknowledged; a new one is counted, the next chunk is again the least one missing, and that is stored exactly once 10 chunks or 2 MiB have gone by |
| TransferAnswers.UnknownChunkIsRefused | network/file_transfer.go:1592-1625 | A chunk with no record, out of range or unreadable is answered by a nack and changes nothing |
| TransferAnswers.StoppedWriteIsRefused | network/file_transfer.go:1636-1641 | A write that stops leaves its first part on disk, is answered by a nack, and changes nothing else |
| TransferAnswers.KnownRequestIsAnswered | network/file_transfer.go:1129-1137 | A request for a transfer in memory is answered with its next chunk and marks the row accepted |
| TransferAnswers.NewRequestIsDecided | network/file_transfer.go:1214-1343 | A request without a record: refused, refused as canceled, or accepted into a fresh record at chunk 0 over a temp file of the file's size that keeps what was in it, told in every field |
| TransferAnswers.DialogIsDecided | network/file_transfer.go:1165-1212 | A dialog keeps the first request it was opened for, and its answer is the same decision, with a record in memory or without |
| TransferAnswers.CompletionEndsIt | network/file_transfer.go:1754-1850 | A completion drops the record and its checkpoint; if the temp file is what the record says it becomes the file and the answer is "complete", and otherwise it stays and the answer is "failed" |
| TransferAnswers.FailureEndsIt | network/file_transfer.go:1754-1785 | The sender's failure or cancel drops the record, marks the row accordingly, is confirmed, and leaves the temp file |
| TransferAnswers.UnknownEndIsNoted | network/file_transfer.go:1714-1718 | With no record only the sender's cancel changes anything: it marks the row canceled, and makes one of size 0 if there is none |
| TransferAnswers.UserEndsIt | network/file_transfer.go:628-663 | The receiver's user cancels: record, checkpoint and temp file go and the sender is told; with no record only the row is marked |
| TransferAnswers.RecordComesBack | network/file_transfer.go:2167-2223 | A restart brings a record back exactly if it has a checkpoint and a row that is not final, with the row's size and checksum, exactly the chunks below the clamped checkpoint, and a temp file of that size |
| TransferAnswers.RenameSurvives | network/file_transfer.go:1804-1835 | A process that dies after the rename comes back with the file in place and without the temp file |
| TransferAnswers.ClearingTakesTheRow | storage/files.go:345-365 | Clearing the conversation takes the row away and nothing else: a record in memory, its checkpoint and its temp file stay |
| TransferAnswers.RefusalIsOnlySent | network/file_transfer.go:1034-1055 | A request over the rate limit is answered by a refusal and leaves no trace at the receiver |
| TransferNodes.PlayKeepsCounters | network/file_transfer.go:737-1000 | A whole run, whatever events it meets, ends with consistent counters that were never taken back |
| TransferNodes.OutboundTransfer.constructor | network/file_transfer.go:334-371 | A new outbound transfer starts from zero, stored as pending |
| TransferNodes.OutboundTransfer.Restore | network/file_transfer.go:2123-2156 | The object rebuilt from a checkpoint row is the restart step of the protocol |
| TransferNodes.OutboundTransfer.MaybePersistCheckpoint | network/file_transfer.go:2652-2682 | A checkpoint is written when forced, or when 50 chunks or 10 MiB have gone by since the last one |
| TransferNodes.OutboundTransfer.Await | network/file_transfer.go:1981-2059 | Waiting discards events until one matches; with no more events the run is stopped |
| TransferNodes.OutboundTransfer.DeliverChunk | network/file_transfer.go:841-911 | The bounded retry loop for one chunk: what it sends and what state it leaves are those of playing the events one by one |
| TransferNodes.OutboundTransfer.ResumeFrom | network/file_transfer.go:792-819 | The resume arithmetic and the forced checkpoint |
| TransferNodes.OutboundTransfer.CountDelivered | network/file_transfer.go:913-919 | The bookkeeping of an acknowledged chunk |
| TransferNodes.OutboundTransfer.SendChunks | network/file_transfer.go:829-933 | The chunk loop refines the event-by-event steps up to the completion |
| TransferNodes.OutboundTransfer.RunOutbound | network/file_transfer.go:737-1000 | A whole run, its two nested loops and three waits, sends exactly the messages and leaves exactly the state that the protocol's steps give for the same events |
| TransferNodes.OutboundTransfer.RecordRejection | network/file_transfer.go:768-791 | In place as in the protocol's step, whose outcome `TransferOutcomes.RejectionIsRecorded` states |
| TransferNodes.OutboundTransfer.RecordCompletion | network/file_transfer.go:951-985 | In place as in the protocol's step, whose outcome `TransferOutcomes.VerdictIsRecorded` states |
| TransferNodes.OutboundTransfer.FinishRun | network/file_transfer.go:406-437 | The block after a run: not running, and pending again unless it is over |
| TransferNodes.OutboundTransfer.Start | network/file_transfer.go:383-443 | A run is started only where none is running and the transfer is live, and is then seen through |
| TransferNodes.OutboundTransfer.Cancel | network/file_transfer.go:576-614 | Cancelling a running transfer tells the receiver and leaves the rest to the run; otherwise it takes effect at once |
| TransferNodes.OutboundTransfer.Retry | network/file_transfer.go:714-731 | A retry is refused while running, and otherwise starts from zero |
| TransferNodes.OutboundTransfer.LateClose | network/file_transfer.go:1715-1751 | A late completion is believed only when every byte was sent |
| TransferNodes.FileRow.UpsertFileMetadata | network/file_transfer.go:2061-2070 | A plain insert whose uniqueness error is taken for success: the first row stays as it is |
| TransferNodes.FileRow.UpdateTransferStatus | storage/files.go:68-96 | Only the status changes, and only if there is a row |
| TransferNodes.FileRow.RecordInboundCanceledBeforeApproval | network/file_transfer.go:1865-1895 | The row after a cancel of an unknown transfer, as in the protocol's step |
| TransferNodes.FileRow.RecordRefusal | network/file_transfer.go:1257-1276 | The row after a refusal, as in the protocol's step |
| TransferNodes.FileRow.RecordAcceptance | network/file_transfer.go:1321-1339 | The row after an acceptance, as in the protocol's step: an old one keeps its size and checksum |
| TransferNodes.InboundTransfer.Accept | network/file_transfer.go:1290-1343 | Accepting a request, with or without a record in memory, keeps the bytes of an old temp file, sizes it, stores a first checkpoint and leaves an old row as it is |
| TransferNodes.InboundTransfer.Restore | network/file_transfer.go:2194-2223 | The object rebuilt from a checkpoint and the file's row, which gives its size and checksum, with its loop filling the received chunks, is the restart step of the protocol |
| TransferNodes.InboundTransfer.MaybePersistCheckpoint | network/file_transfer.go:2684-2714 | A checkpoint is written when forced, or when 10 chunks or 2 MiB have gone by since the last one |
| TransferNodes.InboundTransfer.Record | network/file_transfer.go:1644-1650 | The advance loop, which has no bound of its own, terminates at the least chunk not received |
| TransferNodes.InboundTransfer.HandleData | network/file_transfer.go:1592-1672 | Nack for an unknown index, an unreadable chunk or a failed write; otherwise write, record, checkpoint and ack |
| TransferNodes.InboundTransfer.HandleRequest | network/file_transfer.go:1129-1137 | A request for a transfer in memory is answered with its next chunk |
| TransferNodes.InboundTransfer.UpdateStatus | storage/files.go:68-96 | The row's status changes only while there is a row |
| TransferNodes.InboundTransfer.HandleComplete | network/file_transfer.go:1754-1850 | Checks, renames and answers; the transfer is dropped in every case |
| TransferState.Advance | network/file_transfer.go:1647-1649 | The least index from a start on that is not in the set, and never beyond the number of chunks |
| Chunks.ChunkExists | network/file_transfer.go:2779-2788 | The chunk count is the one number n such that chunk i begins inside the file exactly when i < n |
| Chunks.ChunkOfByte | network/file_transfer.go:829-836 | The chunk ranges partition the file: byte k lies in chunk i exactly when i = k / ChunkSize |
| Chunks.ChunkBounds | network/file_transfer.go:2779-2788 | Each chunk is not empty, begins where the one before ends, and is at most a chunk size long |
| Chunks.AllBytesIffAllChunks | network/file_transfer.go:1722 | All bytes are counted exactly when all chunks are |
| Chunks.ReadChunkIsChunk | network/file_transfer.go:2751-2761 | Reading a buffer at a chunk's offset returns exactly that chunk, the short last one included |
| Chunks.WriteKeepsChunks | network/file_transfer.go:1636-1640 | Writing all or a first part of one chunk at its place keeps every chunk already held, and a whole write adds the chunk |
| Chunks.AllChunksHeld | network/file_transfer.go:1786-1803 | A file that holds every chunk is the source |
| KeyDerivation.SessionInfoIsSymmetric | crypto/ecdh.go:90-102 | The HKDF info string is the same for both orders of the two ids |
| KeyDerivation.SessionInfoSeparatesContexts | crypto/ecdh.go:90-102 | For one pair of ids two contexts give the same info string exactly when they are the same |
| KeyDerivation.DecimalIsInjective | network/handshake.go:135 | Decimal printing of epochs is injective |
| KeyDerivation.Uint64Digits | network/handshake.go:135 | A 64-bit epoch prints to at most 20 digits |
| KeyDerivation.RekeyContextsAreSeparate | network/handshake.go:113-136 | For one pair of ids the info strings of the 32-byte handshake nonce and of all rekey epochs are pairwise different |
| KeyDerivation.BothEndsDeriveTheSame | network/handshake.go:120-137 | Each end, from its own ephemeral key and the other's public one, derives the same key or the same error |
| KeyDerivation.KeysOfEpochsDiffer | network/handshake.go:94-137 | Keys of two epochs, and of the handshake and an epoch, differ whatever the ephemeral keys were |
| KeyDerivation.LessExactly | crypto/ecdh.go:90-102 | Ids are ordered by the first byte in which they differ, and a prefix stands before what extends it |
| KeyDerivation.InfoExactly | crypto/ecdh.go:90-102 | The info string is the lower id, a bar, the higher id and, if there is a context, a bar and the context |
| KeyDerivation.DerivesExactly | network/handshake.go:94-137 | A key can be derived exactly with two ids that are not blank and, at the handshake, a nonce of 32 bytes |
| KeyDerivation.DecimalReadsBack | network/handshake.go:135 | The digits of an epoch stand for it, with no leading zero |
| SecureSession.RotationKeepsTwoEpochs | network/connection.go:294-322 | After a rotation exactly the new epoch and the one before it select a key |
| SecureSession.RotatesExactly | network/connection.go:294-322 | A rotation is made exactly with a key and to the next epoch, and keeps the old key as the previous one |
| SecureSession.OpensExactly | network/connection.go:577-617 | A frame opens exactly under the key of the session's epoch or of the one before |
| SecureSession.PeerConnection.constructor | network/connection.go:121-172 | A new connection is at epoch 0 with the handshake key and no previous one |
| SecureSession.PeerConnection.RotateSessionKey | network/connection.go:294-322 | No key, a stale epoch and a skipped epoch are refused and change nothing; otherwise the old key moves into the one previous slot |
| SecureSession.PeerConnection.EncryptPayload | network/connection.go:558-575 | A frame is sealed and tagged with the current epoch, and its sealer could open it |
| SecureSession.PeerConnection.DecryptPayload | network/connection.go:595-617 | The epoch selects the current or the previous key, and only the sealing key opens the frame |
| SecureSession.PeerConnection.ReadLoop | network/connection.go:358-446 | Every good frame that is not a ping, a pong or a disconnect notice is handed on in order, every ping is answered, and the loop goes on exactly until a frame closes it |
| SecureSession.PeerConnection.HandleFrame | network/connection.go:386-444 | What one frame does: hand on, answer, count or close |
| SecureSession.ClosingExactly | network/connection.go:388-440 | A frame closes the loop if and only if it is a disconnect notice, a control payload over 64 KiB, or a malformed frame after two others with no good one between, all told by what the frames open to |
| SecureSession.HandedOnExactly | network/connection.go:398-444 | One more frame hands on exactly a text or rekey message that opens, and answers exactly a ping, under the current key |
| SecureSession.PeerConnection.NextSendSequence | network/connection.go:228-233 | Sequence numbers go up by one |
| SecureSession.PeerConnection.ValidateSequence | network/connection.go:236-245 | A number is accepted exactly when it is above the last accepted one |
| SecureSession.AcceptedIncreases | network/connection.go:236-245 | Whatever arrives, the accepted numbers strictly increase, so none is accepted twice |
| SecureSession.AcceptedWholeIffIncreasing | network/connection.go:236-245 | A stream is accepted whole exactly when it increases |
| SecureSession.SentNumbersAreAccepted | network/connection.go:228-245 | The numbers that `NextSendSequence` gives out increase, so a receiver that has seen none of them accepts all of them |
| RekeySafety.OnePreviousKeySuffices | network/connection.go:294-322 | In every run the two epochs differ by at most one, and no frame in flight is two or more epochs away from its reader, so one previous key is always enough |
| RekeySafety.AheadOnlyDuringRound | network/peer_manager.go:1379-1386 | A frame one epoch ahead of its reader exists only while that reader has not finished its part of a round |
| RekeySafety.BothEndsAgree | network/peer_manager.go:1237-1326 | Whenever both ends hold a key for an epoch, it is the same key |
| RekeySafety.SelectedKeyOpens | network/connection.go:577-617 | Any frame in flight whose epoch selects a held key was sealed with exactly that key |
| RekeySafety.LostExactlyWhenAhead | network/connection.go:388-412 | The next frame is handed on if and only if it is not ahead of its reader; one that is ahead is lost and counted as malformed |
| RekeyLoss.TextIsLost | network/peer_manager.go:1379-1387 | A ten-step run in which the responder answers, rotates and sends, and the initiator reads the text before it has rotated: the round ends well and the text is gone |
| RekeyLoss.ThreeTextsClose | network/connection.go:388-396 | A fourteen-step run in which three such texts close the connection |
| RekeyTexts.OpenedExactly | network/peer_manager.go:1117 | In every run a text that the handler takes was written under the key of one epoch, and it is opened if and only if that is the epoch its reader is at by then |
| RekeyTexts.ThreeFates | network/peer_manager.go:1545-1570 | A text written and sealed under one key, read now and handled before its reader rotates: lost if its epoch is ahead, handed on and refused if it is behind, opened exactly if it is the reader's |
| RekeyTexts.EpochsHaveTheirOwnKeys | network/peer_manager.go:1313-1324 | In every run after a handshake no two epochs of a connection have the same key |
| RekeyLoss.TextIsRefused | network/peer_manager.go:1117-1122 | An eight-step run in which the initiator writes and sends before it has rotated and the responder reads after it has: the text is handed on, not malformed, and never opened |
| RekeySafety.QuietMeansEqual | network/peer_manager.go:1228-1388 | With no round under way both ends have the same epoch and key and everything in flight can be opened |
| RekeySafety.StepKeepsInv | network/peer_manager.go:1228-1427 | Every send, read, request, answer, rotation and finish keeps the round where it should be, and what is in flight fits it |
| RekeySafety.RotatedOk | network/peer_manager.go:1384-1387 | The responder's rotation keeps every frame in flight fitting the round |
| RekeySafety.FinishedOk | network/peer_manager.go:1313-1324 | The initiator's rotation gives it the responder's key, and keeps every frame in flight fitting the round |
| RekeyNodes.RekeyEndpoint.OnRekeyNeeded | network/peer_manager.go:1228-1290 | Only the lower id asks, only one round at a time, for the next epoch, as in the step whose outcome in every reachable state `RekeyRounds.LowerSideAsks` and `RekeyRounds.HigherSideDoesNotAsk` state |
| RekeyRounds.RoundSucceeds | network/peer_manager.go:1228-1388 | From every reachable quiet state, at whatever epoch, ask, read, handle, rotate, read, handle and finish take both ends to the next epoch under the same new key, with the old one kept as the previous, and all is quiet again |
| RekeyRounds.EveryEpochIsReached | network/peer_manager.go:1228-1388 | So for every epoch there is a run that takes both ends to it |
| RekeyRounds.LowerSideAsks | network/peer_manager.go:1228-1290 | In every reachable open state the side with the lower id that has no waiter sends exactly one request, for its epoch + 1, and waits; with a waiter nothing changes |
| RekeyRounds.HigherSideDoesNotAsk | network/peer_manager.go:1237-1242 | The side with the higher id leaves it to the other: nothing changes |
| RekeyRounds.HandlerClosesExactly | network/peer_manager.go:1328-1427 | A handler closes the connection exactly at a rekey message for epoch 0, or at a request between ids of which one is blank |
| RekeyRounds.AnswerIsKeptExactly | network/peer_manager.go:1390-1427 | An answer fills the one slot exactly if somebody waits and the slot is empty |
| RekeyRounds.RotationClosesExactly | network/peer_manager.go:1384-1387 | An owed rotation is made exactly if it is to the next epoch, and closes the connection otherwise |
| RekeyRounds.FinishClosesExactly | network/peer_manager.go:1309-1325 | The initiator closes exactly if the answer is for another epoch, that is not the next one, or an id is blank |
| RekeyNodes.RekeyEndpoint.HandleNext | network/peer_manager.go:1328-1427 | A request is answered under the old key and the rotation is owed; an answer reaches the waiter's one-slot channel or is dropped; a text is opened with the session key of now or not at all |
| RekeyNodes.RekeyEndpoint.BuildEncryptedMessage | network/peer_manager.go:1545-1570 | The inner encryption, under the session key of now |
| RekeyNodes.RekeyEndpoint.SendMessage | network/connection.go:558-575 | The frame, under whatever the session key is by then |
| RekeyNodes.RekeyEndpoint.RotateNow | network/peer_manager.go:1384-1387 | The owed rotation is made, or the connection closes |
| RekeyNodes.RekeyEndpoint.Finish | network/peer_manager.go:1309-1325 | The initiator checks the epoch, derives and rotates, or the connection closes |
| SchedulerSafety.RunningIsActive | network/file_transfer.go:511-562 | In every reachable state a transfer is running if and only if it is its peer's active one |
| SchedulerSafety.OneRunPerPeer | network/file_transfer.go:511-562 | No two transfers of one peer run at once |
| SchedulerSafety.LiveIsQueuedOrActive | network/file_transfer.go:417-438 | A transfer that is not done, rejected or canceled is queued or active: none is forgotten |
| SchedulerSafety.ConnectedPeerIsServed | network/file_transfer.go:521-562 | Whenever a peer is connected and a live transfer waits for it, the peer's slot is filled |
| SchedulerSafety.LineIsInTicketOrder | network/file_transfer.go:445-468 | The active transfer followed by the queue is in ticket order, so it holds no duplicate |
| SchedulerSafety.InterruptedGoesFirst | network/file_transfer.go:420-438 | An interrupted transfer keeps its place before everything behind it, and runs again at once if its peer is connected |
| SchedulerSafety.RetryGoesToBackUnlessQueued | network/file_transfer.go:714-733 | A retry goes to the back with a new ticket if and only if the transfer is not in the queue already |
| SchedulerSafety.RetryCanKeepOldPlace | network/file_transfer.go:714-733 | A run in which two files are sent while the peer is away and the retry of the first leaves it ahead of the second |
| SchedulerSafety.ApplyKeepsInv | network/file_transfer.go:383-735 | Send, run end, cancel, retry, late completion, connect, disconnect and restore all keep the queues, the slots and the transfers right together |
| SchedulerSafety.PopLoopOk | network/file_transfer.go:521-562 | The pop loop terminates with the slot filled or the queue empty, and touches no other peer |
| SchedulerOutcomes.CancellingMeans | network/file_transfer.go:565-614 | In every reachable state a cancel takes a live transfer out of every queue for good; one that does not run is over at once, one that runs keeps the slot; the others keep their order and nothing else changes |
| SchedulerOutcomes.LateCancelDoesNothing | network/file_transfer.go:576-584 | A cancel of a transfer that is over or not there changes nothing |
| SchedulerOutcomes.RunEndingMeans | network/file_transfer.go:406-438 | A run that leaves its transfer over records it, frees the slot for the first live one that waits, and does not queue it again |
| SchedulerOutcomes.InterruptionMeans | network/file_transfer.go:417-438 | An interrupted run leaves its transfer first in line; if the peer is connected it runs again at once |
| SchedulerOutcomes.SendingMeans | network/file_transfer.go:367-371 | A file that is sent runs at once if its peer is connected and free, and otherwise waits at the back |
| SchedulerOutcomes.RetryingMeans | network/file_transfer.go:666-735 | A retry is refused exactly while the transfer runs; otherwise it starts from zero, as if it were sent anew, or where it stood if it was waiting |
| SchedulerOutcomes.RestoringMeans | network/file_transfer.go:2094-2156 | A checkpoint brings a transfer back at the back of its peer's queue, with the bytes it had sent |
| SchedulerOutcomes.LateCompletionMeans | network/file_transfer.go:1720-1730 | A late completion is believed exactly of a transfer that has sent every byte |
| SchedulerOutcomes.ConnectingMeans | network/file_transfer.go:376-381 | A connection gives the slot to the peer's first live transfer, drops the dead ones before it, and changes nothing else |
| SchedulerNodes.TransferScheduler.Enqueue | network/file_transfer.go:445-468 | At the front or the back, unless an id is blank or the transfer is queued already |
| SchedulerNodes.TransferScheduler.RemoveQueued | network/file_transfer.go:470-497 | Removes the id and keeps the order; an empty queue leaves the map; says whether it was there |
| SchedulerNodes.TransferScheduler.Finish | network/file_transfer.go:499-509 | Frees the slot only for the transfer that holds it |
| SchedulerNodes.TransferScheduler.Begin | network/file_transfer.go:388-399 | A transfer is begun unless it is running or over |
| SchedulerNodes.TransferScheduler.StartNext | network/file_transfer.go:511-562 | The loop over the queue refines the pop function and terminates |
| SchedulerNodes.TransferScheduler.SendFile | network/file_transfer.go:367-371 | A new transfer joins the back and is started if it can be |
| SchedulerNodes.TransferScheduler.EndRun | network/file_transfer.go:406-438 | The block after a run: back to the front if still live, slot freed, next one started |
| SchedulerNodes.TransferScheduler.CancelTransfer | network/file_transfer.go:565-614 | In place as in the step whose outcome in every reachable state `SchedulerOutcomes.CancellingMeans` states: out of the queue, over at once or left to the run |
| SchedulerNodes.TransferScheduler.RetryTransfer | network/file_transfer.go:666-735 | Refused while running; otherwise live again, queued at the back and started if it can be |
| SchedulerNodes.TransferScheduler.CompleteLate | network/file_transfer.go:1720-1730 | Marks a transfer done exactly when all its bytes were sent |
| SchedulerNodes.TransferScheduler.PeerConnected | network/file_transfer.go:376-381 | A connection starts the peer's next transfer |
| FileRequestLimiter.Limiter.Allow | network/peer_manager.go:2270-2331 | With a clock that never goes back, the compacted history and the pruned ids decide every request as the rule over the full log does, for every peer; `FileRequestLimiter.JudgedExactly` says what the rule decides |
| FileRequestLimiter.Limiter.Compact | network/peer_manager.go:2282-2290 | Compaction inside the history's own buffer keeps exactly the times after the cutoff, in order |
| FileRequestLimiter.Limiter.Prune | network/peer_manager.go:2296-2300 | Deleting while iterating, in any order, leaves exactly the ids seen after the cutoff |
| FileRequestLimiter.Limiter.Judge | network/peer_manager.go:2282-2330 | The decision for one peer is the rule's, and what is kept still remembers all that matters of the log |
| FileRequestLimiter.DecidesAsRule | network/peer_manager.go:2305-2316 | What is remembered is enough to decide as the rule does |
| FileRequestLimiter.KeepsRemembering | network/peer_manager.go:2318-2329 | Forgetting everything up to one window ago keeps enough for all later decisions |
| FileRequestLimiter.WindowHoldsLimit | network/peer_manager.go:2314-2316 | No interval (T - window, T] holds more than `limit` requests that took a slot |
| FileRequestLimiter.RepeatHasOriginal | network/peer_manager.go:2305-2311 | A request that took no slot repeats an id that was let through within the last window |
| FileRequestLimiter.JudgedExactly | network/peer_manager.go:2305-2316 | A call is a repeat exactly if its id is not empty and was let through in the last window, and is refused exactly if it is not one and `limit` requests took a slot in that window |
| FileRequestLimiter.LimitIsReached | network/peer_manager.go:2314-2316 | For every limit some run by the rule fills a window to the last slot |
| Common.TrimmedExactly | network/peer_manager.go:2293 | Trimming takes white space off both ends, all of it, and nothing else |
| Common.BlankTrimsToNothing | network/peer_manager.go:2293-2294 | Nothing is left exactly of a blank id |
| ConnectionLimiter.Server.AllowInboundConnection | network/server.go:314-344 | With a clock that never goes back, the pruned table decides every connection as a table that is never pruned |
| ConnectionLimiter.Server.CountConnection | network/server.go:328-341 | The entry is renewed after a window, and counts one more if there is room |
| ConnectionLimiter.Server.PruneConnectionRateEntries | network/server.go:346-360 | At most once a second, in any order, exactly the addresses idle for more than the given age go |
| ConnectionLimiter.DecidesAsFull | network/server.go:328-337 | An address idle for a window or more is decided the same whether or not it is still in the table |
| ConnectionLimiter.CallStands | network/server.go:328-343 | One more call keeps the pruned table equal to the full one but for addresses idle for a window |
| ConnectionLimiter.CallKept | network/server.go:314-344 | Pruning and one more call keep all that holds of the pruned table between calls |
| ConnectionLimiter.CurrentWindow | network/server.go:328-341 | What an address's current window says about its admissions since any moment less than a window before it |
| ConnectionLimiter.WindowHoldsTwiceLimitLessOne | network/server.go:328-341 | No half-open interval (t - window, t] holds more than 2 * limit - 1 admissions of one address |
| ConnectionLimiter.TwiceLimitLessOneIsReached | network/server.go:328-341 | For every limit some run admits exactly that many in such an interval, so the bound is the best one |
| ConnectionLimiter.ClosedWindowHoldsTwiceLimit | network/server.go:328-341 | No closed interval [t - window, t] holds more than 2 * limit admissions of one address |
| ConnectionLimiter.TwiceLimitIsReached | network/server.go:328-341 | For every limit some run admits exactly that many in such an interval, a full burst at either end |
| ConnectionLimiter.RefusedMeansFull | network/server.go:328-341 | A refused call comes less than a window after a moment since which `limit` connections of its address were let in |
| ConnectionLimiter.CountedWereAdmitted | network/server.go:328-341 | What a window has counted was let in since it started |
| PendingQueue.Store.EnforceQueueLimits | network/peer_manager.go:1497-1543 | Expires old messages of all peers, then drops the fewest of this peer's oldest ones so that the rest fits; a cutoff before the epoch is an error that changes nothing |
| PendingQueue.Store.DropOldest | network/peer_manager.go:1515-1528 | The drop loop never indexes past the end, as its total is always the bytes that remain, and stops at the first suffix that fits |
| PendingQueue.Store.GetPendingMessages | storage/messages.go:280-322 | Exactly the peer's pending rows, oldest first |
| PendingQueue.Store.PruneExpiredQueue | storage/messages.go:325-348 | Every pending row older than the cutoff, for any peer, becomes failed; a cutoff that is not positive is refused |
| PendingQueue.Store.UpdateDeliveryStatus | storage/messages.go:216-244 | Changes the status of one row, refuses an empty id, and reports when there is no such row |
| PendingQueue.KeepsLongestSuffix | network/peer_manager.go:1497-1528 | Of all that waited for the peer, oldest first, exactly the longest suffix waits on that has nothing expired, at most 500 messages and at most 50 MiB; the number returned is that of the others that were not expired |
| PendingQueue.SecondCallDropsNothing | network/peer_manager.go:1497-1528 | A second call at the same time drops nothing and changes nothing, whatever order messages of one time are listed in |
| PendingQueue.OnlyWaitingFails | network/peer_manager.go:1502-1524 | A call turns only pending messages to failed, and other peers' only when they are too old |
| PendingQueue.EveryExpiredFails | network/peer_manager.go:1502-1513 | Whatever waited for more than 7 days fails, for any peer, and nothing that waited less for another peer does |
| MessageDelivery.AtMostOnce | network/peer_manager.go:1066-1151 | In every run with a clock that never goes back, through reconnects, row deletions and pruning, each signed message whose timestamp is less than 2^63 ns ahead of the start reaches `OnMessageReceived` at most once |
| MessageDelivery.TwiceWhenNotPlausible | network/peer_manager.go:2499-2508 | For every other timestamp there is a run that delivers its message twice, so the condition of the row above is exact |
| MessageDelivery.SkewExactly | network/peer_manager.go:2499-2508 | The skew test passes exactly within five minutes of the clock, or for a non-zero timestamp at least 2^63 ns ahead, where the clamped Duration is its own negative |
| MessageDelivery.RunRemembers | network/peer_manager.go:2399-2402 | Every delivered id is remembered until 14 days after it passed the skew test |
| MessageDelivery.PrunedDecidesAsFull | network/peer_manager.go:2399-2402 | When every id comes with one plausible timestamp, the pruned seen-id table delivers, stores and counts exactly what a never-pruned one does |
| MessageDelivery.ReusedIdIsTakenAgain | network/peer_manager.go:1086-1098 | A second message that its peer signs under an id two weeks old is delivered with the pruned table and refused with the full one |
| MessageDelivery.WaitedMessageArrives | network/peer_manager.go:1066-1070 | A queued message that comes through arrives if and only if it is at most five minutes old |
| MessageDelivery.KeptButRefused | network/peer_manager.go:1483 | The queue keeps a message for seven days, but once it is over five minutes old no receiver takes it |
| DeliveryOutcomes.DeliveredStems | network/peer_manager.go:1055-1151 | Every delivery of a run stems from an arrival whose message was signed, decoded and opened, of a known kind with text and id, from the connection's peer and to this device |
| DeliveryOutcomes.DeliveredExactly | network/peer_manager.go:1055-1141 | One arrival is delivered, stored and remembered exactly if it passes every check, each told in the message's fields, and otherwise none of the three happens |
| DeliveryOutcomes.CountedExactly | network/peer_manager.go:1056-1084 | The sequence number is used up exactly by the checks before it, whatever the later ones find |
| DeliveryOutcomes.DeliveredStays | network/peer_manager.go:1138-1140 | What was delivered once stays delivered, and in its place |
| DeliveryOutcomes.PrunedExactly | storage/seen_ids.go:49-65 | Maintenance forgets exactly the ids older than two weeks and changes nothing else |
| DeliveryOutcomes.DeletedIsRemembered | storage/messages.go:351-387 | A message whose row was deleted is not delivered again while its id is remembered |
| DeliveryOutcomes.ConnectedCountsAnew | network/connection.go:121-172 | A new connection counts its peer's sequence from one, and no other's |
| MessageDelivery.Receiver.HandleIncomingEncryptedMessage | network/peer_manager.go:1055-1151 | The checks in order, the sequence counted before the later ones, and the row, the seen id and the callback together at the end; `DeliveryOutcomes.DeliveredExactly` spells out every check |
| MessageDelivery.Receiver.ValidateSequence | network/connection.go:236-245 | A number is accepted exactly when it is above the last accepted one of the connection |
| MessageDelivery.Receiver.PruneSeenIDs | storage/seen_ids.go:49-65 | Exactly the ids received before the cutoff go; a cutoff that is not positive is refused |
| MessageDelivery.Receiver.Connect | network/connection.go:121-172 | A new connection starts its sequence anew |
| MessageDelivery.Receiver.DeleteMessages | storage/messages.go:351-387 | Retention and clearing a conversation delete rows and leave the seen ids |
| Frames.StreamReadsBack | network/protocol.go:351-371 | Reading any concatenation of written frames returns exactly the payloads in order, up to the first one over the reader's limit, and then the right error |
| Frames.CutStreamReadsWholeFrames | network/protocol.go:351-371 | Reading a stream cut after any byte returns exactly the whole frames before the cut and then an error, which is that of a clean end exactly when the cut falls between frames |
| Frames.ReadIsThere | network/protocol.go:351-371 | Whatever is read from any bytes at all, the stream began with its frames: no payload is made up |
| Frames.FramingIsInjective | network/protocol.go:320-339 | Two different lists of payloads never look the same on the wire |
| Frames.FrameReadsBack | network/protocol.go:320-371 | A written frame is read back whole, takes 4 + length bytes, and leaves what follows untouched |
| Frames.CutFrameFails | network/protocol.go:351-371 | A frame cut inside gives the error of the part that was cut; after just the header that is a plain end of stream |
| Frames.WholeFramesFit | network/protocol.go:351-371 | The whole frames before a cut are all that fit before it |
| Frames.LengthRoundTrip | network/protocol.go:325-326 | Reading the four length bytes gives the length that was written |
| Frames.HeaderRoundTrip | network/protocol.go:357 | Every four bytes are the header of exactly one length |
| Frames.MostSignificantFirst | network/protocol.go:325-326 | The most significant byte comes first: headers are ordered as their lengths are |
| Frames.Writer.WriteFrame | network/protocol.go:320-339 | All of the frame is written, or an error says that only a first part was; a payload over 10 MiB writes nothing |
| Frames.Writer.Write | network/protocol.go:328-336 | A writer takes as much as it has room for |
| Frames.Reader.ReadFrameWithLimit | network/protocol.go:351-371 | One frame is taken off the stream as specified, an oversized one only up to its header |
| Frames.Reader.ReadFull | network/protocol.go:353-366 | However the bytes come in, exactly the asked number is read, or the stream was too short |
| Frames.Reader.Read | network/protocol.go:353 | Some of what was asked for, nothing only at the end |
| DiscoveryCache.Controller.DrainEvents | ui/main_window.go:304-330 | Once every waiting event is taken, the rebuilt list agrees with the scanner on a peer if and only if the last event sent for it says the same as the last one attempted; so on all of them if none was ever dropped |
| DiscoveryCache.AgreesExactly | ui/main_window.go:304-330 | For one peer: the list rebuilt from the sent events agrees with the cache if and only if the last sent and the last attempted event for it say the same |
| DiscoveryCache.ReplayIsLast | ui/main_window.go:319-324 | A list rebuilt from events holds exactly what the last event for each peer says |
| DiscoveryCache.Controller.ReceiveAll | ui/main_window.go:310-325 | Taking every waiting event keeps the list the replay of what was sent |
| DiscoveryCache.Controller.HandleEvent | ui/main_window.go:318-324 | One event puts its peer in or takes it out |
| DiscoveryCache.PeerScanner.ApplySnapshot | discovery/peer_scanner.go:259-289 | The new cache is the merge of the old one and the scan, the events attempted announce exactly what changed, those sent are the first that found room, and replaying all attempted ones always gives the cache |
| DiscoveryCache.PeerScanner.MergeScan | discovery/peer_scanner.go:263-286 | Both loops together, over a copy of the cache |
| DiscoveryCache.PeerScanner.UpsertFound | discovery/peer_scanner.go:268-274 | In any order, every found peer goes in and exactly the new and changed ones are announced |
| DiscoveryCache.PeerScanner.UpsertTurn | discovery/peer_scanner.go:268-274 | One turn of that loop keeps what is merged, announced and sent so far in step |
| DiscoveryCache.PeerScanner.RemoveStale | discovery/peer_scanner.go:276-286 | In any order, exactly the stale peers go and each is announced once |
| DiscoveryCache.PeerScanner.RemovalTurn | discovery/peer_scanner.go:276-286 | One turn of that loop keeps what is merged, announced and sent so far in step |
| DiscoveryCache.PeerScanner.UpsertOne | discovery/peer_scanner.go:268-274 | One found peer replaces the old one, announced if new or changed |
| DiscoveryCache.PeerScanner.RemoveOne | discovery/peer_scanner.go:277-286 | One peer goes exactly when it was not found and was unseen for the stale time |
| DiscoveryCache.PeerScanner.EmitEvent | discovery/peer_scanner.go:291-296 | An event that finds the channel of 128 full is dropped |
| DiscoveryCache.PeerScanner.PeersEqual | discovery/peer_scanner.go:434-450 | The field-by-field comparison is equality up to when the peers were last seen |
| DiscoveryCache.PeerScanner.Receive | discovery/peer_scanner.go:122-124 | Events come out in the order they went in |
| DiscoveryCache.SeenPeerStays | discovery/peer_scanner.go:277-282 | Over any sequence of scans a peer stays listed until the stale time after it was last seen has passed |
| DiscoveryCache.SteadyPeerIsNotAnnounced | discovery/peer_scanner.go:268-272 | A peer that every later scan finds unchanged is never announced again, so a dropped announcement is never made up for |
| DiscoveryCache.UnseenPeerGoes | discovery/peer_scanner.go:276-286 | A peer that no scan finds is still listed exactly if none of the scans came the stale time or more after it was last seen |
| DiscoveryCache.MergedExactly | discovery/peer_scanner.go:263-286 | One scan lists what it found, and keeps what it did not find exactly while that was seen less than the stale time ago |
| DiscoveryCache.SentWhileThereIsRoom | discovery/peer_scanner.go:291-296 | While fewer than 128 events wait every event is sent, and from then on none |
| DiscoveryCache.SameExactly | discovery/peer_scanner.go:434-450 | The comparison of two peers leaves out nothing but when they were last seen |
| DiscoveryOverflow.Overflow | discovery/peer_scanner.go:259-296 | After one snapshot with more new peers than the channel holds, some peer of the scanner is missing from the rebuilt list |
| DiscoveryOverflow.ScanAgain | discovery/peer_scanner.go:268-272 | A scan that finds the same peers again leaves the rebuilt list as it is |
| DiscoveryOverflow.MissedForGood | discovery/peer_scanner.go:291-296 | With more than 128 new peers in one snapshot, one is missing after any number of later unchanged scans |
| DiscoveryOverflow.ManyPeers | discovery/peer_scanner.go:259-274 | There are 129 peers to be found at once |

## Left out

- The user interface, start-up, configuration, models, mDNS browsing and parsing, dialling, keepalive and reconnect workers.
- Real cryptography, JSON and base64, SQL text and migrations, sockets and read deadlines.
- Speed, remaining time and jitter, which are floating point and cosmetic; progress events.
- Folders, path sanitising, file names and directories. What depends on the directory is given with the step: a late approval says what another temp file holds. A restored record keeps the temp path of its checkpoint but takes its final path from the row; the model's final file is the one at the record's own path.
- TransferSafety.ChunksAreOnDisk: speaks of the first inbound transfer of a file, and of it until a step spoils it; `TransferRedelivery` and `TransferSpoils` say when the property fails afterwards.
- TransferSafety.FirstCompletionDelivers: the same; `TransferSpoils.CompletionPassesIff` covers every reachable state.
- TransferSafety.RestartReceiverKeepsDisk: asks that the row is the file's; `TransferSpoils.RestartKeepsDiskIff` has both directions.
- TransferSafety.DecideKeepsDisk: asks that no record is moved to another temp file; `TransferSpoils.LateApprovalKeepsDiskIff` has both directions.
- TransferProgress.NoResendWithoutReceiverRestart: asks that the run was started by an accept to its own request, as a delayed accept to an earlier request resumes from where the receiver was then, and that no late approval has replaced the record; `TransferSpoils.ResendsExactlyWhenBothBehind` has the exact condition for every accept.
- TransferNodes.OutboundTransfer.RunOutbound: an open, read, send or encryption error of the source file or the connection is the same as the run being stopped at that point.
- TransferNodes.InboundTransfer.HandleData: decoding and decryption errors and a wrong chunk length are one kind of unreadable chunk; the second encryption of a chunk inside its frame is part of that (`RekeyTexts` has it for texts).
- The remembered refusals of a file request (network/file_transfer.go, lines 1139-1163): in the model any request without a record in memory can be refused.
- Clearing a conversation at the sender, after which its own row is missing: a retry is then refused, and a restart forgets the transfer. At the receiver it is a step like any other.
- RekeyNodes.RekeyEndpoint.HandleNext: the ack or error reply to a text is not sent; in `RekeySafety` either side can send at any time.
- Failing writes to the store, and a process that dies between two writes of one handler other than around the rename.
- SecureSession.PeerConnection.ReadLoop: the session does not change during one call (`RekeySafety` has reads and rotations interleaved), the connection's state names are left out, and read errors end the list of frames.
- RekeyNodes.RekeyEndpoint.OnRekeyNeeded: the thresholds in bytes and time that trigger a round, the response timeout and the checks of sender, skew and signature, all of which end the round or the connection, are covered by a close at any time.
- KeyDerivation.BothEndsDeriveTheSame: white space beyond the characters below 128 is not counted as blank; epochs are natural numbers, and only `RekeyContextsAreSeparate` and `KeysOfEpochsDiffer` are limited to 64 bits.
- The purge of finished transfers from memory by maintenance, and goroutine interleavings inside one scheduler method.
- FileRequestLimiter.Limiter.Compact: the buffer is a sequence that is overwritten from the front while it is read, so it shows the in-place order but not the sharing with an older slice.
- PendingQueue.Store.EnforceQueueLimits: the overflow callback and the security event are not modelled, nor is a row that disappears between the query and the update.
- MessageDelivery.Receiver.HandleIncomingEncryptedMessage: decoding, signature, decryption and content type are given with the message (when the inner decryption succeeds is the matter of `RekeyTexts`); error replies and acks are not modelled.
- Delivery status of outgoing chat messages, which depends on a race between the ack and the local save.
- DiscoveryCache.PeerScanner.ApplySnapshot: a peer with no `LastSeen` is one whose value is absent; the scan itself and its token matching are not modelled.
