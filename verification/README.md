# Vemory: a verified model

Vemory is a single-threaded key-value store and semantic cache. One idea runs through it: a write is
encoded once, as a RESP frame, and must mean the same in memory, in the append-only file, in the
replication stream, and when replayed over a snapshot. This project models that core and proves that it
does, or says exactly when it does not.

What clients can see of a server is a `View` (`Views.dfy`): the string map, and the cache by user key.
Everything is compared through it. The files build on each other in this order.

- Bytes, codec, commands: `ByteStrings`, `Resp`, `RespErrors` (which bytes are refused, which are waited for), `Commands`,
  `Requests`, `Frames` (a byte stream as frames, prefixes, replay, consuming a stream), `Executor` (the request
  loop of a connection).
- Data: `Views` (writes and overlapping logs), `Storage` (nodes with two indexes; access order), `VNodeIndex`,
  `KvStore`, `Database` (a command applied, a log applied), `IndexRuns`.
- Snapshot: `RdbFormat`, `NodeSection`, `Snapshot` (image, two loaders), `SnapshotErrors` (damaged images), `SnapshotManager`.
- Writes: `Mutation` (a client's command with its evictions), `Sessions`, `Lookups` (what reads and
  writes answer), `Recency`, `Recovery`, `Server` (`ApplyMutation` and `Replay` over the objects).
- Writers of the append-only file: `UringWriter`, `ThreadWriter`.
- Replication: `Backlog`, `Master` and `MasterObject`, `MasterAnswers` (what each event puts on the wire), `Slave` and
  `SlaveObject`, `SlaveErrors` (what a replica refuses, in every state), `TcpConnection`, and the whole system
  as one state machine in `Replication` with its invariant proved in `ReplicationParser`, `ReplicationInvariants` and
  `ReplicationTheorems`, convergence over runs in `ReplicationConvergence`, its limits in `ReplicationLimits`,
  `ReplicationStarts` (a start before or after the fork), `ReplicationStuck` and `ReplicationWaiters` (who waits for
  how long), `ReplicationNewcomers` (a replica that followed another master), arrival in `ReplicationLiveness`, and
  client commands as runs in `ReplicationClients`.

State that the program changes in place is a class here, and each method is proved against a function on
values (`Model()` or `Data()` gives the value); the laws are lemmas about those functions. Environment choices
(what a socket or the kernel accepts, whether fork or an append succeeds, how hash maps are walked, who is
too slow, timers) are parameters or undetermined, so every claim holds for all of them. The ring buffer
keeps the ghost log of every byte ever fed; the replication system adds the ghost list of fed commands, the
count of writes that escaped the feed (`epoch`), the moment each offset was taken, and which snapshot the
replica has loaded (`loaded`).

## What was found

Each is stated as a lemma or contract; the code is modelled as it is.

- A start need not be the fork. What a replica that has caught up shows is always the feed since its start on top
  of the snapshot it loaded (`LoadedRunShows`); with both in the same epoch this is the master's data if and only
  if the commands between start and fork change nothing the rest leaves alone (`ResyncAgrees`).
- A replica that asks while a fullsync save is running keeps its own later start and misses what was fed
  between the fork and its request (`LateRun`, to the end of the run).
- A shared start outlives its fullsync cycle exactly if a fullsync's save ends well, or any save after a fullsync's was lost,
  when nobody is left unsynced (`EndStarts`, `StartsShared` over runs).
- Such a start can outlive the replica it was taken for: a third replica then applies an old command
  over a newer snapshot although it was waiting at its own fork (`StaleStartRun`, to the end of the run).
- +CONTINUE is decided on the replication id and the offset alone (`Answer`). After a write that found no registered replica, or whose append failed,
  a reconnecting replica is granted it and stays behind for good although its offset is the master's
  (`MissedWriteRun`, `MissedWrite` with the exact condition, `ContinueShows` for every state).
- The cut offset is recorded before the snapshot is loaded. A link lost in between is resumed with +CONTINUE, and the
  feed since the cut goes on top of the old data (`LostBeforeLoad`, with the exact condition).
- An announcement with an unreadable offset fails the link but leaves its id recorded beside the old offset (`ReplyRead`). A '+'
  line that ends in a bare line feed is waited on for ever (`LineAwaited`).
- A length line that has not ended is never judged: a client can keep a connection waiting with a line that no CRLF can
  make a length (`UnfinishedLineWaits`, `RefusedExactly`).
- A replica waiting for the backlog header never leaves on "-ERR backlog lost" (`NeverLeaves` says exactly when,
  `LostBacklogRun` gets there).
- If a fullsync's save child disappears without a result, every waiter stays unserved until some later save ends,
  whatever else happens (`LostChild`, `BlockedUntilSaved`, `Rescue`); with an ordinary save's child the next
  full request or save serves them (`LooseStep`).
- A failed append leaves memory changed by one command that neither file nor replicas have
  (`Server.ApplyMutation`).
- Exhausted ids are reloaded as 1 (`ReloadCoherent`), and replaying the whole file over a snapshot spends ids twice, so a
  restart can fail that a replay from the empty store would not (`Restart`, `ChurnedRestart`).
- The buffered loader refuses images the mapped one accepts if an empty node section has an unseekable offset
  (`LoadersAgree`). A node whose encoding reaches 4 GiB is never read back (`OversizeNodeLost`).
- The io_uring writer: a zero-byte completion forgets the rest of its write for good, and a true flush has everything
  in the file if and only if there was none (`Forgotten`, `Flush`); a refused frame may be in the file in part
  (`Enqueue`), `always` can skip the sync (`SyncFile`), and a flush after stop says nothing of the file (`Flush`, `Stop`).
- The thread writer: a frame pushed between the background thread's last timeout and Stop's cancel is accepted, never
  written, and no later flush returns (`ExitStrands` with the exact condition, `Stranded`, `StrandedFrame`).
  A frame written after Stop's own flush can stay unsynced, and a flush after Stop answers true all the same
  (`TrueFlush` with the exact condition, `UnsyncedFrame`).
- A map with a key or value of 4 GiB or more is saved but never read back (`LoadsBack`).

## Model

| member | source | states |
|---|---|---|
| Resp.DecodeArrayOfBulk | src/protocol/resp/RespDecode.cc:48-116 | the decoding loops compute `Decode` (tokens and bytes used, incomplete, or malformed) |
| Resp.DecodeStable | src/protocol/resp/RespDecode.cc:57-115 | a frame or an error stays the same whatever bytes follow |
| Resp.ProperPrefixNeedsMore | src/protocol/resp/RespDecode.cc:57-115 | every proper prefix of a frame is incomplete, never malformed |
| Resp.ArrayRoundTrip | src/protocol/resp/RespEncode.cc:35-56 | an encoded array of any byte strings decodes to itself in front of any bytes |
| RespErrors.Refused | src/protocol/resp/RespDecode.cc:57-115 | bytes that are no array, a finished count or length line without a number, a missing '$', and a payload without its CRLF are malformed, behind any number of good bulk strings |
| RespErrors.RefusedExactly | src/protocol/resp/RespDecode.cc:57-115 | all bytes: malformed, extendable to a frame, or cut within a line that no CRLF makes good; malformed bytes are never extendable |
| RespErrors.NoFalseHope | src/protocol/resp/RespDecode.cc:57-115 | what is incomplete can become a frame, or fails when its line ends |
| RespErrors.UnfinishedLineWaits | src/protocol/resp/RespDecode.cc:17-46 | a line that has not ended is waited for, whatever is in it |
| Commands.EncodeWriteCommand | src/protocol/resp/RespEncode.cc:62-96 | the appending encoder produces the command's one wire form |
| Commands.WireRoundTrip | src/protocol/resp/RespEncode.cc:62-96 | a write survives encoding, decoding and request mapping exactly if its key is not empty, for any binary payloads |
| Commands.TokensRoundTrip | src/protocol/RequestContext.cc:55-145 | a command's tokens map back to the command, an empty key is refused |
| Commands.VerbIs | src/protocol/CommandType.cc:23-55 | a token is a verb if and only if it is its name in some letter case |
| Commands.WritesAre | src/protocol/RequestContext.cc:55-145 | tokens are a given write if and only if they are its own, up to the case of the name, and its key is not empty |
| Commands.RefusedFor | src/protocol/RequestContext.cc:38-200 | each refusal, if and only if: no tokens, an unknown name, the wrong number, an empty value where none is allowed |
| Requests.RequestContext.FromTokens | src/protocol/RequestContext.cc:38-200 | the filled fields are exactly the command's, and a refused request leaves none set |
| Requests.ParseCommandType | src/protocol/CommandType.cc:23-55 | verbs are recognised in any letter case, in the order tried |
| Frames.SplitAppend | src/protocol/ProtocolExecutor.cc:27-51 | where a stream is cut into reads does not change its frames |
| Frames.SplitEncoded | src/persist/WalManager.cc:92-120 | encoded commands in front of any bytes come out as exactly their tokens |
| Frames.SplitPrefix | src/persist/WalManager.cc:92-110 | any byte prefix of an encoded log is its longest whole-frame prefix and a cut frame |
| Frames.CrashPrefix | src/persist/WalManager.cc:66-133 | a log cut at any byte replays as exactly its longest whole-frame prefix |
| Frames.ReplayWhole | src/persist/WalManager.cc:66-133 | a whole encoded log replays as its commands |
| Frames.ConsumeAppend | src/replication/ReplicationSlave.cc:314-368 | two reads of a stream do what one read of both does, failures included |
| Frames.EndsBehind | src/persist/WalManager.cc:92-129 | bytes that are no frame behind applicable commands: a replay ends quietly, a stream waits or fails |
| Frames.StopsAt | src/replication/ReplicationSlave.cc:314-368 | a frame that is no valid write, or cannot be applied, behind applicable commands: where a replay ends quietly or fails and a stream fails |
| ProtocolExecutors.ProtocolExecutor.OnBufferReadable | src/protocol/ProtocolExecutor.cc:14-52 | the loop always returns, having served every whole frame in order and reported malformed bytes once |
| ProtocolExecutors.RequestsThenRest | src/protocol/ProtocolExecutor.cc:14-52 | requests are served, what follows is kept, and the error is written exactly if it is malformed |
| ProtocolExecutors.JunkReported | src/protocol/ProtocolExecutor.cc:35-41 | bytes that do not start with '*' are reported behind the replies to the requests before them |
| ProtocolExecutors.Fragmentation | src/protocol/ProtocolExecutor.cc:14-52 | any fragmentation gives the same requests, replies and leftover bytes; only the error repeats, once per read after bad bytes |
| ProtocolExecutors.FragmentsInvisible | src/protocol/ProtocolExecutor.cc:38-45 | the client sees what one read would have given if and only if the bytes before the last read are well formed as far as they go |
| ProtocolExecutors.MessageBuffer.ReadCompleted | include/vemory/net/MessageBuffer.h:44-50 | exactly the consumed bytes leave the buffer |
| Views.SameAfterLog | src/mutate/MutationApply.cc:16-112 | a log erases the difference of two states if and only if they differ only where it writes |
| Views.Overlap | src/Vemory.cc:162-187 | replaying a log over a state that contains a prefix of it changes nothing |
| VNodeStorages.VNodeStorage.PutNode | src/storage/VNodeStorage.cc:3-26 | a known key keeps its id, a new one gets the next, and ids run out for good |
| VNodeStorages.PutKeepsInverse | src/storage/VNodeStorage.cc:3-26 | put keeps the two indexes mutual inverses and gives a new key an unused id |
| VNodeStorages.RestoreKeepsInverse | src/storage/VNodeStorage.cc:28-38 | restore refuses what would break the inverse indexes |
| LruOrders.LruOrder.Push | include/vemory/util/LruOrder.h:28-37 | list and map agree; the pushed id becomes the most recent |
| LruOrders.OrderBound | src/storage/VNodeIndex.cc:89-107 | distinct nonzero uint16 ids are at most 65535, so the peek loop's bound never stops it |
| VNodeIndexes.VNodeIndex.PeekLruUserKey | src/storage/VNodeIndex.cc:84-107 | stale ids are dropped and the first live id's key is the victim |
| VNodeIndexes.VNodeIndex.Set | src/storage/VNodeIndex.cc:109-151 | storage, access order and vectors change together, every error leaves the entries as they were |
| VNodeIndexes.VNodeIndex.Get | src/storage/VNodeIndex.cc:153-191 | the distance is compared with the threshold and the answer is the hit node's, which becomes most recent; nothing else changes |
| VNodeIndexes.VNodeIndex.Del | src/storage/VNodeIndex.cc:193-209 | key, id, vector and place in the order go together |
| VNodeIndexes.SetKeepsCoherent | src/storage/VNodeIndex.cc:109-151 | storage, access order and vectors keep the same id set |
| VNodeIndexes.VNodeIndex.DumpNodes | src/storage/VNodeIndex.cc:218-239 | every node once, in the order the storage walks them |
| VNodeIndexes.VNodeIndex.LoadNodes | src/storage/VNodeIndex.cc:241-269 | the record loop restores exactly the decoded nodes and rebuilds the order |
| VNodeIndexes.VNodeIndex.LoadNodesFrom | src/storage/VNodeIndex.cc:271-309 | the same over a mapped section, which must be used up |
| IndexRuns.AlwaysCoherent | src/storage/VNodeIndex.cc:109-309 | any sequence of set, get, del, clear and sensible loads keeps the three structures in agreement |
| Databases.ApplyShows | src/mutate/MutationApply.cc:16-112 | a command shows clients exactly its effect if it replies ok, nothing otherwise, and keeps coherence |
| Databases.RunShows | src/persist/WalManager.cc:92-129 | however far a log gets, clients see the effects of exactly the commands that succeeded |
| Databases.RunsInFull | src/storage/VNodeStorage.cc:12-26 | a log is applied in full if and only if the ids it asks for are still free |
| KvStores.KvStore.Load | src/storage/KvStore.cc:72-105 | the loading loop computes the section's map, first occurrence of a key winning |
| KvStores.FirstWins | src/storage/KvStore.cc:72-161 | a key that has been read keeps its value, whatever follows and however the load ends |
| KvStores.SectionRoundTrip | src/storage/KvStore.cc:51-161 | a dumped map loads back as itself in whatever order it was walked |
| KvStores.LoadsBack | src/storage/KvStore.cc:51-161 | a dumped map loads back if and only if it has fewer than 2^64 keys, none empty, and every key and value is shorter than 4 GiB; no bytes load back as any other map |
| NodeSections.NodeRoundTrip | src/storage/RespVNodeCodec.cc:9-57 | a node survives its codec |
| NodeSections.NodeBytes | src/storage/RespVNodeCodec.cc:22-57 | an array is a node if and only if it has four strings, the first an id, and nothing follows it |
| NodeSections.ReadId | src/storage/RespVNodeCodec.cc:41-50 | the digit loop accepts exactly the numerals up to 65535 |
| NodeSections.OversizeNodeLost | src/storage/VNodeIndex.cc:224-236 | a node of 4 GiB or more, written with its length cut to 32 bits, never decodes |
| NodeSections.NodeSectionRoundTrip | src/storage/VNodeIndex.cc:218-309 | a dumped storage loads back with both indexes, whatever follows it |
| RdbFormat.ParseHeaderBytes | include/vemory/persist/RdbFormat.h:39-76 | the cursor reads the fields in order and every non-empty section lies inside the image |
| RdbFormat.HeaderRoundTrip | src/persist/SnapshotManager.cc:95-146 | a written header reads back |
| Snapshots.SaveLoad | src/persist/SnapshotManager.cc:148-388 | for any walking order and either loader, a saved server loads back with its maps, nodes, vectors and next id |
| Snapshots.ReloadCoherent | src/storage/VNodeIndex.cc:266 | reloading keeps coherence if and only if ids were not exhausted or no node is left |
| Snapshots.LoadedCoherent | src/persist/SnapshotManager.cc:258-388 | any loaded image is coherent if and only if its next id is above its ids and its vectors are its nodes' |
| Snapshots.LoadersAgree | src/persist/SnapshotManager.cc:258-388 | what the mapped loader accepts the buffered loader accepts with the same result, with the exact exception |
| Snapshots.PathAccepts | src/persist/SnapshotManager.cc:398-441 | a file is accepted if and only if one of the loaders accepts it, with the mapped loader's result if that one does |
| SnapshotErrors.TruncatedRefused | src/persist/SnapshotManager.cc:258-441 | a saved image cut short anywhere is refused by both loaders |
| SnapshotErrors.OtherFormatRefused | src/persist/SnapshotManager.cc:118-146 | another magic or version, or less than a header, is refused and changes nothing |
| SnapshotErrors.AsAnnounced | src/persist/SnapshotManager.cc:258-388 | what loads has exactly the announced numbers of pairs and nodes, dimension and next id, and a mapped load has used up its sections |
| SnapshotManagers.SnapshotManager.WriteImage | src/persist/SnapshotManager.cc:148-244 | sections one after the other, the header last from where they ended, make the image |
| SnapshotManagers.SnapshotManager.LoadFromFile | src/persist/SnapshotManager.cc:258-310 | the buffered loader over the objects is the value-level one, failures included |
| SnapshotManagers.SnapshotManager.LoadFromMapped | src/persist/SnapshotManager.cc:312-388 | so is the mapped loader |
| SnapshotManagers.SnapshotManager.LoadFromPath | src/persist/SnapshotManager.cc:398-441 | the buffered loader is tried over what a failed mapped load left behind |
| SnapshotManagers.SnapshotManager.BackgroundSaveToPath | src/persist/SnapshotManager.cc:464-489 | at most one child, and it writes the data as at the fork |
| SnapshotManagers.SnapshotManager.ReapSaveChild | src/persist/SnapshotManager.cc:491-527 | a finished child is reported once, with its path, and a good one has replaced the file |
| Mutations.EvictMakesRoom | src/mutate/MutationApply.cc:57-74 | eviction takes place exactly for a new key at the limit; it terminates, never fails, deletes exactly the least recently used keys needed, oldest first, and logs one VDEL each |
| Mutations.ClientShows | src/mutate/MutationApply.cc:10-142 | clients see exactly the effects of what a command logged, in order |
| Mutations.ClientReplays | src/mutate/MutationApply.cc:113-138 | what a command logged, replayed over the same data, leaves the same data |
| Lookups.GetAnswers | src/storage/VNodeIndex.cc:153-191 | a lookup answers, if and only if the nearest match is live and near enough, with the cached answer clients see under its key |
| Lookups.SetAnswers | src/storage/VNodeIndex.cc:109-151 | each status of a VSET, if and only if |
| Lookups.AnswersLastStored | src/storage/VNodeIndex.cc:109-191 | over every run: a lookup that hits a key gets the answer stored last, until the key is written again or evicted |
| Lookups.DoneWhen | src/mutate/MutationApply.cc:16-55 | DEL and VDEL are done, and take one entry away, if and only if clients see one; a write without a key is refused |
| Lookups.ClientLogs | src/mutate/MutationApply.cc:41-142 | exactly which commands a client's write puts into the log; a miss puts none |
| Sessions.ReplayEqualsMemory | src/persist/WalManager.cc:92-129 | after any run replay gives the same maps, ids and next id, though it sees no lookups and never evicts |
| Sessions.FileEqualsMemory | src/persist/WalManager.cc:66-133 | the same byte for byte from the empty store |
| Sessions.BoundKept | src/mutate/MutationApply.cc:57-74 | a run that starts within max_entries stays within it |
| Recency.OrderIsLastUse | include/vemory/util/LruOrder.h:18-66 | after any run the access order lists the live keys by last store or hit |
| Recency.VictimsAreOldest | src/mutate/MutationApply.cc:57-74 | every victim was last used before every key that stays |
| Recoveries.Restart | src/Vemory.cc:162-187 | snapshot at any moment plus the file cut anywhere after it shows the whole frames' effects; it succeeds if and only if ids suffice |
| Recoveries.RestartWhole | src/Vemory.cc:162-187 | with the whole file a restart shows the end of the run |
| Recoveries.ChurnedRestart | src/storage/VNodeStorage.cc:17-19 | storing and deleting a key n times makes the restart fail if and only if twice n exceeds the ids |
| Servers.Server.ApplyMutation | src/mutate/MutationApply.cc:10-142 | the objects change as the value-level command says; file and feed grow by exactly the logged commands, or by all but the last if the writer refused it; the reply is the number of entries clients see no longer |
| Servers.Server.MakeRoom | src/mutate/MutationApply.cc:57-74 | the eviction loop over the objects is the value-level eviction |
| Servers.Server.Record | src/mutate/MutationApply.cc:113-138 | one encoding goes first to the file and then to the feed |
| Servers.Server.Replay | src/persist/WalManager.cc:66-133 | the replay loop is the value-level replay: quiet at damage, an error at a command that cannot be applied |
| Servers.WalManager.AppendFrame | src/persist/WalManager.cc:34-48 | a frame is appended exactly if the writer says so, and every answer of the writer is passed on |
| UringWriters.IoUringAofWriter.PeekCompletions | src/persist/IoUringAofWriter.cc:267-326 | completions in any order and any pieces keep every laid-out byte written or asked for; it ends when the ring has none left, and the writer fails only if a write did |
| UringWriters.IoUringAofWriter.FlushBuffer | src/persist/IoUringAofWriter.cc:363-419 | buffered bytes are laid out and submitted, or put back, none lost or reordered; it fails only if a ring operation did or the ring had no completion to give time and again |
| UringWriters.IoUringAofWriter.Enqueue | src/persist/IoUringAofWriter.cc:46-103 | true means exactly this frame was accepted behind the others, and under policy always handed to the ring and not known unsynced; false a prefix of it; a small frame is taken without any ring operation; false only if refused at entry, refused by the ring or starved of completions; the buffer stays within its cap |
| UringWriters.IoUringAofWriter.Flush | src/persist/IoUringAofWriter.cc:105-123 | true means the file is its initial content and the accepted bytes in order, if and only if no zero-byte completion came, and synced then unless the policy is no; false only if the writer had failed, was refused or starved by the ring |
| UringWriters.IoUringAofWriter.SyncFile | src/persist/IoUringAofWriter.cc:230-249 | with nothing known to be written it replies true without syncing |
| UringWriters.IoUringAofWriter.Poll | src/persist/IoUringAofWriter.cc:147-173 | every poll takes the completions there are; a flush that is due empties the buffer and a sync that is due leaves nothing known unsynced, unless refused or starved by the ring |
| UringWriters.IoUringAofWriter.Stop | src/persist/IoUringAofWriter.cc:125-143 | the first stop flushes, with what a flush promises, and closes; a later one does nothing |
| UringWriters.Completed | src/persist/IoUringAofWriter.cc:318-324 | a write of the whole rest leaves nothing of it to wait for |
| UringWriters.Shortened | src/persist/IoUringAofWriter.cc:294-317 | after a short write the rest is still awaited and what was written is right |
| UringWriters.Forgotten | src/persist/IoUringAofWriter.cc:292-297 | a zero-byte completion loses exactly the write's unwritten positions: not in the file, not awaited by any other write |
| ThreadWriters.BlockingQueue.Push | include/vemory/util/BlockingQueue.h:23-36 | the monitor step keeps the bound and the order |
| ThreadWriters.RunKeeps | src/persist/ThreadAofWriter.cc:28-249 | under every interleaving the pending count is queued plus in hand plus pushes in progress, and the order of frames is intact |
| ThreadWriters.NeverSaturates | src/persist/ThreadAofWriter.cc:37-47 | the saturating subtraction never saturates, on any path |
| ThreadWriters.TrueFlush | src/persist/ThreadAofWriter.cc:214-249 | a true flush has every frame accepted before it written in order, and synced per policy unless Stop closed the file over unsynced bytes, if and only if |
| ThreadWriters.NothingLost | src/persist/ThreadAofWriter.cc:130-199 | while the writer has not failed, written, in hand and queued make up what was accepted |
| ThreadWriters.AlwaysSynced | src/persist/ThreadAofWriter.cc:109-116 | over every run: under policy always nothing written stays unsynced between batches, a flush answers false only after a failure, and a batch keeps its limit |
| ThreadWriters.DueSyncs | src/persist/ThreadAofWriter.cc:109-147 | over every run: a sync that is due, after a batch or at a timeout, leaves everything written synced or the writer failed |
| ThreadWriters.FailsOnlyBy | src/persist/ThreadAofWriter.cc:84-199 | the writer fails only by a failed open, write or sync, or an empty frame |
| ThreadWriters.FailureCancels | src/persist/ThreadAofWriter.cc:130-199 | over every run: once the background thread has failed by itself it does nothing else before the queue is cancelled |
| ThreadWriters.RefusedOnlyBy | src/persist/ThreadAofWriter.cc:201-212 | a call is refused at entry if and only if the writer is stopped, failed or cancelled, and at the push if and only if the queue is cancelled; only a push accepts |
| ThreadWriters.NeverStuck | src/persist/ThreadAofWriter.cc:130-199 | until it has exited the background thread can always move |
| ThreadWriters.ExitStrands | src/persist/ThreadAofWriter.cc:133-137 | the frames an exit leaves behind are exactly those pushed since the background thread's last timeout |
| ThreadWriters.PurgedLeavesNothing | src/persist/ThreadAofWriter.cc:159-197 | every other exit has failed and leaves the queue empty |
| ThreadWriters.Stranded | src/persist/ThreadAofWriter.cc:201-232 | after an exit nothing is accepted, queued or written in any continuation, and with frames left no waiting flush goes on |
| ThreadWriters.StrandedFrame | src/persist/ThreadAofWriter.cc:234-249 | a run from every idle state in which Stop's flush answers true and a frame accepted during Stop is left in the queue |
| ThreadWriters.UnsyncedFrame | src/persist/ThreadAofWriter.cc:234-249 | a run from every idle state after which a flush answers true for a frame that is never synced |
| TcpConnections.TcpConn.Send | src/net/TcpConnection.cc:30-60 | accepted bytes follow everything accepted before, whatever the socket takes; with nothing pending the socket is asked at once; the connection breaks only if the socket says so |
| TcpConnections.TcpConn.SendFile | src/net/TcpConnection.cc:62-86 | the file follows what was accepted before it |
| TcpConnections.TcpConn.HandleWrite | src/net/TcpConnection.cc:141-182 | buffer, file, then what was queued behind it and the callback's sends, in order; it ends with nothing pending, or with a socket that took less than it was offered |
| TcpConnections.TcpConn.OutputBufferedBytes | src/net/TcpConnection.cc:24-28 | accepted length is sent length plus this count |
| ReplicationBacklogs.DropBase | src/replication/ReplicationBacklog.cc:68-78 | dropping ends with room for the frame and drops nothing when there is room |
| ReplicationBacklogs.Retention | src/replication/ReplicationBacklog.cc:9-78 | how much history a frame costs, exactly; whoever is behind by no more than the rest of the ring keeps a retained offset |
| ReplicationBacklogs.ReplicationBacklog.FeedEncoded | src/replication/ReplicationBacklog.cc:9-26 | the ring holds a suffix of everything ever fed, wrap-around and oversize frames included |
| ReplicationBacklogs.ReplicationBacklog.CopyRange | src/replication/ReplicationBacklog.cc:32-55 | exactly the fed bytes of the range, or a refusal |
| ReplicationBacklogs.AppendHolds | src/replication/ReplicationBacklog.cc:57-66 | overwriting behind the retained range keeps it |
| ReplicationMasters.PsyncServes | src/replication/ReplicationMaster.cc:92-128 | a waiter implies a running save, after every request |
| ReplicationMasters.SaveDoneServes | src/replication/ReplicationMaster.cc:236-266 | a finished fullsync save leaves no waiter behind unserved |
| ReplicationMasters.OthersServe | src/replication/ReplicationMaster.cc:130-171 | feed, file sent, SAVE, open and close strand no waiter |
| ReplicationWaiters.StepServes | src/replication/ReplicationMaster.cc:92-281 | a waiter implies a running save over every step of the system but the loss of a child |
| ReplicationWaiters.NoneStranded | src/replication/ReplicationMaster.cc:92-281 | so in every run without such a loss nobody waits for nothing |
| ReplicationWaiters.LostChild | src/persist/SnapshotManager.cc:501-506 | losing the child blocks the cycle if it was a fullsync's, leaves an ordinary save's waiters loose, and otherwise strands nobody |
| ReplicationWaiters.BlockedStep | src/replication/ReplicationMaster.cc:178-181 | a blocked cycle is freed by the end of a save and by no other event |
| ReplicationWaiters.BlockedUntilSaved | src/replication/ReplicationMaster.cc:178-266 | over every run: waiters are served again if and only if a save has ended since, and that takes an ordinary save started after the loss |
| ReplicationWaiters.WaitsUntilSaved | src/replication/ReplicationMaster.cc:178-181 | until then a waiter that stays registered has been sent nothing |
| ReplicationWaiters.Rescue | src/replication/ReplicationMaster.cc:236-266 | the save that ends it forks a fullsync for everyone still waiting |
| ReplicationWaiters.LooseStep | src/replication/ReplicationMaster.cc:178-213 | loose waiters are served by the next full request or save and by nothing else |
| MasterObjects.ReplicationMaster.OnChildLost | src/persist/SnapshotManager.cc:501-506 | nothing of the master changes |
| ReplicationMasters.FeedGapFree | src/replication/ReplicationMaster.cc:130-171 | every synced replica has been sent exactly the log from its start to the tip |
| ReplicationMasters.PsyncGapFree | src/replication/ReplicationMaster.cc:58-128 | so after a partial or full answer |
| ReplicationMasters.SendFileDoneGapFree | src/replication/ReplicationMaster.cc:311-376 | so after the backlog has followed the snapshot |
| MasterObjects.ReplicationMaster.OnPsync | src/replication/ReplicationMaster.cc:92-128 | the object registers, answers and starts saves as the value-level master, and its wire bytes are the reply's |
| ReplicationNewcomers.Answer | src/replication/ReplicationMaster.cc:58-128 | the reply begins with +CONTINUE if and only if the request names the master's own id and a retained offset; exactly then the connection is synced, and the log from there follows |
| ReplicationNewcomers.NeverContinues | src/replication/ReplicationMaster.cc:92-128 | over every run: a replica that followed another master keeps its id, offset and data until a full resync is announced to it |
| MasterAnswers.FeedAnswers | src/replication/ReplicationMaster.cc:130-171 | each connection: a synced one gets the frame and only a slow one is cut off, an unsynced one is told of the overflow and cut off exactly if its start is gone |
| MasterAnswers.StartAnswers | src/replication/ReplicationMaster.cc:178-234 | each connection: waiters get the shared start, or are told of a failed fork and forgotten; nobody else notices |
| MasterAnswers.EndAnswers | src/replication/ReplicationMaster.cc:236-329 | each connection, byte for byte: a waiter is sent its start and the snapshot, or one of the three errors |
| MasterAnswers.OtherEndAnswers | src/replication/ReplicationMaster.cc:236-266 | the end of any other save starts one for those who wait, from the shared start, or tells them it failed |
| MasterAnswers.FileAnswers | src/replication/ReplicationMaster.cc:311-376 | behind the snapshot go the length and the log from the replica's start, or the error; a failed transfer ends in silence |
| MasterAnswers.ConnectionAnswers | src/replication/ReplicationMaster.cc:378-391 | a closed connection is gone with its replica, a new one has been sent nothing, and others do not notice |
| MasterAnswers.EndStarts | src/replication/ReplicationMaster.cc:236-266 | the shared start outlives its cycle in exactly the case named |
| MasterAnswers.CycleLasts | src/replication/ReplicationMaster.cc:361-391 | the cycle goes on exactly as long as somebody is unsynced or its save is running; after a completed transfer the save no longer counts |
| ReplicationWaiters.StartsShared | src/replication/ReplicationMaster.cc:178-391 | over every run: all who wait for a save yet to be forked share one start, and none is left over unless one leaked |
| MasterObjects.ReplicationMaster.TryPartialResync | src/replication/ReplicationMaster.cc:58-90 | granted exactly if the offset is retained, with the log from there |
| MasterObjects.ReplicationMaster.FeedEncodedFrame | src/replication/ReplicationMaster.cc:130-171 | two loops: push to the synced, then close the slow and the overtaken |
| MasterObjects.ReplicationMaster.StartFullsyncIfNeeded | src/replication/ReplicationMaster.cc:178-234 | waiters share one start; a failed fork tells and drops them all |
| MasterObjects.ReplicationMaster.OnSaveDone | src/replication/ReplicationMaster.cc:236-266 | serves, drops or forks again for every waiter |
| MasterObjects.ReplicationMaster.SendRdbToSlave | src/replication/ReplicationMaster.cc:283-329 | header and file, or the error, for one waiter after the other |
| MasterObjects.ReplicationMaster.SendBacklogToSlave | src/replication/ReplicationMaster.cc:331-376 | the backlog follows the snapshot, or the replica is dropped |
| MasterObjects.ReplicationMaster.RemoveSlave | src/replication/ReplicationMaster.cc:378-391 | the shared flag falls when nobody is left unsynced and no save is running |
| ReplicationSlaves.ChunkIndependence | src/replication/ReplicationSlave.cc:402-519 | one read in two gives the same state, data, leftover and offset, a failure the same failure and data |
| ReplicationSlaves.CutsDoNotMatter | src/replication/ReplicationSlave.cc:402-519 | so does any number of reads, from any state |
| SlaveErrors.ReplyRead | src/replication/ReplicationSlave.cc:192-223 | any '+' line: "CONTINUE", an announcement in its one form with a number for its offset, or the link fails |
| SlaveErrors.RefusalFails | src/replication/ReplicationSlave.cc:231-239 | a '-' line fails the link and changes nothing else |
| SlaveErrors.JunkFails | src/replication/ReplicationSlave.cc:240-243 | a first byte other than '+' or '-' fails the link at once |
| SlaveErrors.LineAwaited | src/replication/ReplicationSlave.cc:225-253 | exactly which first bytes are waited on |
| SlaveErrors.NumberRead | src/replication/ReplicationSlave.cc:208-213 | a number is found exactly where blanks, a sign and digits stand, and with that value |
| SlaveErrors.LengthIs | src/replication/ReplicationSlave.cc:265-270 | a text has a length if and only if it begins with a number, and that one |
| SlaveErrors.OffsetIs | src/replication/ReplicationSlave.cc:207-213 | a number is an offset if and only if nothing but a zero byte follows it; a negative one wraps around |
| SlaveErrors.LengthRead | src/replication/ReplicationSlave.cc:255-276 | any finished '$' line: no number or a negative one fails the link, a positive one is awaited, zero goes on at once |
| SlaveErrors.SnapshotRead | src/replication/ReplicationSlave.cc:278-312 | with its last bytes the received file is loaded, and the link fails exactly if it does not load |
| SlaveErrors.BacklogRead | src/replication/ReplicationSlave.cc:370-384 | a backlog of whole commands is applied and counted; any byte behind them fails the link |
| SlaveErrors.StreamRead | src/replication/ReplicationSlave.cc:386-400 | whole commands are applied and counted, an unfinished one is kept, malformed bytes fail the link |
| SlaveErrors.CommandFails | src/replication/ReplicationSlave.cc:314-400 | a frame that is no write, or cannot be applied, fails the link, and what came before it stays applied but uncounted |
| SlaveObjects.ReplicationSlave.OnReadable | src/replication/ReplicationSlave.cc:402-519 | the loop over the object's fields and stores is the value-level parser |
| SlaveObjects.ReplicationSlave.ConsumeStreamFrames | src/replication/ReplicationSlave.cc:314-368 | whole frames are applied; on failure nothing counts as consumed |
| SlaveObjects.ReplicationSlave.HandleSyncReply | src/replication/ReplicationSlave.cc:192-223 | the id and cut offset are recorded at the announcement, the offset as C reads numerals |
| SlaveObjects.ReplicationSlave.FinishRdbAndLoad | src/replication/ReplicationSlave.cc:293-312 | the received file is loaded, and is gone from its old name even if it does not load |
| SlaveObjects.ReplicationSlave.ResetLink | src/replication/ReplicationSlave.cc:51-75 | data, id and offset survive a lost link |
| ReplicationTheorems.BacklogUsedUp | src/replication/ReplicationSlave.cc:370-384 | the truncated-frame failure is unreachable: a backlog is used up unless a command in it is rejected |
| ReplicationTheorems.SnapshotOnTrack | src/replication/ReplicationMaster.cc:178-234 | a snapshot forked no earlier than the start offset, with the log from that offset, leads to the master's data |
| ReplicationInvariants.WriteKeeps | src/replication/ReplicationMaster.cc:130-171 | a client write, fed or not, keeps the system invariant |
| ReplicationInvariants.PsyncKeeps | src/replication/ReplicationMaster.cc:92-128 | so does every request, of the followed replica or of others |
| ReplicationInvariants.SaveEndsKeeps | src/replication/ReplicationMaster.cc:236-281 | so does the end of a save, whatever its outcome and fates |
| ReplicationTheorems.RoundKeeps | src/replication/ReplicationSlave.cc:402-519 | so does every round of the replica's parser on any bytes received so far |
| ReplicationConvergence.RunKeeps | src/replication/ReplicationMaster.cc:46-391 | the invariant holds in every state of every run |
| ReplicationConvergence.SettledStreams | src/replication/ReplicationSlave.cc:402-519 | a replica that has read everything is streaming or has failed |
| ReplicationConvergence.Convergence | src/replication/ReplicationSlave.cc:293-400 | a loaded replica that has consumed everything shows the master's data and has its offset, if no write escaped since its recorded moment |
| ReplicationConvergence.FullResync | src/replication/ReplicationMaster.cc:178-376 | over every run: a replica waiting at the fork converges, fork and start apart or not, links lost or not |
| ReplicationConvergence.PartialResync | src/replication/ReplicationSlave.cc:51-142 | over every run: a replica in step stays so over links lost at any byte and +CONTINUE |
| ReplicationConvergence.EpochCounts | src/mutate/MutationApply.cc:113-138 | the epoch stands still if and only if no write escaped the feed |
| ReplicationConvergence.LoadKept | src/replication/ReplicationSlave.cc:192-223 | over every run only a new announcement takes a completed load back |
| ReplicationConvergence.SettledShows | src/replication/ReplicationSlave.cc:293-400 | a replica that has consumed everything shows the feed since its start on top of the snapshot it loaded, whoever was waiting and whatever escaped |
| ReplicationConvergence.LoadedRunShows | src/replication/ReplicationSlave.cc:293-400 | so over every run, links lost or not |
| ReplicationStarts.ResyncAgrees | src/replication/ReplicationMaster.cc:178-376 | over every run: such a replica has the master's data if and only if the commands between start and fork change nothing the rest leaves alone |
| ReplicationConvergence.MarksPast | src/replication/ReplicationMaster.cc:118-121 | every recorded start is the tip of an earlier moment of the run |
| ReplicationLimits.StreamPosition | src/replication/ReplicationSlave.cc:386-400 | while streaming, offset plus leftover is the position received |
| ReplicationLimits.FailsOnlyWhen | src/replication/ReplicationSlave.cc:168-190 | a link fails only on a master's error, an unloadable snapshot or a rejected command |
| ReplicationLimits.LostBeforeLoad | src/replication/ReplicationSlave.cc:192-223 | a run from every state between announcement and load: the link is lost, +CONTINUE granted, and the data agree if and only if the old data differed only where the rest writes |
| ReplicationStuck.NeverLeaves | src/replication/ReplicationSlave.cc:255-276 | a replica in the backlog header state never leaves it, whatever arrives, if and only if the first byte is no '$' or the first line feed lacks its return |
| ReplicationStuck.LostBacklogRun | src/replication/ReplicationMaster.cc:331-376 | a run in which the master sends its error line to a replica in that state |
| ReplicationLimits.ContinueShows | src/replication/ReplicationMaster.cc:58-90 | from every state, what a granted +CONTINUE leads to |
| ReplicationLimits.MissedWrite | src/mutate/MutationApply.cc:123 | a missed write shows unless its place is overwritten or it changed nothing, if and only if |
| ReplicationLimits.MissedWriteRun | src/replication/ReplicationMaster.cc:63-70 | a run from every synced state after which offsets agree but the data only if the write changed nothing |
| ReplicationStarts.LatePsync | src/replication/ReplicationMaster.cc:118-127 | a request during a running save keeps its own later start and is not waiting for that save |
| ReplicationStarts.LateRun | src/replication/ReplicationMaster.cc:178-376 | a run to its end: such a replica streams at the master's offset and has its data if and only if the missed commands changed nothing the rest leaves alone |
| ReplicationStarts.StaleStartRun | src/replication/ReplicationMaster.cc:195-205 | a run to its end: a waiting replica with a start older than an escaped write, and when it has the master's data, if and only if |
| ReplicationLiveness.Arrives | src/replication/ReplicationSlave.cc:402-519 | left alone, a served replica comes to rest in finitely many rounds, streaming if and only if what is left of the feed can be applied |
| ReplicationLiveness.ApplicableIds | src/storage/VNodeStorage.cc:12-26 | that is so if and only if the ids it asks for are free in the loaded snapshot |
| ReplicationLiveness.FullResyncArrives | src/replication/ReplicationSlave.cc:402-519 | a replica waiting at the fork ends with the master's data and offset if and only if the ids suffice, and fails otherwise |
| ReplicationClients.ClientRun | src/mutate/MutationApply.cc:57-142 | a client command with its evictions is a run of the replication system |

## Left out

- The nearest-neighbour library: an index is a map from id to vector, a search returns some id or none, adding and removing succeed; its section of the snapshot is a stand-in with the same round trip.
- Integers: lengths, counts and offsets are unbounded; the 64-bit overflow of a decoded length or of the log's offsets, and the 31-bit return value of `Send`, are not modelled. Ids, the 4-byte lengths and the 8-byte header fields are.
- ReplicationSlaves.WholeUnsigned: numerals do not saturate at 64 bits. In `LeadingInt` a '$' line blank up to its end has no number; the C parser would go on behind it.
- Commands.FromTokens: the numbers inside VGET and PSYNC are not read; whether they can be read is an input of `RequestContext.FromTokens`, and PSYNC's id and offset are inputs of `OnPsync`.
- Reply texts to clients, GET, PING, ECHO and the dispatch table: easy members.
- UringWriters.Ring: writes are taken as positional although the file is opened for appending; where the kernel ignores the offset of an append-mode file the order claims do not follow.
- ThreadWriters.Writer: a batch is written in one action under the file's mutex, so the partial bytes of a failed batch are not part of `written`.
- Replication.Sys: connections are never reused within a run, bytes on a connection count from its last PSYNC, and a replica that closes inside one of the master's loops is a later step.
- Replication.Sys: one replica is followed byte by byte among any number of others. The master keeps its replication id; its restart is modelled from the other side, as a replica that comes with another id (`SlaveComes`).
- ReplicationSlaves.Iterate: the bytes of the replica's own PSYNC request are not modelled; its id and offset reach the master as they are.
- ReplicationSlaves.Iterate: local file errors (open, write, rename of the received snapshot) are not modelled; a missing file is.
- MasterObjects.ReplicationMaster: a send is handed to the connection in order, which `TcpConn` proves of itself; the two are not one object.
- Servers.Server: null stores are not modelled, and the writer behind `WalManager` is the bytes it has accepted and its answers; what the two writers make of the bytes and when they refuse is proved of them.
- LruOrders.LruOrder: list positions are not modelled, only the list and the set of known ids.
- ReplicationLiveness.FullResyncArrives: the master's own progress (that a save ends, that a file is sent) is assumed, only the replica's is proved.
- Timers, backoff, sockets, fork and wait themselves, logging, configuration and the command line: outcomes are inputs.
