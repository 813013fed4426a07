# GoStream, verified

A Dafny model of the parts of GoStream whose correctness is hardest to see by reading: the download
scheduler of its BitTorrent engine (`internal/anacrolix-torrent-v1.55`), its bencode codec, its peer
exchange, its IP range lists, and, from the streaming side, the read-ahead cache in `main.go` and the
per-path locks in `locks.go`. `dafny verify dfyconfig.toml` checks everything.

**The download scheduler.** A torrent keeps redundant records of the same facts: who has which chunk
requested (on the torrent and on each peer), which chunks are dirty, which pieces are pending, queued,
hashing, marking or complete, and how many writes and hashers are under way. The code updates each record
step by step and panics when two disagree. `Scheduler.dfy` is the state machine: each critical section under
the client lock is one step, and the two places where the lock is dropped in the middle, writing a chunk
and marking a piece, are split into a beginning and an end, so that other events may come between.
`SchedulerSafety.StepKeeps` and `RunIsSafe` say that no event in any run reaches the panics of these operations;
`SchedulerTheorems.dfy` and `SchedulerBalance.dfy` say what every reachable state satisfies, `SchedulerEffects.dfy` what
each event leaves behind, and `SchedulerSwaps.dfy` what stealing does not rule out. `Torrent.dfy` is the torrent object with
its loops and in-place updates, proved to compute exactly those steps. `Ledger.dfy` holds the request records,
`Geometry.dfy` and `Grid.dfy` the chunk arithmetic with its 32-bit truncation, `Files.dfy` files and reader
windows, `Bitmaps.dfy` the bitmap helpers, `DirtyBytes.dfy` the byte counts. `Collections.dfy` has what several
modules need about sequences and sets.

**Availability.** `Availability.dfy` is the bookkeeping of how many peers hold a piece, over whole runs of
messages; `Swarm.dfy` is the object with its loops.

**Bencode.** `Bencode.dfy` has the printer, the strict parser and the lenient one as functions, with the
theorem that printing and strict parsing are inverse; `Codec.dfy` has decoder and encoder objects.

**Peer exchange.** `Pex.dfy` compares what a peer has been told with the feed; `PexFeed.dfy` has the message
factory, the feed with its hold buffer, and the connection's cursor and records. `PexNetwork.dfy` puts feed,
connections and one peer together and compares that peer with what is connected, over whole runs;
`PexMisleads.dfy` has the runs in which the two differ.

**Read-ahead cache.** `ReadAhead.dfy` is the bookkeeping, `RaCache.dfy` the object, with its buffers as
arrays on the heap that move between shards and the recycle pool.

**Locks and IP lists.** `Locks.dfy` interleaves any number of lock calls; `IpList.dfy` has binary search and
the packed format.

Panics of the code are outcomes of the model (`Outcomes.Outcome`), so that "does not panic" is a statement
to prove. In the objects the same conditions are asserted where the code checks them.

## Where the code does not do what one would expect

Each of these is stated exactly, by a condition a caller can check.

- A Have None that follows a Have All leaves the connection in the set of those that have everything; a later
  Have and the closing of the torrent then panic. The numbers stay right exactly when the peer had not sent
  Have All (`Availability.HaveNoneExact`, `HaveNoneAfterHaveAll`).
- The count made when the info arrives includes closed connections not yet deleted, and takes a peer with as
  many pieces as there are, real or not, for one that has all (`Availability.SetInfoExact`, `StrayHaveBeforeInfo`,
  `ClosedBeforeInfo`).
- A file's piece range misses the pieces that list it when the piece length is zero, which an info without data
  may have (`Files.RangesReachListers`). The scheduler is modelled for positive piece lengths.
- Counting a bitmap range that ends at zero counts the whole bitmap (`Bitmaps.RangeCardinalityCounts`). No
  piece's range does.
- A hasher slot freed by one torrent does not start a hasher that another torrent had to hold back
  (`SchedulerBalance.FreedSlotWakesNobody`, `APieceLeftWaiting`); the piece waits until its own torrent queues a
  piece or ends a hash (`WaitsUntilWoken`).
- A chunk taken from another peer and then refused for want of room is left with nobody
  (`SchedulerEffects.RefusedIsLost`).
- Stopping downloads cancels every request, except when a merged specification stops them
  (`SchedulerTheorems.MergeSpecLeavesRequests`, `MergedWhileAsking`).
- Peer exchange adds an address at every extended handshake, and its hold buffer can put the add of an address
  that comes back before its delayed drop. Repeated handshakes leave a peer told before with an address that is gone
  (`PexMisleads.RepeatedHandshakeMisleads`). A reconnection during the hold, or two connections from one address that
  close before a third comes, leave a peer told later without an address that is connected (`ReconnectOnHoldMisleads`,
  `SharedAddressMisleads`). Until that address has another event, or the peer leaves, nothing puts this right. All are excluded exactly by
  `PexFeeds.AddKeepsAlternation`, and over whole runs by `PexNetwork.CleanRunsExactly`. What a delta says is stated for
  any events at all (`Pex.SaidAbout`), and so is when it is right (`Pex.DeltaIsRight`).
- A second extended handshake starts a connection's messages over while the remote keeps its records. For any feed
  that is right exactly under a condition on each address (`Pex.RestartIsRight`); in a good state it is right exactly
  when nothing the remote holds has gone (`PexNetwork.RestartFromGood`).
- Two peers that were last useful at the same time can take one chunk from each other at every request update
  (`SchedulerSwaps.SwapMayReturn`, `SwapsWithoutEnd`, `ContestedIsReached`).
- Evicting a path from the cache also evicts the chunks of paths that begin with it and a colon
  (`ReadAhead.PrefixTakes`).
- Ranges and addresses of different widths are compared all the same: a list of four-byte ranges finds sixteen-byte
  addresses by their first four bytes, and the other way round (`IpLists.ShortRangesClaimLongAddresses`,
  `LongRangesClaimShortAddresses`).
- The comment on the packed IP list speaks of 20 bytes per range with four-byte addresses. The code writes 44
  bytes with sixteen-byte addresses, and the model follows the code. A description of 2^32 bytes or more comes
  back cut (`IpLists.DescriptionsComeBack`).

## Model

| member | source | states |
|---|---|---|
| SchedulerTheorems.LedgersAgree | internal/anacrolix-torrent-v1.55/peer.go:599-850 | in every run a chunk's recorded owner is p exactly when it is in p's requests, no chunk is both requested and cancelled at one peer, and a peer's expected-chunk counter covers both memberships |
| SchedulerTheorems.PendingCacheIsExact | internal/anacrolix-torrent-v1.55/torrent.go:1287-1371 | in every run, at every release of the lock, the cached pending pieces are exactly the pieces whose recomputed priority is not None |
| SchedulerTheorems.PendingForAReason | internal/anacrolix-torrent-v1.55/piece.go:221-243 | in every run a piece is pending exactly when it is not complete, queued, hashing or marking, and a prioritised file lists it, a reader's window holds it, or its own priority asks for it |
| SchedulerTheorems.PriorityIsLargest | internal/anacrolix-torrent-v1.55/piece.go:221-236 | the computed priority is the least upper bound of the listed files', the readers' and the piece's own priorities |
| SchedulerTheorems.NoPieceGetsStuck | internal/anacrolix-torrent-v1.55/torrent.go:2194-2319 | in every run of an open torrent an incomplete piece whose chunks are all dirty with no write under way is queued, hashing or marking; pending-write counters equal the writes under way; active hashers are exactly the pieces hashing or marking, within both caps |
| SchedulerTheorems.DirtyIsNeverOutstanding | internal/anacrolix-torrent-v1.55/torrent.go:2321-2364 | in every run a dirty chunk is requested from no peer, and a complete piece has neither dirty nor requested chunks |
| SchedulerTheorems.RequestsAreWanted | internal/anacrolix-torrent-v1.55/requesting.go:167-226 | every request a step issues comes from a request update of an open torrent allowed to download, and is for a chunk of a wanted piece that is not complete, queued, hashing or marking, not dirty, not awaiting a cancel, from an open connected peer that has the piece and permits it |
| SchedulerTheorems.OnlyUpdatesRequest | internal/anacrolix-torrent-v1.55/requesting.go:278-356 | no step but a request update records a new owner for any chunk |
| SchedulerTheorems.AppliedOwners | internal/anacrolix-torrent-v1.55/requesting.go:298-341 | after the loop over the heap every owner is as before, or is the asking peer for a chunk it popped |
| SchedulerTheorems.NothingNewWhileStopped | internal/anacrolix-torrent-v1.55/requesting.go:175-177 | while downloading is stopped, however that came about, no step records a new owner for any chunk |
| SchedulerTheorems.StoppedMeansQuiet | internal/anacrolix-torrent-v1.55/torrent.go:2618-2640 | in the runs from the start, a torrent whose downloading is stopped has nothing outstanding at any time, exactly when every merged specification that stops it finds nothing outstanding |
| SchedulerTheorems.MergeSpecLeavesRequests | internal/anacrolix-torrent-v1.55/client.go:1434-1468 | merging a specification that stops downloading leaves nothing outstanding exactly when no peer had a request |
| SchedulerTheorems.MergedWhileAsking | internal/anacrolix-torrent-v1.55/client.go:1434-1468 | a run from the start in which downloading is stopped by a merge while a chunk is requested |
| SchedulerSafety.StepKeeps | internal/anacrolix-torrent-v1.55/peer.go:628-768 | from a good state no event reaches any of the modelled panics, and every event leads to a good state |
| SchedulerSafety.RunIsSafe | internal/anacrolix-torrent-v1.55/torrent.go:2194-2319 | no run of events from a good state ever reaches one of the modelled panics, stopping all downloading and failed writes included, and it ends in a good state |
| SchedulerSafety.InitIsGood | internal/anacrolix-torrent-v1.55/torrent.go:394-412 | the state in which the info has just become known is good |
| SchedulerSafety.ReceiveChunkKeeps | internal/anacrolix-torrent-v1.55/peer.go:628-722 | receiving any block, up to where the lock is dropped for the write, does not panic and keeps the invariant |
| SchedulerSafety.BeginWriteKeeps | internal/anacrolix-torrent-v1.55/peer.go:707-722 | marking the chunk dirty, counting the write and cancelling the chunk elsewhere keeps the invariant |
| SchedulerSafety.EndWriteKeeps | internal/anacrolix-torrent-v1.55/peer.go:724-761 | a write that returns finds its counter positive and leaves no piece stuck; a failed one makes its chunk wanted again and, unless the user handles it, leaves nothing outstanding and downloading stopped |
| SchedulerSafety.DisallowKeeps | internal/anacrolix-torrent-v1.55/torrent.go:2633-2640 | stopping all downloading reaches no panic in whatever order connections and requests are visited, leaves nothing outstanding and keeps the invariant |
| SchedulerSafety.DesiredIsGrantable | internal/anacrolix-torrent-v1.55/requesting.go:167-226 | whatever is collected as desirable passes every check that would panic when the request is made |
| SchedulerSafety.TryPullSafe | internal/anacrolix-torrent-v1.55/requesting.go:312-340 | one round of stealing or requesting does not panic, keeps the invariant, and leaves the other collected requests grantable |
| SchedulerSafety.ApplyPullsKeeps | internal/anacrolix-torrent-v1.55/requesting.go:278-356 | the whole loop over the heap does not panic, for every pop order, limit and buffer state |
| SchedulerSafety.PeerStepKeeps | internal/anacrolix-torrent-v1.55/peerconn.go:760-862 | connecting, closing, dropping, have, choke, unchoke and reject keep the invariant without panic |
| SchedulerSafety.CloseTorrentKeeps | internal/anacrolix-torrent-v1.55/torrent.go:896-930 | closing the torrent with its connections keeps the invariant |
| SchedulerEffects.PullDecides | internal/anacrolix-torrent-v1.55/requesting.go:316-341 | a chunk asked for where there is room ends up with the asker exactly when it was free, its own, or its holder has at least two requests more, or one more and was not useful more recently; the entries of asker, holder and everybody else afterwards |
| SchedulerEffects.RefusedIsLost | internal/anacrolix-torrent-v1.55/requesting.go:316-338 | a chunk taken from its holder and then refused for want of room is left with nobody, and the loop ends |
| SchedulerEffects.AllPulledAreRequested | internal/anacrolix-torrent-v1.55/requesting.go:298-341 | with room at every request the loop goes on until the pipeline is full or every popped chunk is requested from somebody, and no chunk loses its holder to nobody |
| SchedulerEffects.UpdateRequestsEffect | internal/anacrolix-torrent-v1.55/requesting.go:228-356 | so does one whole update once interest is sent; without it nothing changes |
| SchedulerEffects.ReceiveEffect | internal/anacrolix-torrent-v1.55/peer.go:628-737 | a block not expected changes nothing; an expected one is settled, and unless its chunk is there already the chunk becomes dirty, one more write is pending, nobody has it requested, and the peer was useful now |
| SchedulerEffects.WriteDoneEffect | internal/anacrolix-torrent-v1.55/peer.go:739-761 | a write that succeeds keeps its chunk, the last one of a full piece has the piece checked, a failed one loses the chunk; the count of writes falls by one |
| SchedulerEffects.FillStarts | internal/anacrolix-torrent-v1.55/torrent.go:2366-2405 | hashers are started for queued pieces, lowest first, and nothing else changes |
| SchedulerEffects.VerifyEffect | internal/anacrolix-torrent-v1.55/torrent.go:2479-2488 | a piece to be verified is queued or being hashed afterwards |
| SchedulerEffects.PassedEffect | internal/anacrolix-torrent-v1.55/torrent.go:2220-2237 | a passed hash hands the piece to storage while the torrent is open, and changes no chunk |
| SchedulerEffects.MarkedEffect | internal/anacrolix-torrent-v1.55/torrent.go:2245-2319 | after marking, the piece of an open torrent is complete exactly if storage says so, none of its chunks is dirty, and other pieces, chunks and requests are as before; a closed torrent keeps what it had |
| SchedulerEffects.FailedEffect | internal/anacrolix-torrent-v1.55/torrent.go:2251-2319 | after a failed hash the piece is complete exactly if storage says so, and is wanted whole again exactly if it was all dirty or is newly complete |
| SchedulerEffects.CompletionEffect | internal/anacrolix-torrent-v1.55/torrent.go:1488-1516 | what storage says of a piece is taken over, its chunks are cleared exactly when that is news and it is complete or all dirty, and requests of other pieces stay |
| SchedulerEffects.JoinsEffect | internal/anacrolix-torrent-v1.55/torrent.go:2065-2113 | a connection that joins has nothing, is asked for nothing, and chokes |
| SchedulerEffects.LeavesEffect | internal/anacrolix-torrent-v1.55/torrent.go:1626-1689 | a closed connection keeps its requests until it is dropped; then exactly those lose their owner |
| SchedulerEffects.HasEffect | internal/anacrolix-torrent-v1.55/peerconn.go:385-402 | a peer is taken to have what it says it has |
| SchedulerEffects.ChokesEffect | internal/anacrolix-torrent-v1.55/peerconn.go:760-775 | after a choke exactly the chunks at hand are desired that belong to allowed-fast pieces or that a fast peer was already asked for; a peer without the extension loses its requests |
| SchedulerEffects.UnchokesEffect | internal/anacrolix-torrent-v1.55/peerconn.go:776-784 | after an unchoke exactly the chunks at hand are desired |
| SchedulerEffects.RejectsEffect | internal/anacrolix-torrent-v1.55/peerconn.go:858-863 | a reject settles a requested or cancelled chunk, counter included, and changes nothing otherwise |
| SchedulerEffects.CloseTorrentEffect | internal/anacrolix-torrent-v1.55/torrent.go:896-930 | every connection is closed, and nothing else changes |
| SchedulerEffects.FilePriorityEffect | internal/anacrolix-torrent-v1.55/file.go:175-182 | the file has the priority asked for, nothing else is set, and exactly the idle pieces with a file, reader or setting behind them are pending |
| SchedulerEffects.PiecePriorityEffect | internal/anacrolix-torrent-v1.55/piece.go:214-219 | the piece has the priority asked for, nothing else is set, and pending follows |
| SchedulerEffects.RangesEffect | internal/anacrolix-torrent-v1.55/t.go:182-211 | asking for a range raises to 1 what is below in it, cancelling one sets it to 0, and pending follows |
| SchedulerEffects.ReaderMovedEffect | internal/anacrolix-torrent-v1.55/torrent.go:1287-1309 | the reader's window is exactly the pieces holding a byte asked for, and pending follows |
| SchedulerEffects.ReadersEffect | internal/anacrolix-torrent-v1.55/t.go:174-177 | a new reader wants nothing, a removed one nothing any more, and pending follows |
| SchedulerEffects.PriorityByReaders | internal/anacrolix-torrent-v1.55/piece.go:221-243 | a piece's priority is the least upper bound of its files', its own, 5 for a reader at it and 3 for a window that holds it |
| SchedulerEffects.SwitchesEffect | internal/anacrolix-torrent-v1.55/torrent.go:2642-2649 | allowing downloads, merging a specification and other torrents' hashers set what they say and nothing else |
| SchedulerInvariants.BothWindowsReached | internal/anacrolix-torrent-v1.55/torrent.go:1287-1309 | re-evaluating as the code does, in one run or two, reaches every piece of the old and the new window |
| SchedulerInvariants.MoveWindowKeeps | internal/anacrolix-torrent-v1.55/reader.go:301-310 | moving a reader window keeps the pending cache exact |
| SchedulerInvariants.DeleteReaderKeeps | internal/anacrolix-torrent-v1.55/t.go:174-177 | removing a reader keeps the pending cache exact |
| SchedulerInvariants.SetFilePriorityKeeps | internal/anacrolix-torrent-v1.55/file.go:175-182 | changing a file priority and re-evaluating only that file's piece range keeps the pending cache exact |
| SchedulerInvariants.SetPiecePriorityKeeps | internal/anacrolix-torrent-v1.55/piece.go:214-219 | changing one piece priority keeps the pending cache exact |
| SchedulerInvariants.MapPiecePrioritiesKeeps | internal/anacrolix-torrent-v1.55/t.go:188-211 | changing the priorities of a range of pieces through any function keeps the pending cache exact |
| SchedulerPieces.StartHashingKeeps | internal/anacrolix-torrent-v1.55/torrent.go:2371-2392 | taking a piece from the queue to a hasher keeps the invariant, both caps included |
| SchedulerPieces.FillHashersKeeps | internal/anacrolix-torrent-v1.55/torrent.go:2366-2369 | starting hashers until none may be started keeps the invariant |
| SchedulerPieces.QueueCheckKeeps | internal/anacrolix-torrent-v1.55/torrent.go:2479-2488 | queueing a piece restores the invariant when that piece is the only one that could be stuck |
| SchedulerPieces.FinishHashKeeps | internal/anacrolix-torrent-v1.55/torrent.go:2430-2461 | a finished hasher gives its slot back and starts others with the invariant restored |
| SchedulerPieces.UpdateCompletionKeeps | internal/anacrolix-torrent-v1.55/torrent.go:1488-1516 | whatever storage answers about a piece, taking it over keeps the invariant |
| SchedulerPieces.OnCompletedKeeps | internal/anacrolix-torrent-v1.55/torrent.go:2329-2337 | a completed piece loses its dirty chunks and its outstanding requests |
| SchedulerPieces.OnIncompleteKeeps | internal/anacrolix-torrent-v1.55/torrent.go:2340-2364 | a piece found incomplete is left with some chunk not dirty |
| SchedulerPieces.HashPassedKeeps | internal/anacrolix-torrent-v1.55/torrent.go:2220-2237 | a passed hash moves the piece from hashing to marking, or ends the hasher of a closed torrent, within the invariant |
| SchedulerPieces.MarkDoneKeeps | internal/anacrolix-torrent-v1.55/torrent.go:2245-2251 | the end of marking, with any answer of storage, keeps the invariant and frees the hasher |
| SchedulerPieces.HashFailedKeeps | internal/anacrolix-torrent-v1.55/torrent.go:2251-2319 | a failed hash, with any answer of storage, keeps the invariant and frees the hasher |
| SchedulerBalance.PipelineLimitHolds | internal/anacrolix-torrent-v1.55/requesting.go:298-341 | after the loop requests plus cancelled are at most the larger of what they were and the snapshotted limit |
| SchedulerBalance.StealEvensLoad | internal/anacrolix-torrent-v1.55/requesting.go:316-326 | a steal never increases the sum of squared loads over peers, and decreases it unless two loads differing by one are swapped |
| SchedulerSwaps.SwapMayReturn | internal/anacrolix-torrent-v1.55/requesting.go:316-327 | a steal that leaves the sum of squared loads as it was can be undone at once exactly when both peers were last useful at the same time |
| SchedulerSwaps.SwapsWithoutEnd | internal/anacrolix-torrent-v1.55/requesting.go:298-341 | two such peers take one chunk from each other at every one of any number of request updates, and no piece changes |
| SchedulerSwaps.ContestedIsReached | internal/anacrolix-torrent-v1.55/requesting.go:298-341 | a run from the start of a torrent that leads there |
| SchedulerBalance.FillSaturates | internal/anacrolix-torrent-v1.55/torrent.go:2366-2405 | after starting hashers no further one could be started |
| SchedulerBalance.SaturatedMeans | internal/anacrolix-torrent-v1.55/torrent.go:2371-2392 | no hasher can be started exactly when the torrent is closed, a cap is reached, or every queued piece is hashing or marking |
| SchedulerBalance.HashersStayBusy | internal/anacrolix-torrent-v1.55/torrent.go:2366-2461 | once no hasher could be started, that stays so through every event, except another torrent giving a slot back |
| SchedulerBalance.HashersBusyInEveryRun | internal/anacrolix-torrent-v1.55/torrent.go:2366-2461 | at the end of every run from the start in which no other torrent gives a slot back, no hasher could be started |
| SchedulerBalance.FreedSlotWakesNobody | internal/anacrolix-torrent-v1.55/torrent.go:2371-2392 | a slot freed by another torrent leaves a piece waiting that could be hashed exactly when some queued piece is neither hashing nor marking, the client's limit was reached, and the torrent is open and below its own |
| SchedulerBalance.WaitsUntilWoken | internal/anacrolix-torrent-v1.55/torrent.go:2366-2405 | a piece left waiting is still waiting after every run in which this torrent queues no piece and ends no hash |
| SchedulerBalance.APieceLeftWaiting | internal/anacrolix-torrent-v1.55/torrent.go:2371-2392 | a run from the start that leaves a piece waiting with every slot free |
| Ledger.DeleteRequestSafe | internal/anacrolix-torrent-v1.55/peer.go:798-816 | deleting a request of a sound ledger cannot hit the ownership panic and keeps the ledger sound |
| Ledger.CancelSafe | internal/anacrolix-torrent-v1.55/peer.go:500-514 | cancelling a request that exists cannot hit either panic and keeps the ledger sound |
| Ledger.CancelRequestSafe | internal/anacrolix-torrent-v1.55/torrent.go:2809-2820 | cancelling whoever holds a chunk cannot panic and leaves the chunk without owner and all else as it was |
| Ledger.RemoteRejectedSafe | internal/anacrolix-torrent-v1.55/peer.go:599-610 | a reject is valid exactly for a requested or cancelled chunk; handling it cannot panic and keeps the ledger sound |
| Ledger.TakeChunkSafe | internal/anacrolix-torrent-v1.55/peer.go:652-684 | settling a received chunk cannot panic, keeps the ledger sound, and says whether the chunk was asked for |
| Ledger.TakeChunkEffect | internal/anacrolix-torrent-v1.55/peer.go:652-684 | the joint effect of decrementing the counter first and settling the request after, between which the ledger is not sound |
| Ledger.WithoutRequestsSafe | internal/anacrolix-torrent-v1.55/peer.go:818-835 | dropping all of a peer's requests keeps the ledger sound |
| Ledger.WithoutChunksSafe | internal/anacrolix-torrent-v1.55/torrent.go:2321-2327 | cancelling all requests of a piece keeps the ledger sound |
| Ledger.CancelOneMore | internal/anacrolix-torrent-v1.55/torrent.go:2321-2327 | cancelling chunk after chunk is cancelling the set of them |
| Ledger.CancelAllRequestsSafe | internal/anacrolix-torrent-v1.55/peer.go:837-850 | cancelling a peer's requests one by one, in any order, hits neither the panics of cancel nor the closing check, and is cancelling the set of them |
| Ledger.CancelEverywhereSafe | internal/anacrolix-torrent-v1.55/torrent.go:2633-2640 | doing so for every connection, in any order, cannot panic and leaves no chunk with an owner |
| Torrents.Torrent.constructor | internal/anacrolix-torrent-v1.55/torrent.go:446-467 | a new torrent object is in the initial state |
| Torrents.Torrent.DeleteRequest | internal/anacrolix-torrent-v1.55/peer.go:798-816 | computes the ledger's deletion in place, its panic condition excluded |
| Torrents.Torrent.Cancel | internal/anacrolix-torrent-v1.55/peer.go:500-514 | computes the ledger's cancel in place, both panic conditions excluded |
| Torrents.Torrent.CancelRequest | internal/anacrolix-torrent-v1.55/torrent.go:2809-2820 | computes the ledger's cancel of whoever holds the chunk, the panic excluded |
| Torrents.Torrent.RemoteRejectedRequest | internal/anacrolix-torrent-v1.55/peer.go:599-610 | computes the ledger's handling of a reject and says whether it was valid |
| Torrents.Torrent.DeleteAllRequests | internal/anacrolix-torrent-v1.55/peer.go:818-835 | the loop over a snapshot removes exactly the peer's requests and their owner records |
| Torrents.Torrent.CancelRequestsForPiece | internal/anacrolix-torrent-v1.55/torrent.go:2321-2327 | the loop over a piece's chunk indices cancels exactly the piece's outstanding chunks |
| Torrents.UndirtiedInPiece | internal/anacrolix-torrent-v1.55/torrent.go:2860-2872 | the iteration over dirty bits yields exactly the piece's chunks that are not dirty |
| Torrents.Torrent.GetDesiredRequestState | internal/anacrolix-torrent-v1.55/requesting.go:167-226 | nothing for a closed or stopped torrent; otherwise exactly the desirable requests of the visited pieces, with interest signalled exactly when one of them needs it |
| Torrents.Torrent.TryPull | internal/anacrolix-torrent-v1.55/requesting.go:312-340 | one round in place: leave, steal or ask, as the ledger's round does |
| Torrents.Torrent.ApplyRequestState | internal/anacrolix-torrent-v1.55/requesting.go:278-356 | the loop in place computes the recursive pass over the popped requests |
| Torrents.Torrent.UpdateRequests | internal/anacrolix-torrent-v1.55/requesting.go:228-260 | one update of a peer's requests is exactly the request-update event, with the invariant kept |
| Torrents.Torrent.Choked | internal/anacrolix-torrent-v1.55/peerconn.go:760-775 | a choke is exactly the choke event, with the invariant kept |
| Torrents.Torrent.Rejected | internal/anacrolix-torrent-v1.55/peerconn.go:858-863 | a reject is exactly the reject event, with the invariant kept, and is reported as invalid exactly when the chunk was neither requested nor cancelled |
| Torrents.Torrent.DropConnection | internal/anacrolix-torrent-v1.55/torrent.go:1626-1689 | dropping a connection is exactly the drop event, with the invariant kept |
| Torrents.Torrent.PurePriority | internal/anacrolix-torrent-v1.55/piece.go:221-236 | the loop over the piece's files and the reader bitmaps computes the maximum of all priorities that apply |
| Torrents.Torrent.UpdatePiecePriority | internal/anacrolix-torrent-v1.55/torrent.go:1339-1359 | sets or clears one bit of the pending cache according to the recomputed priority |
| Torrents.Torrent.UpdatePiecePriorities | internal/anacrolix-torrent-v1.55/torrent.go:1367-1371 | the loop over a range re-evaluates exactly that range |
| Torrents.Torrent.UpdateReaderPieces | internal/anacrolix-torrent-v1.55/torrent.go:1283-1285 | recomputes both reader bitmaps from all readers' windows |
| Torrents.ReaderPieces | internal/anacrolix-torrent-v1.55/torrent.go:1396-1407 | the loop over the readers yields exactly the pieces at their positions and those further on in their windows |
| Torrents.Torrent.ReaderPosChanged | internal/anacrolix-torrent-v1.55/torrent.go:1287-1309 | a moved reader is exactly the reader event, with the invariant kept |
| Torrents.Torrent.DeleteReader | internal/anacrolix-torrent-v1.55/t.go:174-177 | a removed reader is exactly its event, with the invariant kept |
| Torrents.Torrent.SetFilePriority | internal/anacrolix-torrent-v1.55/file.go:175-182 | a changed file priority is exactly its event, with the invariant kept |
| Torrents.Torrent.SetPiecePriority | internal/anacrolix-torrent-v1.55/piece.go:214-219 | a changed piece priority is exactly its event, with the invariant kept |
| Torrents.Torrent.DownloadPieces | internal/anacrolix-torrent-v1.55/t.go:188-194 | the loop that re-evaluates only the pieces it raises leaves what re-evaluating the whole range would |
| Torrents.Torrent.CancelPieces | internal/anacrolix-torrent-v1.55/t.go:202-211 | the loop that re-evaluates only the pieces it lowers leaves what re-evaluating the whole range would |
| Torrents.Torrent.GetPieceToHash | internal/anacrolix-torrent-v1.55/torrent.go:2394-2405 | finds the first queued piece that is neither hashing nor marking, or none |
| Torrents.Torrent.TryCreatePieceHasher | internal/anacrolix-torrent-v1.55/torrent.go:2371-2392 | starts a hasher exactly when one may be started, for the piece next in line |
| Torrents.Torrent.TryCreateMorePieceHashers | internal/anacrolix-torrent-v1.55/torrent.go:2366-2369 | the loop starts hashers until none may be started |
| Torrents.Torrent.UpdatePieceCompletion | internal/anacrolix-torrent-v1.55/torrent.go:1488-1516 | takes over storage's answer in place, with the follow-ups of a change either way |
| Torrents.Torrent.PieceHashedCorrectly | internal/anacrolix-torrent-v1.55/torrent.go:2220-2237 | a passed hash is exactly its event, with the invariant kept |
| Torrents.Torrent.PieceMarked | internal/anacrolix-torrent-v1.55/torrent.go:2245-2251 | the end of marking is exactly its event, with the invariant kept |
| Torrents.Torrent.PieceHashedWrongly | internal/anacrolix-torrent-v1.55/torrent.go:2251-2319 | a failed hash is exactly its event, with the invariant kept |
| Torrents.Torrent.ReceiveChunk | internal/anacrolix-torrent-v1.55/peer.go:628-722 | receiving a block is exactly its event, with the invariant kept, and an error exactly when it lies outside the torrent or was not expected |
| Torrents.Torrent.WriteDone | internal/anacrolix-torrent-v1.55/peer.go:724-761 | the end of a write, with the error handler of a failed one, is exactly its event, with the invariant kept |
| Torrents.Torrent.CancelAllRequests | internal/anacrolix-torrent-v1.55/peer.go:837-850 | the loop over a snapshot of the requests cancels each and leaves none, every panic excluded |
| Torrents.Torrent.DisallowDataDownloadLocked | internal/anacrolix-torrent-v1.55/torrent.go:2633-2640 | the loop over the connections does so for each and stops downloading |
| Torrents.Torrent.DisallowDataDownload | internal/anacrolix-torrent-v1.55/torrent.go:2627-2631 | stopping by hand is exactly its event, with the invariant kept and no request left at any peer |
| Geometry.RequestsTile | internal/anacrolix-torrent-v1.55/misc.go:57-78 | an offset lies in a chunk exactly when that chunk is the request computed for the offset |
| Geometry.OffsetRequestIsChunk | internal/anacrolix-torrent-v1.55/misc.go:57-86 | a request is computed for exactly the torrent's offsets, and it is a chunk whose index maps back to it |
| Geometry.IndexRoundTrip | internal/anacrolix-torrent-v1.55/torrent.go:2779-2793 | index to request and back is the identity on every chunk index |
| Geometry.IndicesAreContiguous | internal/anacrolix-torrent-v1.55/torrent.go:977-982 | the chunk indices are exactly the numbers below the number of chunks |
| Geometry.ChunkInsidePiece | internal/anacrolix-torrent-v1.55/misc.go:104-110 | a chunk has at least one byte and lies inside its piece and the torrent |
| Geometry.PieceExtent | internal/anacrolix-torrent-v1.55/torrent.go:969-1002 | every piece but the last is full, the last ends with the torrent, and both have the number of chunks their length needs |
| Geometry.ChunkOfOffset | internal/anacrolix-torrent-v1.55/misc.go:57-78 | every offset of the torrent lies in some chunk |
| Grids.PieceRange | internal/anacrolix-torrent-v1.55/torrent.go:984-988 | clearing a piece's index range touches exactly the bits that belong to the piece |
| Grids.AllDirtyMeans | internal/anacrolix-torrent-v1.55/torrent.go:1267-1276 | counting dirty bits decides whether each of the piece's chunks is dirty |
| Grids.ReceivedChunk | internal/anacrolix-torrent-v1.55/torrent.go:2787-2789 | a block that starts inside its piece is recorded under one of that piece's chunks |
| Files.ListedInRange | internal/anacrolix-torrent-v1.55/file.go:192-206 | a piece that lists a file lies in that file's piece range, and for a file with data the converse |
| Files.RangesReachListers | internal/anacrolix-torrent-v1.55/file.go:192-206 | every file's range reaches all pieces listing it exactly when the piece length is positive, or there are no pieces or no files |
| Files.SliceIs | internal/anacrolix-torrent-v1.55/torrent.go:394-434 | the files a piece lists are those from the first ending after the piece begins to the first reaching its end |
| Files.RangeInside | internal/anacrolix-torrent-v1.55/file.go:192-206 | a file's piece range never leaves the torrent |
| Files.WindowIsExact | internal/anacrolix-torrent-v1.55/torrent.go:1374-1391 | a piece is in a reader's window exactly when one of its bytes is in the asked extent |
| Bitmaps.IterUnsetInRange | internal/anacrolix-torrent-v1.55/undirtied-chunks-iter.go:7-27 | visits exactly the clear positions of the range in order, for every start, the wrap of the position before zero included |
| Bitmaps.ClearInMembers | internal/anacrolix-torrent-v1.55/undirtied-chunks-iter.go:7-27 | the clear positions are the members of the range that are not set |
| Bitmaps.RangeCardinalityCounts | internal/anacrolix-torrent-v1.55/roaring.go:10-16 | the difference of two ranks counts the range exactly when the end is positive or nothing is set |
| Bitmaps.OrderedBitmap.Add | internal/anacrolix-torrent-v1.55/ordered-bitmap.go:33-38 | adds once, at the end of the order, with bitmap, order and element map in step |
| Bitmaps.OrderedBitmap.CheckedRemove | internal/anacrolix-torrent-v1.55/ordered-bitmap.go:52-59 | removes exactly the element, keeping the order of the others, and says whether it was there |
| Bitmaps.OrderedBitmap.CardinalityIsSize | internal/anacrolix-torrent-v1.55/ordered-bitmap.go:25-27 | the length of the order is the number of members |
| DirtyBytes.DirtyCount | internal/anacrolix-torrent-v1.55/piece.go:84-89 | the 32-bit rank difference counts the piece's dirty chunks |
| DirtyBytes.DirtyBytesAreChunkBytes | internal/anacrolix-torrent-v1.55/piece.go:148-161 | the count with a special case for the last chunk is the sum of the lengths of the dirty chunks, and at most the piece length |
| DirtyBytes.PieceSum | internal/anacrolix-torrent-v1.55/piece.go:144-173 | the lengths of all chunks of a piece add up to the piece |
| DirtyBytes.LeftIsMissing | internal/anacrolix-torrent-v1.55/torrent.go:852-863 | what the incomplete pieces have left is the number of bytes neither in a complete piece nor in a dirty chunk |
| DirtyBytes.BytesLeft | internal/anacrolix-torrent-v1.55/torrent.go:856-863 | the loop returns that number, which is the length minus complete pieces minus dirty bytes of the others |
| Availability.AvailabilityIsExact | internal/anacrolix-torrent-v1.55/piece.go:271-273 | after every fair run a known piece's availability is the number of open connections that have it, and its correction is not negative |
| Availability.StepKeeps | internal/anacrolix-torrent-v1.55/peerconn.go:385-499 | no fair event panics, and the numbers stay right |
| Availability.RunKeeps | internal/anacrolix-torrent-v1.55/peerconn.go:385-499 | the same over whole runs |
| Availability.HaveKeeps | internal/anacrolix-torrent-v1.55/peerconn.go:385-402 | a Have for any piece keeps the numbers right |
| Availability.HaveEffect | internal/anacrolix-torrent-v1.55/peerconn.go:385-402 | after a Have the peer has that piece and what it had before |
| Availability.BitfieldKeeps | internal/anacrolix-torrent-v1.55/peerconn.go:404-459 | a bitfield, after anything, panics exactly when its length is not a multiple of eight, and otherwise keeps the numbers right |
| Availability.BitfieldEffect | internal/anacrolix-torrent-v1.55/peerconn.go:404-459 | after a bitfield the peer has exactly the pieces whose bit is set, and other connections are as before |
| Availability.HaveAllKeeps | internal/anacrolix-torrent-v1.55/peerconn.go:461-472 | a Have All, first or repeated, keeps the numbers right without panic |
| Availability.AllOrNoneEffect | internal/anacrolix-torrent-v1.55/peerconn.go:461-472 | after Have All the peer has every piece, after Have None no piece |
| Availability.HaveNoneExact | internal/anacrolix-torrent-v1.55/peerconn.go:491-499 | a Have None keeps the numbers right exactly when the peer had not sent Have All |
| Availability.HaveNoneAfterHaveAll | internal/anacrolix-torrent-v1.55/peerconn.go:491-499 | a run from the start: Have All, Have None, then a Have, and closing the torrent panics |
| Availability.SetInfoExact | internal/anacrolix-torrent-v1.55/torrent.go:477-505 | the count made when the info arrives is right exactly when it is right about each connection, by a condition on that connection alone |
| Availability.InfoEffect | internal/anacrolix-torrent-v1.55/torrent.go:477-505 | when the info arrives each connection keeps exactly the pieces that exist |
| Availability.StrayHaveBeforeInfo | internal/anacrolix-torrent-v1.55/torrent.go:477-505 | a run from the start: a Have for a piece that does not exist, heard before the info, makes closing the torrent panic |
| Availability.ClosedBeforeInfo | internal/anacrolix-torrent-v1.55/torrent.go:477-505 | a run from the start: a connection closed but not yet removed when the info arrives makes closing the torrent panic |
| Availability.CloseKeeps | internal/anacrolix-torrent-v1.55/peer.go:318-335 | closing a connection takes back exactly what it was counted for |
| Availability.LeaveEffect | internal/anacrolix-torrent-v1.55/peer.go:318-335 | a closed connection keeps what it had and is not among those with everything; deleting it takes out it alone |
| Availability.ClosingLeavesNone | internal/anacrolix-torrent-v1.55/torrent.go:896-939 | closing every connection leaves all of them closed and every correction zero, so that closing the torrent never panics |
| Availability.DeleteKeeps | internal/anacrolix-torrent-v1.55/torrent.go:1626-1648 | deleting a closed connection does not panic and changes no number |
| Availability.PeerHasMeans | internal/anacrolix-torrent-v1.55/peer.go:346-351 | having as many pieces as there are means having each of them, once pieces are known to exist |
| Swarms.Swarm.PeerSentHave | internal/anacrolix-torrent-v1.55/peerconn.go:385-402 | computes the handling of Have in place, for every state in which it does not panic |
| Swarms.Swarm.OnPeerHasAllPieces | internal/anacrolix-torrent-v1.55/peerconn.go:461-472 | the loop over what the peer had computes the handling of Have All in place |
| Swarms.Swarm.PeerSentHaveNone | internal/anacrolix-torrent-v1.55/peerconn.go:491-499 | computes the handling of Have None in place |
| Swarms.Swarm.DecPeerPieceAvailability | internal/anacrolix-torrent-v1.55/torrent.go:1650-1661 | computes the withdrawal of a peer's counts in place |
| Swarms.Swarm.PeerSentBitfield | internal/anacrolix-torrent-v1.55/peerconn.go:404-459 | the iteration over changing bits computes the handling of a bitfield in place |
| Swarms.Swarm.Close | internal/anacrolix-torrent-v1.55/peer.go:318-335 | computes the closing of a connection in place |
| Swarms.Swarm.DeletePeerConn | internal/anacrolix-torrent-v1.55/torrent.go:1626-1648 | computes the deletion of a connection in place, both panics excluded |
| Swarms.Swarm.SelectivePieceAvailability | internal/anacrolix-torrent-v1.55/torrent.go:180-191 | the loop over connections counts those the first count counts |
| Swarms.Swarm.OnSetInfo | internal/anacrolix-torrent-v1.55/torrent.go:477-505 | the loops over pieces and connections compute the first count and trim what peers have |
| Swarms.Swarm.CloseTorrent | internal/anacrolix-torrent-v1.55/torrent.go:896-939 | closing all connections in any order leaves every correction zero |
| Bencode.RoundTrip | internal/anacrolix-torrent-v1.55/bencode/decode.go:623-745 | parsing what was printed gives the value back and leaves what follows, for all values within the string limit |
| Bencode.Canonical | internal/anacrolix-torrent-v1.55/bencode/decode.go:623-745 | whatever is accepted is the print of the value returned followed by the rest, and within the limit |
| Bencode.ReadBackExactly | internal/anacrolix-torrent-v1.55/bencode/decode.go:194-211 | a printed value is read back exactly when its strings are within the limit |
| Bencode.AcceptedWhole | internal/anacrolix-torrent-v1.55/bencode/decode.go:623-650 | the inputs consumed whole are exactly the prints of values within the limit |
| Bencode.NumbersLiterally | internal/anacrolix-torrent-v1.55/bencode/encode.go:103-179 | numbers are ASCII decimals, with a minus sign below zero |
| Bencode.PrintsLiterally | internal/anacrolix-torrent-v1.55/bencode/encode.go:103-179 | the bytes of an integer, a string, a list and a dictionary with ascending keys |
| Bencode.PrintsArePrefixFree | internal/anacrolix-torrent-v1.55/bencode/encode.go:103-179 | no two values print alike, and no print begins another |
| Bencode.IntsAreCanonical | internal/anacrolix-torrent-v1.55/bencode/decode.go:180-192 | the texts accepted as numbers are exactly the decimal representations, each for its own number |
| Bencode.ParsersAgree | internal/anacrolix-torrent-v1.55/bencode/decode.go:492-540 | on whatever the strict parser accepts the lenient one stops at the same place |
| Bencode.SortedUnique | internal/anacrolix-torrent-v1.55/bencode/encode.go:44-50 | there is one ascending order of a set of keys, so printing does not depend on the order of the map |
| Codecs.Decoder.ReadUntil | internal/anacrolix-torrent-v1.55/bencode/decode.go:94-102 | moves what stands before the separator to the buffer and counts every byte |
| Codecs.Decoder.ParseIntInterface | internal/anacrolix-torrent-v1.55/bencode/decode.go:653-677 | reads a number or throws, exactly as the function does, leaving the buffer empty |
| Codecs.Decoder.ParseStringLength | internal/anacrolix-torrent-v1.55/bencode/decode.go:194-211 | reads a length within the limit or throws, leaving the buffer empty |
| Codecs.Decoder.ParseStringInterface | internal/anacrolix-torrent-v1.55/bencode/decode.go:690-701 | reads a string or throws, exactly as the function does |
| Codecs.Decoder.ParseValueInterface | internal/anacrolix-torrent-v1.55/bencode/decode.go:623-650 | reads a value, the end of a container or throws, exactly as the function does, with position and offset advanced together |
| Codecs.Decoder.ParseListInterface | internal/anacrolix-torrent-v1.55/bencode/decode.go:737-745 | the loop reads a list exactly as the function does |
| Codecs.Decoder.ParseDictInterface | internal/anacrolix-torrent-v1.55/bencode/decode.go:703-735 | the loop reads a dictionary exactly as the function does, with keys strictly ascending |
| Codecs.Decoder.ReadOneValue | internal/anacrolix-torrent-v1.55/bencode/decode.go:492-540 | skips one value, appends its bytes verbatim to the buffer and advances the offset by their number; an end is left unread |
| Codecs.Encoder.ReflectValue | internal/anacrolix-torrent-v1.55/bencode/encode.go:103-179 | writes exactly the print of the value |
| Codecs.Encoder.ReflectEntries | internal/anacrolix-torrent-v1.55/bencode/encode.go:149-163 | sorting the keys and looping over them writes the entries in their one order |
| Pex.PeerBelievesTheFeed | internal/anacrolix-torrent-v1.55/pex.go:217-233 | for every alternating feed and every schedule of sends the receiver has exactly the addresses of the feed up to the cursor, each with the flags of one of its own events |
| Pex.DeltaIsDifference | internal/anacrolix-torrent-v1.55/pex.go:56-139 | for alternating events the coalesced delta is exactly the difference between before and after |
| Pex.NeverBoth | internal/anacrolix-torrent-v1.55/pex.go:56-139 | no message both adds and drops an address, whatever the events |
| Pex.FlagsComeFromEvents | internal/anacrolix-torrent-v1.55/pex.go:56-91 | an added address carries the flags of one of its own events |
| Pex.DeltasAreBounded | internal/anacrolix-torrent-v1.55/pex.go:217-233 | a delta adds at most fifty and drops at most fifty, and stops before the end of the feed only when full |
| Pex.RunKeeps | internal/anacrolix-torrent-v1.55/pex.go:217-233 | the session invariant over every schedule of events and sends |
| Pex.SendKeeps | internal/anacrolix-torrent-v1.55/pexconn.go:66-73 | a send, or a send of nothing that leaves the cursor, keeps the receiver equal to the feed up to the cursor |
| Pex.CaughtUp | internal/anacrolix-torrent-v1.55/pexconn.go:66-73 | a message that reaches the end of the feed leaves the receiver with exactly the feed's addresses, even when nothing was sent |
| Pex.SpokenIsRight | internal/anacrolix-torrent-v1.55/pex.go:56-139 | whatever the events, what a delta adds is connected after them and what it drops is not |
| Pex.SaidAbout | internal/anacrolix-torrent-v1.55/pex.go:56-139 | for any events, exactly what a delta says of an address: added when connected in the end and its last stale event was an add, or it had none and was not connected before; dropped symmetrically |
| Pex.DeltaIsRight | internal/anacrolix-torrent-v1.55/pex.go:56-139 | for any events, a receiver that was right stays right exactly when the events hide no change of an address behind a stale event |
| Pex.InitialIsWhole | internal/anacrolix-torrent-v1.55/pex.go:130-139 | for any feed, the initial message adds exactly the connected addresses and drops none exactly when no address has a drop as its last stale event |
| Pex.RestartIsRight | internal/anacrolix-torrent-v1.55/pexconn.go:41-58 | for any feed, after a repeated handshake clears the cursor, the next message puts the receiver right exactly when every address whose last stale event was a drop was believed if it is connected, and every other believed address is connected |
| Pex.RestartOnlyAdds | internal/anacrolix-torrent-v1.55/pexconn.go:41-58 | when no address has a drop as its last stale event, starting over leaves the receiver with what it had and what is connected |
| PexNetwork.RestartFromGood | internal/anacrolix-torrent-v1.55/peerconn.go:902-943 | a peer of a good state that repeats its handshake is left by the next message with what it believed and what is connected or on hold, right exactly when nothing it believed has gone |
| PexFeeds.AddKeepsAlternation | internal/anacrolix-torrent-v1.55/pex.go:176-193 | an extended handshake keeps the feed alternating exactly when its address is not connected and is not on hold or the hold is released first; then the connected set is right |
| PexFeeds.DropKeepsAlternation | internal/anacrolix-torrent-v1.55/pex.go:195-212 | a disconnection, held or not, keeps the feed alternating and the connected set right |
| PexFeeds.HeldBack | internal/anacrolix-torrent-v1.55/pex.go:195-212 | a disconnection is held back exactly while fewer than 25 connections are left and fewer than 25 are held back |
| PexFeeds.Releases | internal/anacrolix-torrent-v1.55/pex.go:176-193 | a connection releases what is held back exactly when it makes at least 25, and is appended after it |
| PexNetwork.PeerKnowsTheConnected | internal/anacrolix-torrent-v1.55/pex.go:176-234 | after any run of handshakes, closings and messages in which every handshake is clean, a message reaching the end of the feed leaves the peer with the connected addresses and those whose drops are on hold, and the two are disjoint |
| PexNetwork.CleanRunsExactly | internal/anacrolix-torrent-v1.55/pex.go:176-212 | the runs in which the feed alternates and the count of live connections is not too high are exactly those of clean handshakes: of a new connection, from an address neither connected nor left on hold |
| PexNetwork.StaysUntold | internal/anacrolix-torrent-v1.55/pex.go:176-234 | an address that a peer does not have and neither message nor feed will add stays unknown to it, and connected, through every run of acts of other addresses |
| PexNetwork.StaysHaunted | internal/anacrolix-torrent-v1.55/pex.go:176-234 | an address a peer has, that is not connected and that neither message nor feed will drop, stays with it through every run of acts of other addresses in which it stays connected |
| PexMisleads.ReconnectOnHoldMisleads | internal/anacrolix-torrent-v1.55/pex.go:176-212 | a run in which an address reconnects while its drop is on hold; a peer told later does not have it, although it is connected, after any further acts of other addresses |
| PexMisleads.SharedAddressMisleads | internal/anacrolix-torrent-v1.55/pex.go:176-212 | a run in which two connections from one address close and a third comes; the initial message is silent about it, and a peer joining then does not have it, although it is connected, after any further acts of other addresses |
| PexMisleads.RepeatedHandshakeMisleads | internal/anacrolix-torrent-v1.55/peerconn.go:902-943 | a run in which a connection repeats its handshake and ends; a peer told before has its address, although it is gone, after any further acts of other addresses in which the peer stays |
| PexFeeds.MsgFactory.Add | internal/anacrolix-torrent-v1.55/pex.go:56-91 | edits lists, flags and maps so that the message says what coalescing an add says |
| PexFeeds.MsgFactory.Drop | internal/anacrolix-torrent-v1.55/pex.go:95-128 | edits lists, flags and maps so that the message says what coalescing a drop says |
| PexFeeds.ZipWithout | internal/anacrolix-torrent-v1.55/pex.go:107-113 | taking one position out of the address and the flag list takes out that address and keeps all other flags with theirs |
| PexFeeds.PexState.Append | internal/anacrolix-torrent-v1.55/pex.go:168-174 | appends to the feed and keeps the initial message equal to the whole feed coalesced |
| PexFeeds.PexState.Add | internal/anacrolix-torrent-v1.55/pex.go:176-193 | counts the connection, releases the hold when enough are alive, appends the event and lists the connection |
| PexFeeds.PexState.Drop | internal/anacrolix-torrent-v1.55/pex.go:195-212 | holds the drop of a listed connection back or appends it, and skips others |
| PexFeeds.PexState.GenerateMsg | internal/anacrolix-torrent-v1.55/pex.go:217-233 | the walk over the feed produces the well-formed message and the cursor it leads to |
| PexFeeds.PexConn.NextMsg | internal/anacrolix-torrent-v1.55/pexconn.go:66-73 | sends and advances exactly when there is something to say |
| PexFeeds.PexConn.UpdateRemoteLiveConns | internal/anacrolix-torrent-v1.55/pexconn.go:101-123 | the four loops apply drops before adds, flags where given |
| PexFeeds.HeardAt | internal/anacrolix-torrent-v1.55/pexconn.go:101-123 | each address of a received list gets the flags at its place, or none where the list of flags is too short, and others keep theirs |
| PexFeeds.ReceivesWhatIsSaid | internal/anacrolix-torrent-v1.55/pexconn.go:101-123 | on a well-formed message the receiver's records change by exactly what the message says |
| PexFeeds.Exchange | internal/anacrolix-torrent-v1.55/pexconn.go:66-123 | sender and receiver together perform exactly one send of the session |
| RaCaches.ReadAheadCache.Get | main.go:2134-2158 | hits exactly when one chunk or two adjacent ones cover the request, and then returns exactly the file's bytes |
| RaCaches.ReadAheadCache.CopyTo | main.go:2171-2192 | copies as many of the file's bytes as fit on a hit, and nothing on a miss |
| RaCaches.ReadAheadCache.StoredIsFound | main.go:2134-2158 | any part of a stored chunk that begins under its key is found |
| RaCaches.ReadAheadCache.StitchedIsFound | main.go:2134-2158 | and so is what runs from one stored chunk into the next |
| RaCaches.ReadAheadCache.MarkUsed | main.go:2139-2150 | marks the one or two chunks a read used, in their shard alone, with every invariant kept |
| RaCaches.MarkingChangesTimes | main.go:2139-2150 | marking sets the time of last use of exactly the chunks the read takes bytes from, and changes nothing else |
| RaCaches.ReadAheadCache.Put | main.go:2194-2291 | keeps every invariant; the chunk is cached, newest of its shard, used now, of the current session on the active path and of none elsewhere; the shard keeps the newest chunks, evicts no more than needed, and ends within budget or with this chunk alone |
| RaCaches.ReadAheadCache.EvictWhileOver | main.go:2250-2261 | evicts oldest first, stops within budget or at the last chunk, and not earlier |
| RaCaches.ReadAheadCache.Overwrite | main.go:2229-2241 | takes out the chunk under the key, its array to the pool or to nobody |
| RaCaches.ReadAheadCache.TakeBuffer | main.go:2211-2222 | the next pooled buffer leaves the pool and is taken if its size fits, else a new one is; what is taken belongs to no chunk and not to the pool |
| RaCaches.ReadAheadCache.Recycle | main.go:2076-2088 | an array nobody owns goes to the pool exactly if it has the chunk size and there is room, with single ownership kept |
| RaCaches.ReadAheadCache.RemoveAt | main.go:2254-2260 | removes one chunk with exact totals, its array owned by the pool or by nobody |
| RaCaches.ReadAheadCache.EvictPath | main.go:2316-2349 | leaves every shard without exactly the chunks whose key begins with the path and a colon, totals exact |
| RaCaches.ReadAheadCache.EvictShard | main.go:2362-2396 | leaves a shard without exactly its stale chunks, totals and ownership exact |
| RaCaches.ReadAheadCache.TriggerGlobalEviction | main.go:2352-2415 | does so for every shard whose lock is free, or for the first if none is, and leaves the others as they were |
| RaCaches.EvictionKeeps | main.go:2362-2396 | which chunks an eviction leaves: of the active path and its colon continuations those used within 60 s, of others those of the active session used within 120 s |
| RaCaches.ActiveChunkSurvives | main.go:2194-2291 | a chunk put on the active path survives a global eviction that reaches its shard exactly up to 60 s later |
| RaCaches.OtherChunkLeaves | main.go:2194-2291 | a chunk put for another path does not survive one for a session |
| RaCaches.PathEvictionKeeps | main.go:2316-2349 | evicting a path leaves exactly the chunks of other paths that do not continue it with a colon |
| ReadAhead.KeysAreDistinct | main.go:2106-2112 | two chunks share a key exactly when they are the same chunk of the same path |
| ReadAhead.PrefixTakes | main.go:2317-2327 | a path's key prefix matches its own chunks and those of paths that continue it with a colon, and no others |
| ReadAhead.NeverCompacts | main.go:2281-2289 | an order in step with its buffers is never due for compaction |
| ReadAhead.RemovedOk | main.go:2229-2241 | taking out a chunk keeps order, buffers and total in step |
| ReadAhead.AddedOk | main.go:2242-2248 | adding a chunk keeps order, buffers and total in step |
| ReadAhead.OwnsTake | main.go:2211-2222 | what leaves the pool is owned by nobody |
| ReadAhead.Dropped | main.go:2254-2260 | what leaves a shard is owned by nobody |
| Locks.MutualExclusion | locks.go:35-95 | in every interleaving at most one thread is inside a path, counts are the numbers of users, and a path has an entry exactly while it is used |
| Locks.StepKeeps | locks.go:35-95 | every step keeps the invariant, and no unlock hits an unlocked mutex |
| Locks.ReferMoves | locks.go:36-43 | a call refers to its own path and waits or tries from then on |
| Locks.EnterMoves | locks.go:45-46 | a waiting call comes inside only when nobody is; a try exactly when nobody is, and leaves otherwise |
| Locks.LeaveMoves | locks.go:49-57 | leaving a path leaves it empty, giving the reference back ends the call, and no other call moves |
| Locks.ReleaseKeeps | locks.go:52-57 | the last user's delete takes out its own entry and nobody else refers to it |
| Locks.FreePathCanBeEntered | locks.go:45-46 | a waiting thread can go in whenever nobody is inside its path |
| Locks.LockManager.Refer | locks.go:36-43 | the first critical section is exactly its step |
| Locks.LockManager.LockEntryMutex | locks.go:45-46 | a lock coming through is exactly its step |
| Locks.LockManager.TryLockEntryMutex | locks.go:73 | a try is exactly its step and succeeds exactly on an unlocked entry |
| Locks.LockManager.UnlockEntryMutex | locks.go:49-50 | an unlock finds its mutex locked and is exactly its step |
| Locks.LockManager.Unrefer | locks.go:52-57 | the last critical section is exactly its step |
| IpLists.LookUp | internal/anacrolix-torrent-v1.55/iplist/iplist.go:81-103 | for sorted disjoint ranges one is found exactly when one contains the address, and it does |
| IpLists.Search | internal/anacrolix-torrent-v1.55/iplist/iplist.go:89-96 | the bisection finds the least index whose successor begins after the address |
| IpLists.OrderIsNumeric | internal/anacrolix-torrent-v1.55/iplist/iplist.go:95-101 | between addresses of one width byte order is numeric order |
| IpLists.ShortRangesClaimLongAddresses | internal/anacrolix-torrent-v1.55/iplist/iplist.go:53-78 | across widths a range contains exactly the longer addresses that continue one in it other than its last |
| IpLists.LongRangesClaimShortAddresses | internal/anacrolix-torrent-v1.55/iplist/iplist.go:53-78 | a range contains exactly the shorter addresses above the beginning of its first and not above that of its last |
| IpLists.LookUpIp | internal/anacrolix-torrent-v1.55/iplist/iplist.go:53-78 | found exactly when the four-byte or the sixteen-byte form is contained, or the address has neither form |
| IpLists.WritePacked | internal/anacrolix-torrent-v1.55/iplist/packed.go:28-68 | writes count, entries and the distinct descriptions, every description standing where its entry says; panics exactly when a bound has neither width |
| IpLists.DistinctAre | internal/anacrolix-torrent-v1.55/iplist/packed.go:28-68 | the descriptions written are the distinct ones of the ranges, each once |
| IpLists.PackedLayout | internal/anacrolix-torrent-v1.55/iplist/packed.go:28-68 | the byte layout: count, entries of 44 bytes, descriptions |
| IpLists.LowestFirst | internal/anacrolix-torrent-v1.55/iplist/packed.go:28-68 | numbers are written lowest byte first |
| IpLists.MappedForm | internal/anacrolix-torrent-v1.55/iplist/packed.go:28-68 | the sixteen-byte form of a four-byte address, and back |
| IpLists.ReadsBack | internal/anacrolix-torrent-v1.55/iplist/packed.go:96-108 | reading any index gives back the range in sixteen-byte form, and of its description what a 32-bit length can say |
| IpLists.DescriptionsComeBack | internal/anacrolix-torrent-v1.55/iplist/packed.go:96-108 | the whole range comes back exactly when its description is shorter than 2^32 |
| IpLists.LookUpPacked | internal/anacrolix-torrent-v1.55/iplist/packed.go:110-116 | looking up any address in the packed form finds exactly the widened range containing its sixteen-byte form, and panics exactly when it has none |
| IpLists.PackedAnswersAlike | internal/anacrolix-torrent-v1.55/iplist/packed.go:110-116 | for a list of one width and an address of that width the widened ranges are sorted and contain what the list contains |

## Left out

- Torrents.Torrent: a peer and its request state are one record in a map instead of an object of its own, so aliasing between peer objects is not modelled.
- SchedulerSafety.StepKeeps: the piece request order, which every re-evaluation of a piece ends in updating, is not modelled. Its panic on a missing key is not an outcome; it takes a closed torrent whose capped storage another open torrent shares.
- SchedulerSafety.CloseTorrentKeeps: taking the torrent's pieces out of the piece request order is not modelled.
- Torrents.Torrent.UpdatePiecePriority: the update of the piece request order and its panic are not modelled.
- SchedulerSafety.RunIsSafe: "no panic" is about the panics of the ledger, of requesting, of pending writes and of cancelling; the one of the piece request order is not modelled. A peer has at most one chunk write under way, as its read loop waits for the write; webseeds, which have no read loop, are not modelled.
- Torrents.Torrent.ApplyRequestState: the panic on a heap whose capacity has changed, which popping does not change, is not modelled. The order in which requests leave the heap is arbitrary, so the comparison of requests (`lessByValue`) is not modelled; what is proved holds for every order.
- Torrents.Torrent.GetDesiredRequestState: the request strategy's walk over pieces is a list of wanted pieces in any order; its own code is not part of this model.
- Torrents.Torrent.PieceHashedWrongly: bans of peers during a failed check, smart-ban records and statistics are not modelled; a banned peer's drop is a separate event.
- Torrents.Torrent.UpdatePieceCompletion: storage is its answers, given as arguments; what storage does with the data, Have broadcasts and the dropping of mutually complete peers are not modelled.
- Torrents.Torrent.WriteDone: a handler the user installed is a flag saying that it exists; it runs outside the lock, and what it does is not modelled.
- Torrents.Torrent.DropConnection: its effects on availability and on peer exchange are modelled in `Swarms` and `PexNetwork`, not in this step.
- Torrents.Torrent.ReaderPosChanged: the reader's position and readahead come as an extent of bytes; the readahead function and `Seek` are not modelled.
- Torrents.Torrent.UpdateRequests: when an update is due (reasons, timers, the debounce, the panic on a timer that fires early) and the value of the request limit are not modelled; the limit is an argument.
- Geometry.RequestsTile: stated for sizes whose 32-bit arithmetic does not wrap: piece size plus chunk size at most 2^32 and fewer than 2^32 chunk indices.
- Files.ListedInRange: file lengths are natural numbers; negative lengths are not modelled.
- Availability.SetInfoExact: connections dropped while the info is being taken over are not modelled.
- Availability.AvailabilityIsExact: webseeds and the dropping of mutually complete peers while the info is being taken over are not modelled.
- Bencode.RoundTrip: generic values only; decoding into typed targets, struct fields and tags, and custom marshalers are not modelled. Machine and big integers are one unbounded type, which is what the two decimal paths together compute.
- Codecs.Decoder.ParseValueInterface: the reader yields a fixed input; read errors other than its end are not modelled, nor is the text of errors.
- Codecs.Encoder.ReflectEntries: the library sort is an insertion sort with the same order; write errors are not modelled.
- Pex.PeerBelievesTheFeed: addresses are IPv4 or IPv6; an IPv4 address mapped into IPv6 is not modelled, nor are resets of the feed, timers, and the sharing of list memory between the initial message and messages already handed out.
- PexFeeds.PexState.GenerateMsg: the linked list of events is a sequence and a cursor into it a position.
- PexFeeds.PexState.Drop: connections without a usable address cause no event and are not modelled.
- PexNetwork.PeerKnowsTheConnected: one peer is told; its messages are received in order, and the rate limit on received messages is not modelled.
- RaCaches.ReadAheadCache.Get: marking the chunks as used is a step of its own, `MarkUsed`; `CopyTo` is `Get` followed by a copy instead of two copies.
- RaCaches.ReadAheadCache.Put: each operation is atomic; interleavings of operations on different shards within one operation are not modelled. The log line and the compaction are shown to be unreachable instead of modelled. The flag for unverified data is not modelled.
- RaCaches.ReadAheadCache.EvictPath: the map of buffers is walked in the order of the shard's list, where the code's order is unspecified.
- RaCaches.ReadAheadCache.TriggerGlobalEviction: the guard against two evictions at once is not modelled; which locks are free is an argument.
- Locks.MutualExclusion: fairness of the mutexes is not modelled; a waiting thread can go in when the path is free, not that it will.
- IpLists.WritePacked: write errors are not modelled. Reading back is stated for packed strings shorter than 2^64 bytes.
- IpLists.LookUp: parsing of the text format and of CIDR notation is not modelled.
- Trackers, DHT, holepunching, encryption, sockets and WebRTC of the torrent engine are not modelled.
- `Torrent.AvailableRange`, the ranking of bad connections and the choking of uploads are not modelled.
- The FUSE file system, pumps, disk warmup, inode maps, databases, HTTP handlers and configuration of GoStream are not modelled.
