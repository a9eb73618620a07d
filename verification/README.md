# BasicTV identifier layer: a verified model

BasicTV passes objects around as byte strings under 41-byte identifiers. This
project models the layer that does so and proves what it is for: tiers that
bring each other up to date, frames that can be searched by time, frames of
bytes that survive any cutting of the stream, and objects that come back as
they were exported.

The model has the form of the program. What the source changes in place is a
class or an array changed by methods with the same loops; each method is proved
equal to a function on values, and the theorems are about those functions.

| file | what it models |
|---|---|
| `Bytes.dfy` | byte strings, the in-place exclusive-or reversal, integers in memory |
| `Escape.dfy`, `TcpFraming.dfy` | escaping, the deframer, the TCP packetizer and its leftover |
| `IdSets.dfy` | identifiers and their packed lists |
| `Transport.dfy`, `Records.dfy`, `Objects.dfy` | sizes, payloads, rules, nested records, object export and import |
| `Strip.dfy` | the header fetches and the byte-level field filter |
| `DiskNames.dfy`, `TvItems.dfy` | file names of the disk tier, the history of an item |
| `Frames.dfy`, `Seek.dfy`, `Playback.dfy`, `FrameMemory.dfy` | linking, the time seek, repackaging and the timing loop, and all of them on objects in memory |
| `SampleChunks.dfy` | cutting raw samples |
| `TierCache.dfy`, `TierQueue.dfy` | the storage index, the cache medium, the transport queues |
| `TierSweep.dfy`, `TierPairs.dfy`, `TierConvergence.dfy` | move logic, shifts, the sweep, and convergence |
| `TierStay.dfy` | what a sweep never moves, and what a shift stores |
| `TierReady.dfy`, `TierFilled.dfy`, `TierStale.dfy` | when shifts succeed, convergence from empty tiers on, and a pair that never converges |
| `TierCuts.dfy` | exactly when any number of sweeps converges |
| `TierUnreadable.dfy` | unreadable indexes and the end of the sweep |
| `TierSafety.dfy`, `TierStates.dfy` | what every run keeps, and the tier state object |

Errors that the source prints at a throwing level, and failed assertions, are
an `Err` result or a `false`; `catch(...){}` goes on. Identifiers, bytes and the
16-, 32- and 64-bit numbers have their exact ranges, and wrap-around is written
out. The owner's hash, the identifiers a generator hands out, start times and
directory listings are parameters.

## What the proofs found

- **Overwritten versions stay in the index.** `add_id_buffer` appends and never
  replaces, and the move logic looks at the first entry it finds. One sweep
  converges when some tier lists only the greatest version (always so when each
  identifier is listed once). It is not true in general:
  `AllHoldersConvergeExactly` gives the exact condition under which any number of
  sweeps over any number of tiers converges (every cut between lower and higher
  tiers that has only older versions below it must be crossed by a pair whose
  lower tier lists an older first entry), `StalePairStaysApart` a concrete pair that never
  converges. When some tiers lack the identifier the condition decides if it is
  read after the first sweep (`AnyTiersConvergeExactly`); read before it, it is
  sufficient (`CrossedAtStartConverges`). Even after convergence a second sweep goes on planning copies,
  unless every holder listed only the greatest version at the start
  (`QuietExactly`, with a concrete pair in `ExactPairStaysNoisy`); those copies
  change no version (`SecondSweepChangesNothing`).
- **An unanswerable request blocks a tier.** A loop gets to the outbound queue
  exactly when every request is answered (`LoopReachesQueueExactly`). A tier with
  a request that cannot be answered stays so over any run, stores nothing more,
  and keeps all that waits to be added (`BlockedForEver`); asking a settled tier
  for what it does not hold makes it one (`UnansweredBlocks`).
- **An invalid identifier is stored but makes the index unreadable**
  (`InvalidIdPoisonsIndex`, with a concrete payload in `InvalidIdIsAccepted`). It then stays unreadable over any run, and one such
  tier at any position ends every sweep inside its first row
  (`UnreadableEndsEverySweep`; exactly then for sound tiers, `SweepEndsExactly`).
- **A refused add can store its record.** The record is written before the index
  is touched (`RefusedWritesExactly` says exactly when a refused add leaves a
  trace). In a tier whose identifiers cannot be unpacked every queued entry is
  stored and stays queued all the same (`UnreadableStoresAndKeeps`).
- **The time seek does not end inside a gap** between two frames, and ends for
  every other time (`SeekEndsExactly`); `GapExists` is a concrete one.
- **Feeding the deframer through the element-adding macro loses a chunk** that
  equals the leftover (`AddElementLosesChunk`, with a concrete stream in
  `RepeatedChunkExists`).
- **Nested records with more than 65536 parts do not come back**: positions are
  16-bit where the record is read (`RecordRoundTripsExactly`).
- A field that is empty in the exported object keeps what the target had
  (`ObjectRoundTripIsExact`).

## Model

| member | source | states |
|---|---|---|
| TierConvergence.OneSweepConverges | src/id/tier/id_tier.cpp:494-579 | any number of tiers with different majors in any order: after one sweep every tier from the lowest holder up has the greatest version and lower ones still lack the identifier, provided one tier lists only that version and shifts of this identifier do not fail |
| TierConvergence.SecondSweepChangesNothing | src/id/tier/id_tier.cpp:494-579 | a second sweep leaves the version of the identifier as it is in every tier |
| TierConvergence.ExactIndexesConverge | src/id/tier/id_tier.cpp:498-555 | with at most one index entry for the identifier in each tier the sweep always converges |
| TierConvergence.QuietExactly | src/id/tier/move/id_tier_move.cpp:19-73 | after one sweep no move of the identifier is planned for any pair exactly when no tier listed an older version at the start |
| TierConvergence.PairConvergesExactly | src/id/tier/move/id_tier_move.cpp:30-73 | two holders with arbitrary indexes both end with the greater version exactly when the lower has it already or its oldest entry is below the oldest entry of the higher |
| TierConvergence.NoMoveExactly | src/id/tier/move/id_tier_move.cpp:19-73 | nothing is planned for an identifier exactly when all entries of the lower index equal the first one of the higher index |
| TierConvergence.ProgressStep | src/id/tier/id_tier.cpp:498-506 | the sweep invariant over rows and columns: which visits have brought each tier up to date |
| TierPairs.SyncPairEffect | src/id/tier/id_tier.cpp:503-554 | one pair: nothing gets older, the holder below makes a holder above, the greatest version goes up, it comes down from a tier that lists only it, and without the identifier below nothing happens |
| TierPairs.MovesExactly | src/id/tier/move/id_tier_move.cpp:19-73 | an identifier is copied up (down) exactly when the lower index lists a version above (below) the first one of the higher index |
| TierPairs.ShiftAt | src/id/tier/id_tier.cpp:168-255 | a shift between settled tiers leaves the source as it was and every other identifier of the target untouched; the shifted one is untouched or has the version of the source, which is not older |
| TierPairs.ShiftSucceeds | src/id/tier/id_tier.cpp:181-253 | between tiers that may hold it a shift fails only when the target has a newer version |
| TierPairs.SentKeepsHeader | src/id/tier/id_tier.cpp:218-243 | what is sent has the identifier and version of what was read, stripped or not |
| TierFilled.FilledTiersConverge | src/id/tier/id_tier.cpp:494-579 | stated about inputs only: tiers filled by any runs of adds of plain payloads; if one tier was offered only the greatest version of an identifier of another installation, after one sweep a lookup in every tier from the lowest holder up gives that version, and below it nothing |
| TierCuts.AllHoldersConvergeExactly | src/id/tier/id_tier.cpp:494-579 | any number of tiers in any order and any state of their indexes, all holding the identifier: some number of sweeps gives all of them the greatest version exactly when, for every major number with only older versions below it, some tier below lists an older first entry than some tier from it up |
| TierCuts.ManyTiersConvergeExactly | src/id/tier/id_tier.cpp:494-579 | the same when the tiers from some major number up hold it, with the bound: two sweeps for each tier are enough, and what they do not bring no number of sweeps brings |
| TierCuts.AnyTiersConvergeExactly | src/id/tier/id_tier.cpp:494-579 | whichever tiers hold the identifier: some number of sweeps converges exactly when every cut is crossed in the tiers as they are after the first sweep |
| TierCuts.CrossedAtStartConverges | src/id/tier/id_tier.cpp:494-579 | and it is enough that every cut is crossed by tiers that hold the identifier before the first sweep |
| TierCuts.SweepMoves | src/id/tier/id_tier.cpp:498-554 | one sweep, for any lower and higher tier: what the lower holds the higher holds afterwards, the greatest version goes up, and it comes down when the first entry of the lower is older |
| TierCuts.GoingStep | src/id/tier/id_tier.cpp:503-554 | one visit keeps the greatest version above a cut that no pair crosses |
| TierCuts.SweepVisits | src/id/tier/id_tier.cpp:498-502 | every ordered pair of tiers is visited on the way of a sweep |
| TierStale.TwoTiersConvergeExactly | src/id/tier/id_tier.cpp:494-579 | for two holders the first sweep decides: both have the greater version, after any number of sweeps, exactly when the lower had it already or its oldest entry was below that of the higher; otherwise the lower keeps its version for ever |
| TierStale.StalePairStaysApart | src/id/tier/storage/id_tier_storage.cpp:22-25 | a concrete pair, filled by three adds, in which the lower tier keeps version 1 beside a version 2 after any number of sweeps |
| TierStale.ExactPairStaysNoisy | src/id/tier/storage/id_tier_storage.cpp:22-25 | a concrete pair with one entry in each index that converges in one sweep, after which copies are still planned |
| TierStale.TwoTiersLoop | src/id/tier/id_tier.cpp:498-578 | a sweep over two settled tiers synchronises the pair twice |
| TierFilled.FilledPure | src/id/tier/id_tier_cache.cpp:48-74 | a tier that was offered only one version of an identifier lists only that one |
| TierReady.ForeignIsReady | src/id/tier/id_tier.cpp:191-195 | identifiers of other installations, stored plainly, are never held back between tiers other than memory |
| TierReady.OwnIsReady | src/id/tier/id_tier.cpp:218-229 | identifiers of this installation are never stripped to nothing when some field may be held by every tier |
| TierReady.StripTravels | src/id/id_api.cpp:553-615 | stripping an export that has a field for every tier gives such an export again |
| TierSafety.AnyRunIsSafe | src/id/tier/id_tier.cpp:499-554 | over any run of shifts, loops and failures, from any indexes and queues, no tier's version decreases and every version held was held or queued at the start |
| TierSafety.GreatestIsKept | src/id/tier/id_tier.cpp:499-554 | with nothing newer queued, the greatest version stays the greatest and stays where it was |
| TierSafety.SweepIsSafe | src/id/tier/id_tier.cpp:494-579 | the same for a whole sweep, also one that an unreadable index ends early |
| TierSafety.SweepFromIsRun | src/id/tier/id_tier.cpp:498-578 | every sweep is a run of single shifts and loops |
| TierSafety.AddNotOlder | src/id/tier/id_tier_cache.cpp:61-62 | an add, accepted or not, never replaces a version by an older one |
| TierCache.CacheRefinesMap | src/id/tier/id_tier_cache.cpp:33-74 | over any run of adds of valid identifiers the cache is a versioned map: a lookup gives the last payload of those with the greatest version, one record for each identifier, index entries never go back and end at the stored version |
| TierCache.CacheAddExactly | src/id/tier/id_tier_cache.cpp:33-74 | in any state: when an add is accepted, which records it leaves whether accepted or not, and what the packed identifiers then unpack to |
| TierCache.AcceptableInBytes | src/id/tier/id_tier_cache.cpp:33-47 | acceptance read from the bytes: 50 of them, an allowed extra byte or one of the types 2, 3, 8, 9, 10 and 11, and a hash that is not zero |
| TierCache.RefusedWritesExactly | src/id/tier/id_tier_cache.cpp:48-74 | a refused add changes nothing exactly when the stored identifiers can be unpacked, or nothing was to be written, or the same bytes were stored already |
| TierCache.CacheAddEffect | src/id/tier/id_tier_cache.cpp:33-74 | with a readable index: when an add is accepted, that a refused one changes nothing, and the one index entry an accepted one adds |
| TierCache.CacheAddKeepsInv | src/id/tier/id_tier_cache.cpp:48-74 | every add of a valid identifier keeps unique records and an index in step with them |
| TierCache.PutVersion | src/id/tier/id_tier_cache.cpp:48-70 | an add is written exactly when no newer version is stored, and then changes the version of its own identifier only |
| TierCache.InvalidIdPoisonsIndex | src/id/tier/storage/id_tier_storage.cpp:22-25 | after an accepted add the index can be read exactly when the identifier is valid |
| TierCache.InvalidIdIsAccepted | src/id/tier/id_tier_cache.cpp:33-74 | a concrete payload with UUID 0 that an empty cache accepts: it can be looked up and the index can no longer be read |
| TierCache.AddIdBufferExtends | src/id/tier/storage/id_tier_storage.cpp:22-25 | adding to a readable index appends one pair, or makes it unreadable when the identifier is invalid |
| TierCache.SetIdBufferRoundTrip | src/id/tier/storage/id_tier_storage.cpp:44-55 | the index reads back as the pairs it was set to exactly when the identifiers are valid |
| TierCache.IndexIsValid | src/id/tier/id_tier_lookup.cpp:5-22 | a readable index lists only valid identifiers |
| TierQueue.DrainConserves | src/id/tier/id_tier_define.h:33-50 | in any state of the tier and for any queue, each entry is tried once in order; what stays is what was refused at its turn, in order; accepted and kept entries together are the queue |
| TierQueue.DrainAddsAccepted | src/id/tier/id_tier_define.h:33-50 | if the index is in step with the records and all identifiers are valid, the cache has had exactly the accepted entries added and the refused ones left no trace |
| TierQueue.UnreadableStoresAndKeeps | src/id/tier/id_tier_cache.cpp:48-74 | if the stored identifiers cannot be unpacked every entry is refused and stays queued, and yet the records become those of a tier whose index is in order |
| TierQueue.DrainStores | src/id/tier/id_tier_cache.cpp:48-74 | what a queue leaves in the records does not depend on the index |
| TierQueue.DrainStopsAtInvalid | src/id/tier/id_tier_define.h:33-50 | after an accepted entry with an invalid identifier nothing more is taken out of the queue |
| TierQueue.DrainAppend | src/id/tier/id_tier_define.h:33-50 | draining a queue is draining its first part and then the rest |
| TierQueue.LoopSettled | src/id/tier/id_tier_define.h:16-50 | a loop over queues whose entries are all refused does nothing |
| TierQueue.LoopPushed | src/id/tier/id_tier.cpp:362-374 | pushing an entry to a settled tier and looping tries just that entry |
| TierQueue.PushedKeepsInv | src/id/tier/id_tier.cpp:362-374 | and leaves the tier settled with its cache and index in step |
| TierQueue.GetDataSettled | src/id/tier/id_tier.cpp:275-323 | a settled tier answers from its cache and is as it was |
| TierQueue.LoopReachesQueueExactly | src/id/tier/id_tier_define.h:17-32 | a loop gets to the outbound queue exactly when every request has a payload or is answered by the cache |
| TierQueue.FillOkExactly | src/id/tier/id_tier_define.h:17-32 | the same for the inbound loop alone, and a request that cannot be answered is left as it is |
| TierSafety.BlockedForEver | src/id/tier/id_tier_define.h:16-50 | over any run of shifts, loops and failures a tier with a request that cannot be answered stays so, stores nothing more, and keeps all that waited to be added |
| TierSafety.SweepKeepsBlocked | src/id/tier/id_tier.cpp:494-579 | the same for a whole sweep |
| TierQueue.UnansweredBlocks | src/id/tier/id_tier.cpp:293-311 | asking a settled tier for what it does not hold leaves the request queued, and a payload then added only waits |
| TierUnreadable.SweepEndsExactly | src/id/tier/id_tier.cpp:494-506 | two or more tiers, each sound or unreadable, whatever waits in their queues: the sweep goes on to its end exactly when all indexes can be read |
| TierUnreadable.ValidIsSound | src/id/tier/id_tier_cache.cpp:33-74 | readable tiers whose stored and queued payloads all have valid identifiers are sound |
| TierUnreadable.SettledIsSound | src/id/tier/id_tier_define.h:16-50 | and so are all settled ones |
| TierUnreadable.LoopSound | src/id/tier/id_tier_define.h:16-50 | a loop over the queues of a sound tier leaves it sound |
| TierUnreadable.ShiftSound | src/id/tier/id_tier.cpp:168-255 | a shift leaves both tiers sound |
| TierUnreadable.UnreadableEndsSweep | src/id/tier/id_tier.cpp:498-506 | one unreadable index, at any position and whatever state the other tiers are in, ends the sweep inside its first row |
| TierUnreadable.UnreadableForEver | src/id/tier/storage/id_tier_storage.cpp:22-25 | over any run an unreadable index stays unreadable |
| TierUnreadable.UnreadableEndsEverySweep | src/id/tier/id_tier.cpp:494-506 | so every sweep after any run ends early too |
| TierUnreadable.SyncAtOkExactly | src/id/tier/move/id_tier_move.cpp:10-15 | a pair is synchronised exactly when both its indexes can be read |
| TierStates.TierState.AddIdBuffer | src/id/tier/storage/id_tier_storage.cpp:22-25 | changes the two index fields as the function on values does |
| TierStates.TierState.SetIdBuffer | src/id/tier/storage/id_tier_storage.cpp:44-55 | the index then reads as exactly the given pairs, if their identifiers are valid |
| TierStates.TierState.FromState | src/id/tier/id_tier_lookup.cpp:5-22 | the pairs of the two index lists, or an error when a list is unreadable or their lengths differ |
| TierStates.TierState.IsAllowedExtra | src/id/tier/storage/id_tier_storage.cpp:57-66 | the two searches decide whether payloads with this extra byte and identifier are acceptable to the cache: all of them or none |
| TierStates.TierState.AddData | src/id/tier/id_tier_cache.cpp:33-74 | the add of the cache medium on its fields |
| TierStates.TierState.Write | src/id/tier/id_tier_cache.cpp:47-70 | overwrites the first record of the identifier, appends one, or refuses an older version and changes nothing |
| TierStates.TierState.GetId | src/id/tier/id_tier_cache.cpp:92-105 | the record of the identifier or nothing |
| TierStates.TierState.LoopInbound | src/id/tier/id_tier_define.h:17-32 | answers requests in place until one has no answer |
| TierStates.TierState.LoopOutbound | src/id/tier/id_tier_define.h:33-50 | erasing while iterating equals draining the queue: nothing is skipped |
| TierStates.TierState.Loop | src/id/tier/id_tier_cache.cpp:115-120 | both queue loops in order |
| TierStates.TierState.GetDataFromState | src/id/tier/id_tier.cpp:275-323 | for one state and one identifier |
| TierStates.TierState.AddDataToState | src/id/tier/id_tier.cpp:325-382 | for one state and one payload |
| TierQueue.AddDataExactly | src/id/tier/id_tier.cpp:325-382 | in any state a payload is queued and the loops are run exactly when its extra byte is the first allowed one, below 4, and its identifier can be read; else nothing changes |
| TierStates.StandardMoveLogic | src/id/tier/move/id_tier_move.cpp:7-75 | the planned moves of two indexes, in order; which ones those are MovesExactly, PlannedTypes and MissingIsPlannedUp say |
| TierSweep.MemoryTypes | src/id/tier/move/id_tier_move.cpp:23-31 | the types that are never copied are exactly 4, 6, 12, 29, 30, 32 and 35 |
| TierSweep.PlannedTypes | src/id/tier/move/id_tier_move.cpp:25-31 | no planned move has one of those seven types, whatever the two indexes list |
| TierSweep.MissingIsPlannedUp | src/id/tier/move/id_tier_move.cpp:30-73 | an entry of any other type that the higher index does not have is planned up |
| TierStay.SweepKeepsMemoryTypes | src/id/tier/id_tier.cpp:494-579 | a sweep over any number of settled tiers leaves record and version of an identifier of those seven types as they were in every tier |
| TierStay.MemoryTypesStay | src/id/tier/id_tier.cpp:498-578 | the same from any row of the sweep on, with the index entries |
| TierSweep.PairsWithoutMoves | src/id/tier/move/id_tier_move.cpp:77-112 | equal major numbers and the network (4) get no move, every other pair needs two readable indexes |
| TierSweep.SyncLeavesAlone | src/id/tier/id_tier.cpp:503-554 | such a pair is left exactly as it is |
| TierSweep.OneTierLoops | src/id/tier/id_tier.cpp:556-578 | a tier runs its loop after its row, also when it is alone |
| TierStates.FindSecond | src/id/tier/move/id_tier_move.cpp:30-64 | the first version the second index lists, if any |
| TierStates.MoveLogic | src/id/tier/move/id_tier_move.cpp:77-112 | the same after ordering the tiers by major number; none for equal majors or the network |
| TierStates.ShiftDataToState | src/id/tier/id_tier.cpp:168-255 | one shift on two tier objects, erasing the identifier from the list when it went through |
| TierSweep.ForeignStaysInMemory | src/id/tier/id_tier.cpp:191-195 | a shift from major 0 of an identifier with another hash changes nothing |
| TierStay.ForeignNeverLeavesMemory | src/id/tier/id_tier.cpp:494-579 | after a sweep over any number of settled tiers no tier other than memory has a newer version of an identifier of another installation than those tiers had before; what none of them had none has |
| TierSweep.NeverShifted | src/id/tier/id_tier.cpp:181-204 | neither is a tier state (29) shifted, nor what the index does not list, nor anything to a tier without extra bytes or next to an unreadable index |
| TierStay.ShiftErasesExactly | src/id/tier/id_tier.cpp:181-253 | between settled tiers the identifier is erased from the list exactly when it may be shifted and something is left to send with the first extra byte of the target; otherwise the target is as it was |
| TierStay.ShiftReads | src/id/tier/id_tier.cpp:205-217 | in any state the source is left as the reading leaves it, also when nothing was read |
| TierStay.ShiftKeepsOthers | src/id/tier/id_tier.cpp:168-255 | record, version and index entries of every other identifier stay |
| TierStay.OwnIsStoredListed | src/id/tier/id_tier.cpp:218-229 | of an identifier of this installation the target gets exactly the records that list its own major and minor number |
| TierStay.ForeignIsStoredWhole | src/id/tier/id_tier.cpp:218-248 | of any other identifier it gets the bytes of the source |
| TierStates.MakeMoves | src/id/tier/id_tier.cpp:507-554 | the planned moves, made one by one whatever fails |
| TierStates.SyncStates | src/id/tier/id_tier.cpp:503-554 | one pair of the sweep; all other tiers are unchanged |
| TierStates.IdTierLoop | src/id/tier/id_tier.cpp:494-579 | the nested sweep over tier objects equals the sweep on values that the theorems are about |
| Seek.SeekEndsExactly | src/tv/tv_frame_standard.h:60-121 | from any frame of a timeline the seek ends exactly for times that lie in no gap between frames |
| Seek.SeekIsCorrect | src/tv/tv_frame_standard.h:60-121 | from any frame it ends on a frame covering the time if there is one, and finds nothing otherwise |
| FrameMemory.ScrollAnswers | src/tv/tv_frame_standard.h:60-121 | what the caller gets on a timeline outside its gaps: a frame that starts no later and ends no earlier than the time, if there is one, otherwise the blank identifier |
| FrameMemory.ScrollEdges | src/tv/tv_frame_standard.h:72-120 | on any frames: unreadable lists throw, and an empty list, the blank identifier or a missing frame gives the blank identifier |
| Frames.CoversExactly | src/tv/tv_frame_standard.h:55-71 | both ends belong to a frame, and a frame whose end wraps around 64 bits covers no time |
| Seek.SeekForward | src/tv/tv_frame_standard.h:76-86 | past a frame's start the seek only steps forward, to the first frame that ends late enough |
| Seek.SeekBack | src/tv/tv_frame_standard.h:86-92 | jumps back, then never turns back again |
| Seek.RewindHopBound | src/tv/tv_frame_standard.h:76-92 | at most ceil(i/depth) backward links and depth-1 forward links |
| Seek.GapNeverEnds | src/tv/tv_frame_standard.h:58-121 | inside a gap the seek runs for any number of iterations without ending |
| Seek.GapExists | src/tv/tv_frame_standard.h:58-121 | a concrete one: two linked frames from 0 to 1 and from 10 to 11, and the time 5 |
| Seek.StepAt | src/tv/tv_frame_standard.h:62-117 | on a timeline one iteration stays, steps one frame forward, jumps depth frames back, or stops at the ends |
| Frames.LinkVectorLinks | src/id/id_api.cpp:57-133 | fresh distinct frames get exactly their neighbours up to the depth on either side, no assertion fails, nothing else changes |
| Frames.LinkedWindows | src/id/id_api.cpp:76-132 | the lists of a linked frame read back: on either side as many identifiers as the depth and the ends of the vector allow, in order and right up to the frame |
| Frames.LinkVectorIsIdempotent | src/id/id_api.cpp:57-133 | linking linked frames again with any depth changes nothing |
| Frames.LinkVectorNeedsDepth | src/id/id_api.cpp:108-120 | depth zero is refused for three or more fresh frames |
| Frames.LinkOneOkExactly | src/id/id_api.cpp:76-127 | one frame is linked exactly when it is stored with readable lists and on either side its list meets its neighbour, or is empty with a depth of at least one, or there is no neighbour |
| Frames.PairLinksExactly | src/id/id_api.cpp:57-75 | two frames are linked exactly when both are stored |
| Frames.LinkVectorRefusesInvalid | src/id/id_api.cpp:57-62 | one invalid identifier stops linking before anything changes |
| Frames.SetLinksDropsSelf | src/id/id.cpp:213-238 | a frame never keeps itself in its lists, and every other identifier keeps its number |
| Frames.SetNeighbours | src/id/id.cpp:213-238 | storing the neighbours of a frame stores exactly their packed lists |
| Frames.GetNeighbours | src/id/id.cpp:205-211 | and reading them gives those lists |
| Playback.SeekFindsPacket | src/console/console_manager.cpp:193-212 | end to end: from any loaded frame, a time off the frame boundaries finds the frame numbered x/d/s, holding packet x/d at place (x/d) mod s |
| FrameMemory.ScrollFindsPacket | src/console/console_manager.cpp:193-212 | the same for what the caller gets: the identifier of that frame |
| Playback.LoadedIsContiguous | src/console/console_manager.cpp:193-212 | consecutive frames meet exactly when a full frame fits the 32-bit time to live or there is one frame at most |
| Playback.LoadedIsTimeline | src/console/console_manager.cpp:193-212 | loaded and linked frames are a timeline without gaps |
| Playback.ChunkAt | src/tv/transcode/tv_transcode_audio.cpp:275-298 | packet j is in frame j/s at place j mod s |
| Playback.ChunkSizes | src/tv/transcode/tv_transcode_audio.cpp:275-298 | no frame is empty and all but the last are full |
| Playback.SnippetsFill | src/tv/transcode/tv_transcode_audio.cpp:263-274 | a frame takes the most packets whose durations together are no longer than the frame, and one when the duration is unknown or longer than the frame |
| Playback.ChunkCount | src/tv/transcode/tv_transcode_audio.cpp:275-298 | the number of frames is the number of packets divided by that, rounded up |
| FrameMemory.FramesNeededIsLeast | src/tv/transcode/tv_transcode_audio.cpp:263-298 | which is the least number of frames that holds all packets |
| FrameMemory.Frame.GetLinkedList | src/id/id.cpp:205-211 | the two lists of a frame |
| FrameMemory.Frame.SetLinkedList | src/id/id.cpp:213-238 | stores both lists without the frame's own identifier |
| FrameMemory.Memory.Neighbours | src/id/id_api.cpp:85-107 | collects up to depth neighbours on either side, nearest last before and nearest first after |
| FrameMemory.Memory.CheckLinks | src/id/id_api.cpp:108-127 | the assertions on the two lists |
| FrameMemory.Memory.LinkOne | src/id/id_api.cpp:76-132 | one frame of the linking loop |
| FrameMemory.Memory.LinkVector | src/id/id_api.cpp:57-133 | linking frame objects equals linking on values |
| FrameMemory.Memory.NextFrame | src/tv/tv_frame_standard.h:72-117 | the frame one iteration goes on with |
| FrameMemory.Memory.ScrollToTime | src/tv/tv_frame_standard.h:60-121 | the loop over frame objects returns what the seek on values finds; ScrollAnswers says what that is |
| FrameMemory.Memory.MakeFrames | src/tv/transcode/tv_transcode_audio.cpp:275-298 | consumes the codec data into new frames of s packets |
| FrameMemory.Memory.ToFrames | src/tv/transcode/tv_transcode_audio.cpp:259-340 | repackages and links the frames, as few as hold all packets when each is filled; older frames are untouched |
| FrameMemory.Memory.AssignStartTimes | src/console/console_manager.cpp:196-212 | the loop over frame objects equals the loop on values, for frames of any sizes |
| Playback.AssignStarts | src/console/console_manager.cpp:196-212 | the loop fails exactly when some frame is missing or has no packets; the frames before the first such frame start at the 64-bit sums of the durations before them, and nothing else changes |
| Playback.EvenStarts | src/console/console_manager.cpp:198-210 | frames of equal size start one whole frame apart |
| FrameMemory.Memory.LoadSamplesToFrames | src/console/console_manager.cpp:180-212 | succeeds exactly for packets of known duration, and leaves frames of one second, as few as hold all packets, on the clock and linked ten deep |
| SampleChunks.SamplesToChunksOfLength | src/tv/transcode/tv_transcode_audio.cpp:462-478 | as many whole chunks as fit are taken off the front, and with what stays they are the samples |
| SampleChunks.CutIsUnique | src/tv/transcode/tv_transcode_audio.cpp:462-478 | no other chunks and rest do that |
| SampleChunks.CutContinues | src/tv/transcode/tv_transcode_audio.cpp:462-478 | cutting later samples behind the rest gives the chunks of all of them |
| Escape.ChunkingInvariance | src/escape.cpp:80-101 | for every byte stream, well formed or not, outputs, leftover and failures do not depend on how it is cut |
| Escape.StreamDelivers | src/escape.cpp:80-101 | for any cutting of the frames of non-empty packets the outputs are always a prefix of them, nothing fails, and at the end they are the packets with nothing left |
| Escape.DeframesPackets | src/escape.cpp:80-101 | frames of any packets give the non-empty ones in order |
| Escape.UnescapeAllSplits | src/escape.cpp:80-101 | deframing the leftover with later bytes continues the deframing of all of them |
| Escape.UnescapeWire | src/escape.cpp:35-78 | one frame comes back whole exactly when the packet is not empty and its escaped form is shorter than 2^32 |
| Escape.UnstuffStuff | src/escape.cpp:9-20 | unescaping inverts escaping |
| Escape.StuffUnstuff | src/escape.cpp:63-75 | escaping inverts unescaping exactly on bodies without a run of length one |
| Escape.StuffLeavesNoLoneEscape | src/escape.cpp:9-20 | an escaped body has no run of length one |
| Escape.StuffBound | src/escape.cpp:9-20 | escaping adds at most half the length, rounded up |
| Escape.WireBound | src/escape.cpp:6-33 | the bound for a whole frame |
| Escape.StuffInPlace | src/escape.cpp:9-20 | the inserting loop lengthens every maximal run of escape bytes by one |
| Escape.UnstuffInPlace | src/escape.cpp:63-75 | the erasing loop shortens every maximal run by one |
| Escape.EscapeVector | src/escape.cpp:6-33 | escape byte, 32-bit length in network order, escaped body |
| Escape.UnescapeVector | src/escape.cpp:35-78 | one frame off the front, or nothing while it is incomplete |
| Escape.UnescapeAllVectors | src/escape.cpp:80-101 | frames until taking one changes nothing |
| TcpFraming.Packetize | src/net/interface/net_interface_tcp.cpp:43-54 | one frame, and the caller's buffer is cleared |
| TcpFraming.Depacketize | src/net/interface/net_interface_tcp.cpp:56-72 | deframes the collapsed buffer and leaves the rest in it |
| TcpFraming.ReceiveChunks | src/net/interface/net_interface_tcp.cpp:56-72 | any number of calls with one more chunk each |
| TcpFraming.AddElementLosesChunk | src/id/id.h:28 | adding a chunk through the element macro is harmless exactly when it differs from the leftover, is empty or is an empty frame |
| TcpFraming.RepeatedChunkIsLost | src/id/id.h:28 | a frame made of two equal halves is then never delivered |
| TcpFraming.RepeatedChunkExists | src/net/interface/net_interface_tcp.cpp:41-54 | such a frame exists for the escape byte of the program |
| Strip.StripCommutesWithExport | src/id/id_api.cpp:553-615 | filtering the bytes of an export gives byte for byte the export of the fields whose rules match, or nothing |
| Strip.StripIsIdempotent | src/id/id_api.cpp:553-615 | on any bytes it accepts and does not empty |
| Strip.StripKeepsHeader | src/id/id_api.cpp:572-584 | extra, identifier and version stay |
| Strip.StripBytes | src/id/id_api.cpp:553-615 | the filter over a consumed buffer |
| Strip.StripLeavesListed | src/id/id_api.cpp:588-613 | stripped bytes hold, in order, exactly the records that list the one tier and the one intermediary asked for, and are empty exactly when there are none |
| Strip.StripForTier | src/id/id_api.cpp:589-604 | stripped for one tier: a record is left exactly when its own rules list that tier |
| Strip.StripForIntermediary | src/id/id_api.cpp:596-604 | the same for one intermediary |
| Strip.StripForAll | src/id/id_api.cpp:588-613 | without a tier or an intermediary every record is left |
| Strip.StripOkExactly | src/id/id_api.cpp:553-615 | stripping succeeds exactly for one tier and one intermediary at most, an unencrypted header, readable records, and no part of a listed record of 2^56 bytes or more |
| Strip.StripRecords | src/id/id_api.cpp:588-610 | keeps the allowed records in order |
| Strip.RulesAllow | src/id/id_api.cpp:589-604 | some tier and some intermediary of the record are wanted, or none are asked for |
| Strip.GenericFetch | src/id/id_api.cpp:351-366 | a fetch throws past the end and otherwise gives the bytes in host order |
| Strip.FetchPrinted | src/id/id_api.cpp:399-431 | the header of an export is that of the object |
| Strip.FetchExactly | src/id/id_api.cpp:399-431 | the extra byte needs 1 byte, the identifier 42, the version 50; both are stored backwards |
| Records.RecordsRoundTrip | src/id/id_api.cpp:489-549 | a printable list of records comes back from its concatenated exports exactly when no record has more than 65536 parts |
| Records.ParsedNoWrap | src/id/id_api.cpp:489-518 | no import ever yields a record with more parts than that |
| Records.RecordRoundTripsExactly | src/id/id_transport.cpp:271-281 | a record comes back exactly when it has at most 65536 parts |
| Records.RecordPrints | src/id/id_api.cpp:520-549 | what can be exported: 127 tiers, 255 intermediaries, sizes below 2^56 |
| Records.RecordFormat | src/id/id_api.cpp:520-549 | the bytes of a record with one short part, one tier and one intermediary |
| Records.RecordsThen | src/id/id_api.cpp:489-518 | bytes behind whole records are read on their own, and when they are no record the whole import fails |
| Records.ImportToVectorized | src/id/id_api.cpp:489-518 | the consuming import loop |
| Records.ExportToVectorized | src/id/id_api.cpp:520-549 | appends one record |
| Records.NetherAddAtPos | src/id/id_transport.cpp:271-281 | pads and appends a part |
| Records.NetherAddExactly | src/id/id_transport.cpp:271-281 | when a part is taken at a position, and that every other position stays as it was |
| Transport.ParseSizePrinted | src/id/id_transport.cpp:89-146 | a dynamic size decodes to itself and says where it ends |
| Transport.ByteCountIsLeast | src/id/id_transport.cpp:69-103 | with the least number of bytes |
| Transport.SizeFormat | src/id/id_transport.cpp:69-103 | the bytes of sizes below 65536 |
| Transport.SizeLimits | src/id/id_transport.cpp:89-146 | sizes are written below 2^56 with up to seven bytes, read with up to eight, refused with nine |
| Transport.ParsePayloadPrinted | src/id/id_transport.cpp:105-164 | a dynamic payload comes back with the rest untouched |
| Transport.PayloadReadsExactly | src/id/id_transport.cpp:148-164 | a payload is read exactly when all its bytes are there |
| Transport.Parse8Printed | src/id/id_transport.cpp:36-66 | the same for 8-bit sizes |
| Transport.ParseRulesPrinted | src/id/id_transport.cpp:166-227 | rules come back |
| Transport.RulesPrint | src/id/id_transport.cpp:183-194 | exactly up to 127 tiers and 255 intermediaries |
| Transport.RulesReadExactly | src/id/id_transport.cpp:196-227 | rules are read exactly when both lengths fit and the first is even |
| Transport.ExportGenDynamicSize | src/id/id_transport.cpp:89-103 | the size bytes |
| Transport.ImportGenDynamicSize | src/id/id_transport.cpp:124-146 | read and consumed |
| Transport.ExportDynamicSizePayload | src/id/id_transport.cpp:105-122 | appended to the pusher |
| Transport.ImportDynamicSizePayload | src/id/id_transport.cpp:148-164 | consumed from the puller |
| Transport.StringifyRules | src/id/id_transport.cpp:183-194 | appended to the pusher |
| Transport.UnstringifyRules | src/id/id_transport.cpp:214-227 | consumed from the puller |
| Objects.ObjectRoundTrip | src/id/id_export.cpp:24-50 | importing an export restores identifier, version and every field that was exported, and leaves the others |
| Objects.ObjectRoundTripIsExact | src/id/id_import.cpp:9-29 | all fields are equal exactly when those empty in the object are empty in the target |
| Objects.LoadRestores | src/id/id_transport_data_ptr.cpp:78-121 | each kind of field is restored from its bytes |
| Objects.LoadExactly | src/id/id_transport_data_ptr.cpp:78-121 | a field takes a payload exactly when its size fits the kind, and then has it as its memory |
| Objects.ExportsExactly | src/id/id_export.cpp:24-50 | only the owner exports, with one of four extra bytes, when no field of fixed size is empty and all sizes are within their limits |
| Objects.ImportOneRecord | src/id/id_transport.cpp:284-326 | a record of one part that fits goes into the field at its position; any other record ends the import and leaves the fields as they are |
| Objects.ImportKeepsSchema | src/id/id_import.cpp:9-29 | whatever the bytes, an import changes neither number, kinds, fixed sizes nor rules of the fields |
| Objects.HeaderFormat | src/id/id_export.cpp:24-50 | the extra byte, the identifier backwards, the version with its most significant byte first |
| Objects.DataId.ExportData | src/id/id_export.cpp:24-50 | the export of the object's fields |
| Objects.DataId.ImportPtrToDataIdPtr | src/id/id_transport.cpp:284-326 | one record into the registered field |
| Objects.DataId.ImportData | src/id/id_import.cpp:9-35 | the consuming import loop on the object's fields |
| IdSets.CompactRoundTrip | src/id/set/id_set.cpp:14-110 | unpacking a packed list gives it back exactly when its identifiers are valid |
| IdSets.ExpandIsInjective | src/id/set/id_set.cpp:14-49 | packing is the only encoding of a non-empty list |
| IdSets.PackedFormat | src/id/set/id_set.cpp:51-110 | packed lists in bytes: scheme 1, then each identifier backwards |
| IdSets.ExpandOkExactly | src/id/set/id_set.cpp:14-49 | what can be unpacked: at most two bytes, or scheme 1 before whole valid identifiers |
| IdSets.CopyRoundTrip | src/id/set/id_set_copy.cpp:4-34 | the copy scheme takes 41 bytes for each identifier and comes back |
| IdSets.AddIdToSet | src/id/set/id_set.cpp:118-128 | appends |
| IdSets.DelIdFromSet | src/id/set/id_set.cpp:130-148 | removes every occurrence |
| IdSets.EraseId | src/id/set/id_set.cpp:138-143 | the erasing loop |
| IdSets.WithoutCounts | src/id/set/id_set.cpp:130-148 | every occurrence goes and every other identifier keeps its number |
| IdSets.SizeOfIdSet | src/id/set/id_set.cpp:150-152 | the length of the list |
| IdSets.ExpandIdSet | src/id/set/id_set.cpp:14-49 | unpacks and checks the identifiers |
| IdSets.CompactIdSet | src/id/set/id_set.cpp:51-110 | packs with the copy scheme |
| IdSets.CompactIdSetCopy | src/id/set/id_set_copy.cpp:4-18 | each identifier reversed in place |
| IdSets.ExpandIdSetCopy | src/id/set/id_set_copy.cpp:20-34 | and back |
| Ids.AssertValidIds | src/id/id_api.cpp:656-677 | every identifier is blank or has a known type and a non-zero UUID |
| Ids.ValidIdInBytes | src/id/id_api.cpp:656-669 | an identifier is valid exactly when it is zero, or its last byte is at most 41 and one of its first eight is not zero |
| Bytes.NboTo | src/convert.cpp:14-36 | the exclusive-or loop reverses exactly the given bytes of the buffer |
| Bytes.XorSwap | src/convert.cpp:23-34 | three exclusive-ors exchange two bytes |
| Bytes.ReverseTwice | src/convert.cpp:38-50 | converting back undoes converting |
| Bytes.Collapse2dVector | src/convert.cpp:409-419 | concatenation |
| DiskNames.FileNameRoundTrip | src/id/tier/disk/id_tier_disk.cpp:27-59 | for every directory path, identifier and version the file name parses back to both |
| DiskNames.ListingIsIndex | src/id/tier/disk/id_tier_disk.cpp:17-62 | a directory of such files is read as exactly its entries, in order |
| DiskNames.GenIdBuffer | src/id/tier/disk/id_tier_disk.cpp:17-62 | the loop over the listing |
| DiskNames.SkippedExactly | src/id/tier/disk/id_tier_disk.cpp:27-52 | a name is skipped exactly when it has no '_' or no '/', ends in one of them, or its last '_' follows its last '/' at once |
| DiskNames.DirectoryIsRead | src/id/tier/disk/id_tier_disk.cpp:25-50 | a file without '_' takes its version from a directory whose name ends in '_' and a number |
| DiskNames.StoUllReads | src/id/tier/disk/id_tier_disk.cpp:55-59 | a version ends at the first character that is no digit, needs a digit and stays below 2^64 |
| DiskNames.IdHexRoundTrip | src/convert.cpp:205-274 | the text form of an identifier comes back |
| DiskNames.IdTextVariants | src/convert.cpp:230-274 | blanks around the text and what stands for its two dashes do not matter |
| DiskNames.NumberToHex | src/convert.cpp:195-203 | the loop over the bytes |
| DiskNames.NumberFromHex | src/convert.cpp:180-193 | the loop over pairs of digits, failing on a bad one |
| DiskNames.HexRoundTrip | src/convert.cpp:180-203 | hexadecimal comes back |
| DiskNames.HexFormat | src/convert.cpp:180-203 | the first byte is the last pair of digits, and a lone digit at the end is not read |
| DiskNames.HexDigits | src/convert.cpp:120-171 | the sixteen digits; capital letters are refused |
| DiskNames.DecimalRoundTrip | src/id/tier/disk/id_tier_disk.cpp:104-106 | the decimal version number comes back |
| TvItems.HistoryRoundTrip | src/tv/tv_item.cpp:12-36 | the history is the added lists without the empty ones, exactly when their identifiers are valid |
| TvItems.TvItem.AddFrameId | src/tv/tv_item.cpp:25-36 | appends one framed list |
| TvItems.TvItem.GetFrameIdVector | src/tv/tv_item.cpp:12-23 | returns exactly the lists added so far, without the empty ones |
| TvItems.TvItem.ClearFrameSets | src/tv/tv_item.cpp:44-46 | forgets the history |

## Left out

- Encryption, hashing and compression: foreign calls. A change of the extra byte is a failure in the model, and so is an extra of 4 or more, which indexes past an array of four.
- Sockets, threads, clocks, sleeps, audio, the user interface, the HTTP server and console commands other than the timing loop.
- The memory tier's own import and the recursive pointer lookup; tiers here have the cache medium, and the update of the cache medium does nothing.
- The network tier: it plans no moves in the source, and no tier of the convergence results is one.
- The disk tier's reading and writing of files; only its file names are modelled.
- The UUID-list scheme of identifier sets: never chosen when packing; reading it is a failure in the model.
- Byte-vector-vector fields of objects: the size assertions of the source reject them. Nested records are modelled.
- Deleting from the storage index and from the cache, and replacing a parameter: the source does not carry them out as intended.
- Shifts of several identifiers and reads from several states: the indexing of the source suits one identifier and one state only.
- Reading past the end of a vector, which is undefined in the source, is a failure in the model.
- The re-encoding branch of the repackager, which stops there in the source; the chunk size computed from a duration in floating point; mathematical numbers, WAV headers, settings, logging.
- The list of identifiers the seek would request, which the source builds and drops.
- A lookup of an identifier with a blank hash is an exact lookup here; the source matches such an identifier more loosely.
- Blanks and signs before the version in a file name, which the C library function accepts in its own way.
- TierConvergence.OneSweepConverges: assumes that shifts of the identifier do not fail for other reasons than a newer version, in the form that every tier is ready for it; ForeignIsReady and OwnIsReady say when that is so. AnyRunIsSafe covers the runs where they do fail.
- TierCuts.AnyTiersConvergeExactly: reads its condition after the first sweep. When all tiers from the lowest holder up hold the identifier, ManyTiersConvergeExactly decides before it; when some lack it, only the sufficient condition of CrossedAtStartConverges is read from the starting tiers, because what they list first depends on the order of the visits.
- TierStates.ShiftDataToState: the two states are different objects, as in the sweep, and the list holds one identifier.
- FrameMemory.Memory.ScrollToTime: takes a ghost bound within which the seek ends, since inside a gap the loop of the source does not end.
- FrameMemory.Memory.ToFrames: the new identifiers are a parameter, assumed valid, distinct and unused, where the source draws them at random.
- FrameMemory.Memory.LinkVector: depth and vector length together stay below 2^64, where the index arithmetic of the source would wrap.
- Seek.SeekIsCorrect: frames end before 2^64 microseconds and stand in order of time.
