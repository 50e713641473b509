# Nano-DB control plane and index, modelled and proved in Dafny

Nano-DB is a sharded vector store. Its coordinators agree on the cluster
topology through a hand-written Raft, route keys over a consistent-hash ring,
write to shard replicas by quorum, and each shard searches an HNSW graph. This
project models that core and proves what it promises.

`dafny verify dfyconfig.toml` checks everything.

## How the model is laid out

- **Raft.** `RaftProtocol` gives each lock-held region of a node as a function;
  the classes in `RaftNode` and `RaftStore` have the source's fields and loops
  and are proved to do the same. `RaftCluster` puts any number of nodes
  together with the set of all messages ever sent, so loss, repetition, delay
  and reordering are all runs. `RaftHistory` records, beside a run, what every
  term's leader wrote, who voted and acknowledged what, and every log as if
  nothing had been compacted; the invariant ties nodes and messages to that
  history. `RaftCompleteness` proves leader completeness from it,
  `RaftRecords`, `RaftSteps`, `RaftReplication` and `RaftInvariant` prove that
  every step keeps it, and `RaftSafety`, `RaftElection`, `RaftLeaderHint`,
  `RaftQueue` and `RaftProgress` state the results over whole runs. `RaftOrder`
  says where the delivery order they use comes from, `RaftReordering` what goes
  wrong without it.
- **Topology.** `Topology`, `TopologyReplay`, `TopologySafety` and `Coordinator`
  model the replicated state machine and a coordinator's apply loop;
  `Convergence` runs the coordinators on top of the Raft cluster, and
  `StaleSnapshot` is a run of that system in which a coordinator loses a shard.
  `SnapshotCodec` gives a codec of the kind they ask for.
- **Data path.** `HashRing`, `Rebalance`, `Failover`, `ShardService`, `SearchMerge`;
  `SystemFailover` takes the views that writes go by from a run of the whole system.
- **Index.** `Visited`, `HnswSearch`, `HnswGraph`, `HnswIndex`.

Integers are unbounded except where width matters: visited stamps wrap at 32
bits and the file formats have fixed-width fields. Distances are reals from an
arbitrary function. Hash functions, JSON, random levels, timers and the outcome
of every remote call are parameters or free choices.

## Where the code does not keep a promise

Each of these is a theorem below: the exact condition under which the code keeps
the promise, and an input or a run at which it does not.

- `handle_append_entries` truncates at `prev_log_index` even when the existing
  entries agree. A stale, shorter request of the same term removes entries the
  follower has acknowledged, and state-machine safety fails
  (`StaleAppendBreaksSafety`). An accepted request keeps an acknowledged end if
  and only if it reaches that end or the follower's snapshot does
  (`AcknowledgedKeptExactly`). The log theorems are over runs in which no
  request cuts what was acknowledged; every run in which each follower handles
  one term's requests in the order they were built is such a run
  (`BuildOrderIsOrdered`). Election safety needs no such condition.
- `apply_committed_entries_locked` skips empty commands, so the queue of
  applied commands lines up with log indices exactly when there are none
  (`QueueGrowsExactly`).
- A request is built in two critical sections. If a compaction falls between
  them its entries are wrong (`RequestUnderSnapshotIsWrong`); they are right
  exactly when the follower's position is past the leader's snapshot
  (`RequestBuiltExactly`).
- A coordinator can load a snapshot older than what it has applied, and loses
  shards by it, because the existence check of `add_shard` also sees inactive
  clients. `StaleSnapshot.OlderSnapshotLosesShard` is a run of nodes and
  coordinators in which this happens. In any run all coordinators follow the log
  if and only if no poll loads a snapshot that lacks a surviving shard added
  before the coordinator's cursor (`RunSafeExactly`).
- The add handler checks for at least one primary, not exactly one
  (`TwoPrimariesPass`, `AddSoundExactly`).
- A deleted id that is inserted again with empty metadata shows its old
  metadata, and repeating that insert is refused (`RevivedInsertIsNotRepeatable`,
  `PutIsReadable`, `WritesAreIdempotent`); a migration then changes the document
  (`MoveChangesDocument`, `MovedCopyExact`).
- The remove handler proposes the removal even if keys failed to move
  (`FailedKeyIsLost`). Nothing is lost if and only if every key's insert arrived
  where nothing was in its way, or its document was elsewhere to begin with
  (`RemovalLosesExactly`); a listing and no counted failure are enough when no
  old metadata interferes (`CountersSuffice`).
- Promoting the replica with the highest element count can lose a confirmed
  write, with different ids missing (`TieLosesWrite`), even with the same ids
  everywhere (`ConflictLosesWrite`), and even when another replica could have
  been promoted (`CountMisleads`). Exactly when a promotion is right can be told
  from the replicas that answer: whatever the silent ones hold, the old primary
  among them, and whatever has been confirmed, the promotion keeps it if and
  only if at most half of the replicas are silent and the new primary has every
  document that so many of the others have that the silent ones could make it a
  majority (`PromotionSafeExactly`). The fullest of the replicas that answer has
  all that they have if and only if some replica does (`FullestCoversExactly`),
  which is enough (`CandidateIsSafe`) but more than needed (`CoveringIsNotNeeded`).
- A coordinator that has not heard of a promotion can have a write confirmed
  that the new primary never receives (`StaleViewLosesWrite`). Going on with a
  write is safe whatever becomes of its calls if and only if a delete has
  overtaken it, the current primary has the document, or without it the writer's own primary and a majority
  neither have acknowledged it nor would (`RoundSafeExactly`). Once a write of
  the new epoch is confirmed, no write begun later with an older one ever is
  (`ConfirmedEpochFences`). With that, and promotions as above, confirmed writes
  survive in every run of the whole system (`SystemWritesSurvive`).
- A log file cut inside the snapshot data keeps the snapshot's index but loses
  its data (`TornLogFile`).
- Deleting an id that was never inserted, but lies within the mapped file,
  lowers the element count (`DeleteUnknownMiscounts`, `HnswIndex.Index.Delete`).

## Model

| member | source | states |
|---|---|---|
| RaftLog.AccessorsAgree | cluster/raft_log.hpp:117-158 | last_index, last_term, term_at and command_at answer as the uncompacted log would, with the stated answers under the snapshot and past the end |
| RaftLog.AppendRefines | cluster/raft_log.hpp:185-188 | append on the compacted log is append on the uncompacted one |
| RaftLog.TruncateRefines | cluster/raft_log.hpp:171-183 | truncate_and_append is a splice of the uncompacted log that leaves everything at or below the snapshot alone, also for keep counts under the snapshot |
| RaftLog.CompactRefines | cluster/raft_log.hpp:199-210 | compact and snapshot installation put the given prefix under whatever suffix is held, also past the end of the log |
| RaftLog.CompactionInvisible | cluster/raft_log.hpp:117-210 | after any sequence of append, truncate_and_append, also with keep counts past the end, and compact the log is a view of the uncompacted log |
| RaftLog.SpliceAtFloorIsPlain | cluster/raft_log.hpp:167-183 | when incoming entries agree with what the snapshot covers and reach it, the snapshot does not show in the result |
| RaftLog.TruncatePlacesEntriesExactly | cluster/raft_log.hpp:167-183 | new entries land at the documented indices if and only if the keep count is within the log |
| CommitRule.CandidateIsGreatestOnMajority | cluster/raft_node.hpp:44-49 | the majority-th highest of the sorted match values is the greatest index stored on a majority |
| CommitRule.CommitRuleExact | cluster/raft_node.hpp:38-55 | the result is the old commit index or a higher index of the current term on a majority; with ordered terms none higher is missed |
| CommitRule.OldTermNeverCommitsDirectly | cluster/raft_node.hpp:30-55 | an index of an older term is never committed by counting |
| RaftFiles.EntriesPrefix | cluster/raft_log.hpp:99-111 | reading any initial part of the entry records gives the entries complete in it |
| RaftFiles.WholeIsLongest | cluster/raft_log.hpp:99-111 | that is the longest run of whole entries that fits |
| RaftFiles.ShortFile | cluster/raft_log.hpp:76-84 | a file cut inside its header reads as an empty log |
| RaftFiles.TornLogFile | cluster/raft_log.hpp:59-112 | what is read back from a log file cut at any position: empty log, snapshot without data, or the snapshot and the whole entries |
| RaftFiles.LogFileRoundTrip | cluster/raft_log.hpp:220-252 | reading back what persist wrote restores the log |
| RaftFiles.VoteFileRoundTrip | cluster/raft_state.hpp:50-63 | reading back what persist wrote restores term and vote, negative votes included |
| RaftStore.LogStore.constructor | cluster/raft_log.hpp:59-112 | open_file gives the log its bytes decode to, or an empty log that it writes out |
| RaftStore.LogStore.ReadHeader | cluster/raft_log.hpp:75-97 | the header either leaves the position of the first record or ends the reading with what was read so far, written out |
| RaftStore.LogStore.ReadEntries | cluster/raft_log.hpp:99-111 | the record loop appends exactly the whole records from its position on |
| RaftStore.LogStore.Persist | cluster/raft_log.hpp:220-252 | the file holds the encoding of the current log |
| RaftStore.LogStore.Append | cluster/raft_log.hpp:185-188 | one entry is appended and the file rewritten |
| RaftStore.LogStore.TruncateAndAppend | cluster/raft_log.hpp:171-183 | resize and append loop have the effect of the value function and the file is rewritten |
| RaftStore.LogStore.CutTo | cluster/raft_log.hpp:173-175 | entries past the absolute keep count are dropped, all of them if it is under the snapshot |
| RaftStore.LogStore.AppendAbove | cluster/raft_log.hpp:177-181 | the loop appends exactly the entries whose absolute index is above the snapshot |
| RaftStore.LogStore.Compact | cluster/raft_log.hpp:199-210 | entries up to the index are replaced by the snapshot and the file rewritten; an old index changes nothing |
| RaftStore.VoteStore.constructor | cluster/raft_state.hpp:20-34 | a full record is read back, anything else starts at term 0 without a vote and is written out; the file stands for the value either way |
| RaftStore.VoteStore.Set | cluster/raft_state.hpp:39-43 | term and vote are in memory and in the file afterwards |
| RaftStore.ReopenLog | cluster/raft_node.hpp:59-67 | a log reopened from the file left behind is the same log |
| RaftStore.ReopenVote | cluster/raft_state.hpp:12-34 | neither the term nor a vote cast in it is forgotten by a restart, and the reopened file stands for them |
| RaftNode.RaftNode.constructor | cluster/raft_node.hpp:59-74 | a process starts, from whatever its files were read as, as a follower with commit and applied index at the snapshot and everything volatile empty |
| RaftNode.RestartNode | cluster/raft_node.hpp:59-74 | opening the files a node left behind gives exactly the node that the crash step of the cluster model gives |
| RaftNode.RaftNode.BecomeFollower | cluster/raft_node.hpp:279-282 | the new term is in memory and in the file, without a vote |
| RaftNode.RaftNode.ApplyCommittedEntries | cluster/raft_node.hpp:284-292 | the loop queues the non-empty commands between applied and commit index, in order |
| RaftNode.CollectCommands | cluster/raft_node.hpp:285-291 | the loop collects the non-empty commands of the range one index after the other |
| RaftNode.RaftNode.AdvanceCommitIndex | cluster/raft_node.hpp:294-302 | the commit rule is applied to the node's own indices and new entries are applied |
| RaftNode.RaftNode.StartElection | cluster/raft_node.hpp:333-344 | the term rises by one with a vote for itself, both on file before the request carries the end of its log |
| RaftNode.RaftNode.FinishElection | cluster/raft_node.hpp:371-388 | leadership is taken only as a candidate of the same term with a majority, with fresh next and match indices |
| RaftNode.RaftNode.TakeOffice | cluster/raft_node.hpp:376-387 | next indices start after the log, match indices at zero, for exactly the other members |
| RaftNode.RaftNode.HandleRequestVote | cluster/raft_node.hpp:109-126 | node and reply are those of the value function the cluster model runs, and a vote is on file before it is granted |
| RaftNode.RaftNode.Propose | cluster/raft_node.hpp:85-94 | only a leader appends, in its own term and on file, and then tries to commit |
| RaftNode.RaftNode.MakeRequest | cluster/raft_node.hpp:413-454 | the request carries the snapshot, or the whole suffix with the term before it |
| RaftNode.CollectEntries | cluster/raft_node.hpp:447-452 | the loop collects the log's entries from an index to the end |
| RaftNode.RaftNode.HandleAppendEntries | cluster/raft_node.hpp:128-165 | node and reply are those of the value function the cluster model runs, and entries are on file before they are acknowledged |
| RaftNode.RaftNode.TakeEntries | cluster/raft_node.hpp:153-162 | entries are taken over by truncation, then the commit index clamped to the log's end |
| RaftNode.RaftNode.HandleReply | cluster/raft_node.hpp:463-474 | match index only rises, next index follows, and the commit rule runs after a success |
| RaftNode.RaftNode.RecordSuccess | cluster/raft_node.hpp:467-470 | match index never falls and next index is one past the acknowledged end |
| RaftNode.RaftNode.HandleInstallSnapshot | cluster/raft_node.hpp:168-202 | node and reply are those of the value function the cluster model runs |
| RaftNode.RaftNode.Install | cluster/raft_node.hpp:184-200 | queue trimmed, applied and commit index raised, log compacted to the received snapshot |
| RaftNode.RaftNode.HandleInstalled | cluster/raft_node.hpp:494-502 | match and next index move past the snapshot, never back |
| RaftNode.RaftNode.Compact | cluster/raft_node.hpp:208-221 | compaction is done, and the file rewritten, exactly when the index is new, applied and covered by the queue |
| RaftElection.TermAndVoteStand | cluster/raft_node.hpp:109-126 | over one step a term never falls and a vote cast in it stands |
| RaftElection.VotesStand | cluster/raft_state.hpp:12-43 | over every run, crashes included, terms never fall and a vote within a term never changes |
| RaftElection.WinnerIsUnique | cluster/raft_node.hpp:371-388 | the votes behind a second winner of a term would include a voter of the first |
| RaftElection.ElectionSafety | cluster/raft_node.hpp:333-388 | in every run, ordered or not, at most one node ever leads a given term |
| RaftLeaderHint.NamedLeaderLed | cluster/raft_node.hpp:134-136 | in every run a leader names itself, a candidate nobody, and any node names as leader only a node that has led in its term or an earlier one |
| RaftCompleteness.Completeness | cluster/raft_node.hpp:38-55 | every later leader's log contains what an earlier leader committed |
| RaftCompleteness.WinnerLogIsWhole | cluster/raft_node.hpp:199-200 | although a snapshot keeps an unchecked suffix, the log of an election's winner is a prefix of one leader's log |
| RaftReplication.AgreeThroughPrev | cluster/raft_node.hpp:138-151 | past the consistency check follower and leader agree up to the previous index and under the follower's snapshot |
| RaftReplication.SplicedIsLeaderPrefix | cluster/raft_node.hpp:153-157 | after taking entries the follower's log is a prefix of the leader's, ending at the request's end or the snapshot |
| RaftReplication.CommitSurvives | cluster/raft_node.hpp:155-160 | a request that does not cut acknowledged entries leaves the committed prefix in place |
| RaftReplication.InstalledCommit | cluster/raft_node.hpp:195-200 | after a snapshot is installed the committed prefix is still one some leader committed |
| RaftInvariant.StepKeepsInv | cluster/raft_node.hpp:85-504 | every step of every node keeps the invariant and only extends the history |
| RaftInvariant.RunExplained | cluster/raft_node.hpp:85-504 | every ordered run has a history that explains all its states |
| RaftSafety.LogMatching | cluster/raft_node.hpp:138-157 | entries of equal index and term agree, at any times, and so do all lower entries both nodes still hold |
| RaftSafety.StateMachineSafety | cluster/raft_node.hpp:284-302 | two nodes, or one before and after a restart, never apply different commands at one index |
| RaftSafety.LeaderCompleteness | cluster/raft_node.hpp:333-388 | what any node has committed is in the log of every leader of a later term, as the same entry or under its snapshot |
| RaftSafety.ReportedProposalStands | cluster/raft_node.hpp:85-107 | if propose may report success, whoever applies that index applies that command |
| RaftSafety.LeaderCommitsAllItCan | cluster/raft_node.hpp:294-302 | after writing an entry or hearing a success a leader has committed everything of its own term that a majority stores |
| RaftSafety.RequestCoversCommit | cluster/raft_node.hpp:442-453 | a request's commit index never passes its last entry, which the follower's clamp relies on |
| RaftSafety.NextIndexInRange | cluster/raft_node.hpp:467-473 | a leader's next indices stay between 1 and the end of its log plus one |
| RaftSafety.CommitWithinLog | cluster/raft_node.hpp:159-160 | snapshot index, commit index, applied index and log end stay in order |
| RaftSafety.AcknowledgedKeptExactly | cluster/raft_node.hpp:155-157 | an accepted request keeps an acknowledged end if and only if it or the snapshot reaches it |
| RaftSafety.LaterRequestsReachFurther | cluster/raft_node.hpp:438-454 | requests of one leader never end before those it built earlier |
| RaftSafety.RequestBuiltExactly | cluster/raft_node.hpp:435-454 | the entries collected are the log's if and only if the position is past the leader's snapshot |
| RaftSafety.RequestUnderSnapshotIsWrong | cluster/raft_node.hpp:435-454 | an input with a position under the snapshot, where the request carries an empty command instead of the entry |
| RaftOrder.RequestWasBuilt | cluster/raft_node.hpp:438-454 | in every run an append request in the network was built by an earlier send |
| RaftOrder.ReplyHasRequest | cluster/raft_node.hpp:128-165 | in every run an acknowledgement in the network answers a request delivered earlier, with its end |
| RaftOrder.BuildOrderIsOrdered | cluster/raft_node.hpp:413-474 | every run in which each follower handles the requests of one term in the order they were built is an ordered run, so the log theorems hold of it |
| RaftReordering.StaleAppendBreaksSafety | cluster/raft_node.hpp:155-157 | a run of three nodes, all sends with the sender's own next index, with one stale request after which two nodes have applied different commands at one index |
| RaftQueue.QueueGrowsExactly | cluster/raft_node.hpp:284-292 | the queue grows by one per applied index if and only if no command is empty |
| RaftQueue.AppliedAlignment | cluster/raft_node.hpp:259-264 | in every ordered run without empty commands queue position i is the command at snapshot + i + 1, and the length is applied minus snapshot |
| RaftProgress.StepForward | cluster/raft_node.hpp:128-221 | no step but a crash takes back an applied index or changes the applied prefix |
| RaftProgress.SnapshotsTravel | cluster/raft_node.hpp:168-221 | a snapshot that pictures its prefix faithfully where it was taken still does wherever it is sent and installed |
| HashRing.ChainedPoint | cluster/hash_ring.hpp:23-29 | the loop mixes the seed once more than the virtual node's number |
| HashRing.Sort | cluster/hash_ring.hpp:44-44 | sorted by position, then shard id, and a permutation |
| HashRing.Ring.Build | cluster/hash_ring.hpp:36-45 | the ring is the sorted points of the set of shards, whatever the order or repetition of ids |
| HashRing.Ring.Route | cluster/hash_ring.hpp:49-58 | binary search gives the owner by the rule "first point at or after the hash, wrapping", colliding points in order of shard id |
| HashRing.SuccessorExists | cluster/hash_ring.hpp:47-58 | among any points there is a first one at or after a hash, wrapping |
| HashRing.OneOwner | cluster/hash_ring.hpp:47-58 | exactly one shard of the set owns a hash |
| HashRing.AddMovesOnlyToNew | cluster/hash_ring.hpp:11-15 | when a shard joins a key stays or moves to it |
| HashRing.RemoveMovesOnlyOwn | cluster/hash_ring.hpp:11-15 | when a shard leaves exactly its own keys move |
| TopologyReplay.ApplyActsOnView | cluster/coordinator_main.cpp:340-390 | a command acts on the active replicas as if removed shards were forgotten, except for adding a known inactive id; exactly then |
| TopologyReplay.ReplayFollows | cluster/coordinator_main.cpp:340-396 | replaying the rest of a log gives its topology, less the shards the existence check blocks |
| TopologyReplay.GoneStaysGone | cluster/coordinator_main.cpp:372-380 | a removed shard stays out of the topology when ids are not reused |
| TopologyReplay.OwnSnapshotIsNoChange | cluster/coordinator_main.cpp:272-313 | loading one's own snapshot changes no replica, primary, epoch or ring |
| TopologyReplay.CatchUpExact | cluster/coordinator_main.cpp:328-396 | loading a snapshot and replaying the rest gives the topology of the log if and only if none of its shards was known before without being in the snapshot |
| TopologyReplay.NewerSnapshotIsSafe | cluster/coordinator_main.cpp:328-333 | which is so when the snapshot is not older than what was applied |
| TopologySafety.AlwaysOnePrimary | cluster/coordinator_main.cpp:340-390 | well-formed commands keep exactly one primary and distinct replica ids per active shard |
| TopologySafety.AddSoundExactly | cluster/coordinator_main.cpp:1038-1045 | an added shard is sound if and only if exactly one replica is primary and replica ids are distinct |
| TopologySafety.TwoPrimariesPass | cluster/coordinator_main.cpp:1038-1045 | two replicas marked primary pass the check and give a shard two primaries |
| TopologySafety.ReplicasStay | cluster/coordinator_main.cpp:1220-1231 | a promotion validated against an older prefix is still valid when applied, while the shard exists |
| TopologySafety.EpochIsStamp | cluster/coordinator_main.cpp:340-388 | a replica's epoch is the log index of its shard's addition or latest promotion |
| TopologySafety.StampsRise | cluster/coordinator_main.cpp:340-388 | epochs never fall along the log and rise with every promotion |
| TopologySafety.PromotionRaisesStamp | cluster/coordinator_main.cpp:381-388 | a coordinator that has applied a promotion attaches a higher epoch than one that has not |
| TopologySafety.SameStampSameShard | cluster/coordinator_main.cpp:340-388 | as long as the log index that declared a shard last is the same, so are its replicas and its primary |
| TopologySafety.AcceptedEpochsRise | cluster/shard_service_impl.hpp:187-196 | the epochs a running replica accepts never fall |
| Coordinator.Coordinator.constructor | cluster/coordinator_main.cpp:671-676 | the ring is built from the configured replicas and both cursors start at zero |
| Coordinator.Coordinator.RebuildRing | cluster/coordinator_main.cpp:368-370 | the ring's ids are those of the active replicas |
| Coordinator.Coordinator.Exists | cluster/coordinator_main.cpp:349-353 | a shard id is found among all clients, inactive ones included |
| Coordinator.Coordinator.ApplyCommand | cluster/coordinator_main.cpp:346-389 | add, remove and promote loops have the effect of the topology's transition function |
| Coordinator.Coordinator.LoadSnapshot | cluster/coordinator_main.cpp:289-313 | all clients become inactive, the snapshot's are appended and the ring is rebuilt; unreadable data changes nothing |
| Coordinator.Coordinator.ApplyQueue | cluster/coordinator_main.cpp:340-396 | queued commands are applied in order, each stamped with its log index |
| Coordinator.Coordinator.ApplyPending | cluster/coordinator_main.cpp:323-411 | catch-up, cursor movement and the decision to compact |
| Convergence.MoveKeeps | cluster/coordinator_main.cpp:323-411 | every raft step, crashes included, every safe poll and every compaction keeps the topology of each coordinator that has not restarted equal to what its log prefix stands for |
| Convergence.PollFromSnapshot | cluster/coordinator_main.cpp:323-411 | a poll that loads a snapshot and replays the queue gives the topology of the log if and only if no surviving shard was added between the snapshot and the cursor |
| Convergence.PollLosesExactly | cluster/coordinator_main.cpp:349-370 | and a surviving shard is missing after it exactly if it was added between the two |
| Convergence.RunSafeExactly | cluster/coordinator_main.cpp:315-411 | in a whole run every coordinator follows the log at all times if and only if every poll is of that kind |
| Convergence.TopologyFollowsLog | cluster/coordinator_main.cpp:315-396 | in every such run, with crashes and elections, the active topology and ring of each coordinator that has not restarted are those of its log prefix |
| Convergence.TopologyConvergence | cluster/coordinator_main.cpp:315-396 | coordinators that have not restarted and have equal cursors, at any two times, have equal replicas, primaries, epochs and ring |
| Convergence.CursorsAgree | cluster/coordinator_main.cpp:315-396 | what two of them have applied, at any two times, is the same as far as both have come |
| Convergence.EpochsAreLogIndices | cluster/coordinator_main.cpp:340-388 | over every run the epochs a coordinator attaches are the log indices of the last declarations |
| Convergence.CoordinatorSeesOnePrimary | cluster/coordinator_main.cpp:340-390 | over every run with a well-formed log a coordinator sees exactly one primary per active shard |
| Convergence.SameEpochSameShard | cluster/coordinator_main.cpp:315-411 | coordinators that attach the same epoch to a shard, at whatever times, have the same replicas of it with the same primary |
| Convergence.StaleCoordinatorIsFenced | cluster/shard_service_impl.hpp:187-196 | of calls sent by coordinators of a run, delayed and reordered at will, a replica that has accepted one sent with knowledge of a promotion accepts none sent without it |
| StaleSnapshot.OlderSnapshotLosesShard | cluster/coordinator_main.cpp:328-354 | a run of three nodes and their coordinators, all sends with the sender's own next index, that ends with a coordinator that has applied the addition of a shard and lacks it |
| SnapshotCodec.SetupExists | cluster/coordinator_main.cpp:272-311 | there is a codec that reads back every snapshot it writes and reads the commands of that run |
| ShardService.PutIsReadable | cluster/shard_service_impl.hpp:28-67 | an accepted insert is readable, as given if and only if the id was live, or brings metadata, or has none left over |
| ShardService.WritesAreIdempotent | cluster/shard_service_impl.hpp:39-63 | repeating a successful delete succeeds and changes nothing; repeating a successful insert does if and only if the id was live, or it brings metadata, or none is left over |
| ShardService.RevivedInsertIsNotRepeatable | cluster/shard_service_impl.hpp:31-63 | an id deleted and inserted again without metadata reads back with the old one, and the same insert again is refused |
| ShardService.Service.CheckAndAdvanceEpoch | cluster/shard_service_impl.hpp:187-196 | a lower epoch is refused, any other becomes the high-water mark |
| ShardService.Service.Assign | cluster/id_map_store.hpp:44-53 | an external id keeps its local id, a new one gets the next, and both directions of the map agree |
| ShardService.Service.Insert | cluster/shard_service_impl.hpp:16-68 | dimension check, fencing, then new, revived, equal and conflicting ids |
| ShardService.Service.Delete | cluster/shard_service_impl.hpp:90-105 | fencing, then a tombstone; refused only for an id never seen |
| ShardService.Service.ListLocalIds | cluster/shard_service_impl.hpp:122-142 | lists exactly the live ids |
| ShardService.Service.GetVector | cluster/shard_service_impl.hpp:144-162 | returns the stored document exactly for live ids |
| Failover.QuorumInsert | cluster/coordinator_main.cpp:431-463 | success means that the replica last marked primary and a majority acknowledged |
| Failover.ChooseCandidate | cluster/coordinator_main.cpp:598-612 | the first of the answering non-primary replicas with the highest count, if any answers |
| Failover.AckedIsKept | cluster/shard_service_impl.hpp:16-68 | an acknowledged insert is kept with its metadata if it has any, at an epoch no lower than any before, and no later insert ends that |
| Failover.RoundSafeExactly | cluster/coordinator_main.cpp:431-463 | a write keeps all confirmed writes on the current primary and a majority, whatever becomes of its calls, if and only if a delete has overtaken it, the primary has the document, or the writer's primary and a majority without it neither have acknowledged nor would |
| Failover.CurrentViewIsSafe | cluster/coordinator_main.cpp:431-463 | which is so for a writer that knows the current primary |
| Failover.PromotionSafeExactly | cluster/coordinator_main.cpp:521-612 | decided by the replicas that answer: a promotion keeps whatever has been confirmed, whatever the silent replicas hold, the primary among them, if and only if at most half are silent and the new primary has every document that the silent ones could make one of a majority |
| Failover.PromotableIsSafe | cluster/coordinator_main.cpp:521-528 | such a replica has all that the old primary and a majority have |
| Failover.FullestCoversExactly | cluster/coordinator_main.cpp:560-591 | the fullest of the replicas that answer has every document they have if and only if some replica does |
| Failover.AnswersGiveFullest | cluster/coordinator_main.cpp:598-612 | whoever answers, the candidate is a fullest one of those that do |
| Failover.CoveringIsSafe | cluster/coordinator_main.cpp:521-528 | a replica with every document of all that answer may be promoted if at most half are silent |
| Failover.CandidateIsSafe | cluster/coordinator_main.cpp:560-612 | and so may the candidate chosen by count, if some replica is of that kind |
| Failover.CoveringIsNotNeeded | cluster/coordinator_main.cpp:560-591 | replicas of which none has all the others have, and the fullest may still be promoted |
| Failover.CountMisleads | cluster/coordinator_main.cpp:560-591 | replicas of which the fullest may not be promoted and another may |
| Failover.ConfirmedWritesSurvive | cluster/coordinator_main.cpp:431-463 | over every run of writes by coordinators with any views, deletes and promotions, each step meeting those conditions, the current primary and a majority have every confirmed document |
| Failover.ConfirmedUntilDeleted | cluster/coordinator_main.cpp:465-492 | a confirmed write stays owed until some replica accepts a delete of its id |
| Failover.ConfirmedEpochFences | cluster/shard_service_impl.hpp:168-196 | in every run, once a write of some epoch is confirmed, no write begun later with a lower epoch ever is, and going on with one is safe |
| Failover.GuardedRunIsSafe | cluster/coordinator_main.cpp:521-639 | the conditions hold in every run in which writes go on only while their coordinator's primary is current or after a confirmed write of a higher epoch, and promotions take a replica that may be promoted by what the others answer |
| Failover.GuardedWritesSurvive | cluster/coordinator_main.cpp:431-639 | so in every state of such a run the current primary and a majority have every confirmed document |
| Failover.EpochGuardedWritesSurvive | cluster/coordinator_main.cpp:431-639 | the same with a condition on epochs alone: a write of an epoch below the newest goes on only if begun after a confirmed write of a higher one |
| SystemFailover.SameEpochSamePrimary | cluster/coordinator_main.cpp:315-411 | in a run of the system, coordinators that attach the same epoch to a shard take the same replica for its primary |
| SystemFailover.SystemWritesSurvive | cluster/coordinator_main.cpp:315-639 | in every run of the system whose writes and promotions meet those conditions, with the views its coordinators have, the primary and a majority have every confirmed document at all times |
| SystemFailover.WritesBegin | cluster/coordinator_main.cpp:431-463 | there are such runs: a coordinator begins a write with the view it starts with |
| Failover.ConflictLosesWrite | cluster/coordinator_main.cpp:560-591 | all replicas hold the same one id, the candidate is the first of equals, and a confirmed document is lost |
| Failover.StaleViewLosesWrite | cluster/coordinator_main.cpp:431-463 | a coordinator that has not heard of a promotion has a write confirmed that the new primary does not have |
| Failover.TieLosesWrite | cluster/coordinator_main.cpp:579-591 | with two replicas that each missed a different confirmed write, either promotion loses one |
| Rebalance.MovedCopyExact | cluster/coordinator_main.cpp:502-519 | the copy at the destination equals the source's document if and only if no old metadata interferes |
| Rebalance.MoveChangesDocument | cluster/coordinator_main.cpp:502-519 | old metadata at the destination, and after the move no shard holds the document as it was |
| Rebalance.MigrateConserves | cluster/coordinator_main.cpp:494-519 | one key's migration, whatever fails, neither loses nor makes up a document |
| Rebalance.EveryStepKeepsData | cluster/coordinator_main.cpp:1067-1089 | at every intermediate step of a rebalance exactly the same documents are held |
| Rebalance.MigrateIsLocal | cluster/coordinator_main.cpp:502-519 | a migration depends on, and changes, nothing but its own key |
| Rebalance.MoveKey | cluster/coordinator_main.cpp:1084-1088 | one key of the listing, routed by the ring and then passed over, counted as failed or migrated |
| Rebalance.MoveKeys | cluster/coordinator_main.cpp:1084-1088 | whatever the order and the failures, every key ends up on every shard as its own migration from the starting state leaves it, and the counters are the numbers of migrations that succeed and fail |
| Rebalance.AddRebalance | cluster/coordinator_main.cpp:1067-1089 | sources lose only keys routed to the new shard, which gains only those; without failures all of them arrive, and leave their sources if the deletes arrive |
| Rebalance.AddPlacesKeys | cluster/coordinator_main.cpp:1067-1089 | then every document is on the shard the new ring routes it to |
| Rebalance.AddClearsSources | cluster/coordinator_main.cpp:1067-1089 | and every shard holds only keys the new ring routes to it |
| Rebalance.AddShard | cluster/coordinator_main.cpp:1055-1089 | the handler with its ring: without failures every document is where the new ring sends it, and nowhere else if the deletes arrive |
| Rebalance.RemovalLosesExactly | cluster/coordinator_main.cpp:1158-1184 | removing the shard after the key loop loses nothing if and only if every key it had was elsewhere to begin with, or its insert arrived where no document and no old metadata was in its way |
| Rebalance.CountersSuffice | cluster/coordinator_main.cpp:1163-1175 | the handler's own listing and failure count decide it when no old metadata interferes |
| Rebalance.FailedKeyIsLost | cluster/coordinator_main.cpp:1177-1184 | one key fails to move, the removal is proposed all the same, and its document is gone |
| Rebalance.RestIsPlaced | cluster/coordinator_main.cpp:1158-1175 | the remaining shards hold only keys the remaining ring sends them, whatever failed |
| Rebalance.RemoveShard | cluster/coordinator_main.cpp:1121-1184 | the handler with its ring and error returns: when the removal loses nothing, exactly, and where every document is in the end |
| SearchMerge.Merge | cluster/coordinator_main.cpp:866-900 | min(k, distinct ids) distinct hits in ascending distance, each the nearest of its id, and nothing omitted is nearer than anything returned |
| SearchMerge.TakeNearest | cluster/coordinator_main.cpp:887-900 | one turn consumes the nearest head, keeps it if its id is new, and leaves less to do |
| Visited.VisitedSet.Begin | include/index/hnsw.hpp:462-471 | the set is empty afterwards, after growth and after 32-bit wrap-around too |
| Visited.VisitedSet.TestAndSet | include/index/hnsw.hpp:472-477 | tells membership and adds; ids out of range count as seen |
| HnswSearch.SearchLayer | include/index/hnsw.hpp:482-524 | ends with the nearest live nodes of those seen, as many as ef and the live reachable nodes allow, all reachable ones if they are at most ef; every neighbour of a result was seen |
| HnswSearch.ResultIsLocallyBest | include/index/hnsw.hpp:495-521 | so no live neighbour of a result that is left out is nearer than any result |
| HnswSearch.BeamTurn | include/index/hnsw.hpp:495-521 | one turn expands the node taken out, keeps every result expanded or waiting, and leaves less to do |
| HnswSearch.Expand | include/index/hnsw.hpp:506-521 | all neighbours of the node are seen afterwards, and new ones wait unless the results are full |
| HnswSearch.Consider | include/index/hnsw.hpp:511-520 | the results stay the ef nearest live nodes seen |
| HnswSearch.Descend | include/index/hnsw.hpp:238-250 | greedy descent on a layer ends at a reachable node no neighbour of which is nearer |
| HnswSearch.DescendTo | include/index/hnsw.hpp:136-153 | through the upper layers it ends at such a node of the layer above the last, no farther than the entry point |
| HnswSearch.Drain | include/index/hnsw.hpp:256-263 | all results, nearest first |
| HnswSearch.Search | include/index/hnsw.hpp:230-285 | the k nearest live nodes of those seen, in order, fewer than k only if fewer live nodes can be reached from the descent's end, and locally best; the k nearest of all reachable ones if the beam is wide enough |
| HnswGraph.SelectNeighbors | include/index/hnsw.hpp:546-574 | the loops choose what the heuristic's definition chooses |
| HnswGraph.ChosenSound | include/index/hnsw.hpp:546-574 | distinct candidates, at most the allowed number, never the excluded id |
| HnswGraph.ChosenDiverse | include/index/hnsw.hpp:537-545 | no chosen node is nearer to an earlier chosen one than to the base, and none was passed over without that reason |
| HnswGraph.ChosenAll | include/index/hnsw.hpp:552-554 | with room for all candidates all are chosen |
| HnswIndex.Index.AddLink | include/index/hnsw.hpp:576-630 | one list changes: extended while there is room, otherwise exactly what the heuristic chooses from its members and the new node, nearest first; the structure is kept |
| HnswIndex.Index.LinkBoth | include/index/hnsw.hpp:185-188 | the new node lists the selected ones in order, and each of them lists it unless its own list was full |
| HnswIndex.Index.LinkPair | include/index/hnsw.hpp:185-188 | one more selected node is listed and lists the new one unless its own list was full |
| HnswIndex.Index.FindNeighbors | include/index/hnsw.hpp:157-183 | the heuristic's choice among the beam's results, in order; empty only if it saw no live node |
| HnswIndex.Index.ConnectLayer | include/index/hnsw.hpp:156-191 | the new node's neighbours on one layer are that choice, no other layer changes, and the nearest neighbour is where the next layer starts |
| HnswIndex.Index.AddNode | include/index/hnsw.hpp:92-191 | the node is written and linked: of other nodes only links change, and without tombstones it has neighbours on every layer it shares |
| HnswIndex.Index.Insert | include/index/hnsw.hpp:92-214 | structure, entry point and count are right afterwards, of other nodes only links change, and without tombstones the new node has neighbours on every layer it shares |
| HnswIndex.Index.Delete | include/index/hnsw.hpp:299-309 | a tombstone is set; the count stays right if and only if the id was inserted, out of range or already marked |
| HnswIndex.DeleteUnknownMiscounts | include/index/hnsw.hpp:299-309 | deleting a never inserted id in an empty index makes the count negative |
| HnswIndex.Index.Find | include/index/hnsw.hpp:230-285 | search on a valid index: k results whenever k live nodes can be reached from the descent's end; nothing from an empty one |
| HnswIndex.Index.Replay | include/index/hnsw.hpp:92-309 | after any sequence of fresh inserts and deletes of inserted ids the structure and the count are right |

## Left out

- RaftNode.RaftNode.MakeRequest: the two critical sections of a send are one step here, so no compaction falls between them; what goes wrong otherwise is RequestBuiltExactly.
- RaftSafety.StateMachineSafety: over runs in which no append request cuts acknowledged entries, which includes all runs in build order; without that it is false (StaleAppendBreaksSafety).
- RaftQueue.AppliedAlignment: over runs without empty commands; the queue skips them.
- RaftSafety.LogMatching: over entries both nodes still hold; what a snapshot has replaced cannot be compared.
- RaftStore.ReopenLog: for logs whose terms and lengths fit the file's fields, as does ReopenVote.
- Convergence.TopologyConvergence: of coordinators that have not restarted, since a restarted one trusts the shared configuration file rather than the log; with shard ids not reused after removal, and over runs whose polls are safe, which RunSafeExactly shows to be necessary.
- ShardService.Service.CheckAndAdvanceEpoch: one atomic step, and the epoch is not kept across a restart of the shard process.
- Failover.ConfirmedEpochFences: for replicas that do not restart; one that does forgets the epochs it has seen.
- Failover.GuardedRunIsSafe: what a promotion goes by is what the replicas hold at the moment it takes effect.
- Failover.ConfirmedUntilDeleted: a write still under way when a replica accepts a delete of its id is not owed, though it may be reported as successful; the two are concurrent.
- SystemFailover.SystemWritesSurvive: a promotion takes effect for the shard when the first coordinator has applied it.
- Convergence.MoveKeeps: what a restarted process hands its node as a snapshot is taken to picture its log prefix; its own topology is not modelled.
- HnswIndex.Index.Insert: calls one at a time and fresh ids only; inserting a tombstoned id again overwrites its links.
- HnswIndex.Index.Insert: growth of the mapped file is a number of slots; the doubling schedule is not modelled.
- Rebalance.EveryStepKeepsData: when no destination has old metadata for a document that comes without any; MovedCopyExact is the exact condition.
- Rebalance.MoveKeys: a shard is what its primary stores; the other replicas appear only in whether a quorum was met.
- Liveness of elections and replication, timers, random timeouts and the vote and heartbeat threads.
- gRPC, HTTP and JSON handling, the thread pool, metrics and the configuration file.
- Read target selection, replica ordering and the consecutive-failure counters of the health check.
- Distance kernels, the quantizer, and any recall guarantee of the graph.
- The metadata file's index and the id map's file, which are maps here.
