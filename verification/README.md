# Fusion Multi-Node: a verified model of its protocols and codecs

Fusion Multi-Node runs language models over several machines: masters elect a leader and schedule
work on nodes, nodes cache and exchange attention state, models are split by layers, and messages
travel in framed binary formats. This project models the parts whose correctness rests on state,
interleaving or arithmetic, and proves what they keep. `dafny verify dfyconfig.toml` checks all of it.

| file | models |
|---|---|
| `Election.dfy` | the election object, and a cluster of them over a network that loses, delays, repeats and reorders messages; a candidate that is outvoted waits for the disk before it steps down |
| `ElectionPolls.dfy`, `ElectionRuns.dfy` | when a poll is won and whom a node names as leader; runs with two votes, and with two leaders, in one term |
| `SchedulerModel.dfy` | state and critical sections of the scheduler |
| `SchedulerCapacity.dfy`, `SchedulerQueue.dfy`, `SchedulerCancel.dfy`, `SchedulerRetry.dfy` | what every interleaving keeps; queue and drain; recursive cancel; retry and exclusion |
| `SchedulerOutcomes.dfy`, `SchedulerEndings.dfy` | which calls start an item and on what; how an item comes by its status, and who waits for a retry |
| `ClusterMaster.dfy` | the scheduler as an object that updates its fields, method by method equal to those sections |
| `Pipeline.dfy` | pipeline dispatch with stage checkpoints, over failures and restarts |
| `ActiveActive.dfy` | masters that mirror each other's work items and reload them from disk |
| `KvCache.dfy`, `KvStream.dfy` | the KV cache with its byte budget and index; its binary stream |
| `Caveman.dfy` | the dictionary, difference and zlib coders and the choice between them |
| `Sharding.dfy` | grouping, tail merging and result merging |
| `Bridge.dfy` | layer split, node chain, spreading of prompts |
| `Fmp.dfy` | the FMP frame codec and read loops |
| `Options.dfy`, `ByteStrings.dfy`, `Codings.dfy`, `Sequences.dfy`, `Arithmetic.dfy` | optional values; big-endian numbers; outside codings; cutting and joining; division |

Objects that the code updates in place are classes whose methods are proved equal to functions on
values; the theorems about runs and interleavings are lemmas about those functions. A run is any
list of events; an event that is not possible where it stands changes nothing, so a theorem about
every list is a theorem about every run. Node selection, network delivery, clocks, failures and
backends are arbitrary parameters.

## What the proofs found

Where a tempting claim is false, a lemma gives a concrete input; it is named in brackets.

- One vote per term does not hold: a candidate that steps down on a heartbeat of its own term forgets
  its vote and may vote again in that term [`ElectionRuns.TwoVotesInOneTermReachable`]. That alone does not
  harm election safety: such a heartbeat exists only once the term has a leader, and never reaches it.
- Another double vote does harm it. An outvoted candidate raises its term, waits for the disk and only then
  steps down, which clears its vote (`election.py:255-258`). If it votes while it waits, it can vote twice
  in one term [`Election.WaitingVoteIsCastTwice`], and two nodes can lead that term
  [`ElectionRuns.TwoLeadersReachable`]. Safety, vote discipline and the majority property are proved for the
  runs in which no node votes while it waits; every other event, at any moment, keeps the invariant, and
  that vote always breaks it (`Election.NextInvIff`). A leader that waits already shows the raised term, so
  it does not count as leading. A restart during or after the wait reloads the vote that was written before
  it.
- A pipeline checkpoint is kept in the item's parameters and reaches the disk only with a snapshot that
  something else triggers (`cluster_master.py:1972-1977`, `3691-3704`), so a restart may find an older one
  or none, and a stage may succeed twice [`Pipeline.StageRunsTwice`]. Whatever a restart finds still stands
  for a prefix of the stages and a success still returns the uninterrupted result. A stage that is done has
  succeeded once, and once more for every crash that lost it.
- A poll is won by more than half of the node's peers and the node itself. A node that lists itself among
  its peers counts itself twice, and then needs one vote more in a cluster of odd size
  (`ElectionPolls.MajorityIff`).
- A node's slot counter equals its running work plus the number of leaks so far. Besides timeout and
  node-offline, a late queueing or a late retry of work that another call has started meanwhile also
  leaks (`cluster_master.py:1556-1560`, `1414`, `2217-2219`, `3741-3749`)
  [`SchedulerCapacity.LeakReachable`].
- The confirm section checks that a node is free but not that it is still unexcluded; a retry avoids
  all excluded nodes exactly when the selection does [`SchedulerRetry.ReturnsToANode`]. The offline
  section excludes all the nodes it takes work off exactly when all of them are offline.
- A drain that is refused an item someone else has started puts that item back to pending
  (`SchedulerOutcomes.DrainRunsIff`). No item ever keeps the status "timed out" or "migrated"
  (`SchedulerEndings.HowItEnded`).
- Re-storing a cached id keeps the byte count if and only if the old entry had no bytes or the new one
  fits beside the entries used more recently; otherwise the count is short by the old entry's bytes
  [`KvCache.RestoreMiscounts`].
- The KV stream import drops what a chunk holds beyond the tensor it completes, and reads a tensor without
  bytes as an absent one. The import route cuts the body into 65536-byte chunks, so it gives an entry back
  if and only if no tensor is present but empty and every boundary between two tensors is a multiple of
  65536 bytes or the end of the body [`KvStream.TwoSmallTensorsAreLost`].
- Difference coding gives the data back if and only if there are at least two bytes
  [`Caveman.OneByteIsLost`]; the automatic choice never uses it on fewer.
- The layer split covers the layers if and only if there is at most one shard more than layers
  [`Bridge.OneLayerThreeShards`], and leaves no shard empty if and only if there are no more shards than
  layers.
- Least-loaded spreading starts from fresh counters, so it is round robin over the distinct nodes.
- A merged shard result always counts as complete, since every shard counts as success or failure.
  The default shard size given to the sharder is never used: every sharding type has its own. A negative
  shard size makes batching drop every item [`Sharding.NegativeSizeDropsAll`], and the shard limit is kept
  only if it is at least one.
- A frame whose payload is between 16 MiB - 12 and 16 MiB bytes is written and can be parsed, but the
  read loops refuse it, because they compare the whole frame with 16 MiB [`Fmp.LargeFrameIsRefused`].
- A read loop that times out while it waits for the body of a frame takes that body for the next length.
  Every frame begins with the FMP magic, which is far too large a length, so the loop stops there; a timeout
  while it waits for a length loses nothing.
- A received snapshot never replaces an entry that is completed, failed, cancelled or timed out, but it
  does replace another master's partly done one [`ActiveActive.PartlyDoneIsReplaced`].

## Model

| member | source | states |
|---|---|---|
| Election.VoteChangesWithinTermIff | fusion_multi_node/master/election.py:252-342 | apart from the delayed step-down, exactly a heartbeat of the node's own term, met by a node that is no follower, changes a vote inside its term |
| Election.SteppedDownCandidateVotesAgain | fusion_multi_node/master/election.py:302-342 | after stepping down for a leader of its term a candidate grants another candidate its vote in that same term |
| Election.MasterElection.constructor | fusion_multi_node/master/election.py:344-360 | a node starts fresh, or with the persisted term, vote and token and as a follower without votes |
| Election.MasterElection.StartElection | fusion_multi_node/master/election.py:213-236 | opens the poll of the next term with the node's own vote and asks every other known node |
| Election.MasterElection.HandleVoteResponse | fusion_multi_node/master/election.py:252-268 | raises the term on a later one and says that the step-down is due after the disk write; counts a grant only as a candidate, takes office at the majority (`MajorityIff`, `OfficeByWinning`) |
| Election.MasterElection.FinishElection | fusion_multi_node/master/election.py:238-250 | takes office on a majority of votes (`MajorityIff`, `OfficeByWinning`) whatever the role has become, so possibly a second time |
| Election.MasterElection.HandleVoteRequest | fusion_multi_node/master/election.py:270-300 | the answer and the new state agree with the voting rule: term, earlier vote, priority |
| Election.MasterElection.ReceiveHeartbeat | fusion_multi_node/master/election.py:302-315 | adopts term and leader of a heartbeat that is not old; steps down unless a follower already |
| Election.MasterElection.TakeOffice | fusion_multi_node/master/election.py:317-330 | becomes leader with the next fencing token |
| Election.MasterElection.StepDown | fusion_multi_node/master/election.py:332-342 | becomes a follower without vote and votes |
| ElectionPolls.MajorityIff | fusion_multi_node/master/election.py:228-268 | votes suffice exactly if they are more than half of the peers and the node itself, so of the cluster, and of one more if the node lists itself |
| ElectionPolls.VoteGrantedIff | fusion_multi_node/master/election.py:270-300 | exactly which request gets a yes, and what becomes of term, vote and role |
| ElectionPolls.OfficeByWinning | fusion_multi_node/master/election.py:238-268 | office is taken, with the next token, exactly when a counted yes or the end of the poll leaves more than half of the votes |
| ElectionPolls.TokenCountsWins | fusion_multi_node/master/election.py:213-330 | in every run a node's fencing token is the number of polls it won, and a candidate with peers holds at most half of the votes: no won poll is left waiting |
| ElectionPolls.HeartbeatNamesLeader | fusion_multi_node/master/election.py:302-315 | after a heartbeat that is not old a node follows its sender in its term; an old one changes nothing |
| ElectionPolls.NamedLeaderWasElected | fusion_multi_node/master/election.py:302-330 | whoever a node names as leader was elected, in a term the node has reached |
| Election.DeliverBeatInv | fusion_multi_node/master/election.py:302-336 | the one step that erases a vote keeps the cluster invariant, because it never reaches the leader of that term |
| Election.NextInv | fusion_multi_node/master/election.py:157-360 | every step of every node, crash and delayed step-down included, keeps the cluster invariant that links votes, polls, messages and elections, unless a node votes while it waits for the disk; a restart reloads the vote last written, so after that wait the one from before it |
| Election.NextInvIff | fusion_multi_node/master/election.py:252-300 | a step breaks the invariant exactly when a node votes while it waits for the disk to step down |
| Election.WaitingVoteIsCastTwice | fusion_multi_node/master/election.py:252-300 | in any state, a node that votes during that wait grants, once it has stepped down, any other candidate of enough priority its vote of the same term |
| Election.OneLeaderPerTerm | fusion_multi_node/master/election.py:213-336 | in every state with the invariant, two elections won in one term were won by one node |
| Election.ElectionSafety | fusion_multi_node/master/election.py:213-336 | over a whole run in which no node votes while it waits for the disk, nodes that lead the same term at any two moments are the same node |
| ElectionRuns.TwoLeadersReachable | fusion_multi_node/master/election.py:255-300 | a three-node run with a vote during that wait ends with two leaders of one term |
| Election.VoteDiscipline | fusion_multi_node/master/election.py:270-300 | over such a run, restarts included, a node says yes to at most one candidate per term, never itself, never one of lower priority |
| Election.RunGrows | fusion_multi_node/master/election.py:317-360 | between any two moments of a run, restarts included, no term and no node's own fencing token goes back |
| Election.LeaderOutranksMajority | fusion_multi_node/master/election.py:228-291 | in such a run a leader's priority is at least that of every node in some majority of the cluster |
| ElectionRuns.TwoVotesInOneTermReachable | fusion_multi_node/master/election.py:302-336 | a run of a three-node cluster in which a node votes for two candidates in one term |
| SchedulerCapacity.OneTaskInv | fusion_multi_node/master/cluster_master.py:1505-1616 | the accounting rule for a section that touches one work item: what counters and running items may do for the bounds to hold, and how the leak moves |
| SchedulerCapacity.NextKept | fusion_multi_node/master/cluster_master.py:1397-2376 | every section of assigning, queueing, draining, retrying, finalizing, cancelling, migrating, timing out and going offline keeps bounds, queue order and node lists, and a node's leak grows, by one, exactly in the leaking sections |
| SchedulerCapacity.NoOvercommit | fusion_multi_node/master/cluster_master.py:1505-1616 | over all interleavings with stale selections, drains and retry rounds included: running items on a node <= active_tasks <= max_tasks, and the queue sorted by descending priority |
| SchedulerCapacity.CounterExact | fusion_multi_node/master/cluster_master.py:2119-2376 | active_tasks equals running items plus the leaks of the run, so equality holds iff no section leaked there |
| SchedulerCapacity.LeakReachable | fusion_multi_node/master/cluster_master.py:1553-1560 | a timeout, or a late shortage, leaves a node full with nothing running on it |
| SchedulerOutcomes.ChosenIs | fusion_multi_node/master/cluster_master.py:1569-1601 | enough nodes are chosen exactly if enough of the selection and the allowed stand-ins are free; then the free selected ones come first, and the best stand-ins fill up |
| SchedulerOutcomes.ConfirmIff | fusion_multi_node/master/cluster_master.py:1562-1616 | the confirm section starts the item exactly if enough nodes are free, else queues it if there is room |
| SchedulerOutcomes.AssignIff | fusion_multi_node/master/cluster_master.py:1451-1627 | an undisturbed call on a waiting item, registered or new, starts it, one slot more on each node, exactly if it is not refused, within quota, and the preferred node or enough nodes are free; otherwise it is queued, or nothing changes because the call was refused, it is queued already, or the queue is full |
| SchedulerOutcomes.AssignRunning | fusion_multi_node/master/cluster_master.py:1472-1490 | a call on a running item changes nothing |
| SchedulerOutcomes.DrainRunsIff | fusion_multi_node/master/cluster_master.py:1397-1414 | after an undisturbed drain a queued item runs exactly if its last turn met enough free nodes, or found it running and was not refused |
| SchedulerEndings.FinalizeGives | fusion_multi_node/master/cluster_master.py:2119-2165 | success completes, a part of the nodes makes partly done, a fatal error fails, any other error goes to the retry rule; only for a running item, whose slots come back |
| SchedulerEndings.MigrateGives | fusion_multi_node/master/cluster_master.py:2196-2215 | a running item gives its slots back, excludes every node it was on, and waits |
| SchedulerEndings.MigrateTaskGives | fusion_multi_node/master/cluster_master.py:2194-2220 | a migrated item starts anew, is queued, or, if the assign call says no, goes to the retry rule |
| SchedulerEndings.OfflineGives | fusion_multi_node/master/cluster_master.py:979-989 | an item on an offline node leaves all its nodes, excludes the offline ones, and is retried or fails; no slot is given back |
| SchedulerEndings.StatusIff | fusion_multi_node/master/cluster_master.py:1382-2376 | in every run an item has a status exactly if the last section that gave it any, by a table in terms of nodes, queue and retries, gave it that one |
| SchedulerEndings.HowItEnded | fusion_multi_node/master/cluster_master.py:2119-2376 | completed and partly done items were met running by that result; failed ones by a fatal error, a given-up call or a spent retry; cancelled ones lie under a cancelled root |
| SchedulerEndings.RetryListIff | fusion_multi_node/master/cluster_master.py:1629-1663 | an item is on the retry list exactly if it was sent to retry with retries left, or put back, since the list was last taken |
| SchedulerQueue.EnqueueIsStable | fusion_multi_node/master/cluster_master.py:1382-1390 | a queued item stands behind all of its priority or higher and before all of lower priority |
| SchedulerQueue.DrainKeepsOrder | fusion_multi_node/master/cluster_master.py:1397-1414 | if no item is queued twice, an undisturbed drain leaves the old queue, in its old order, minus the items now running |
| SchedulerQueue.DrainLosesNothing | fusion_multi_node/master/cluster_master.py:1397-1414 | an undisturbed drain of any sorted queue, repeats included, leaves places of the old queue in their old order; whatever was queued is running or still queued; all else is untouched |
| SchedulerQueue.TimeoutSweep | fusion_multi_node/master/cluster_master.py:2363-2376 | one sweep puts every overdue running item through the retry rule once and changes nothing else |
| SchedulerCancel.ClosedIsDoomed | fusion_multi_node/master/cluster_master.py:2247-2265 | a set of found items closed under live sub-items is exactly what is reachable from the root through live items |
| SchedulerCancel.CancelTurn | fusion_multi_node/master/cluster_master.py:2250-2265 | one turn of the stack loop, cycles included, moves one item to cancelled, releases its slots, and leaves fewer live items |
| SchedulerCancel.CancelEffect | fusion_multi_node/master/cluster_master.py:2223-2274 | cancelled and dequeued are exactly the live items reachable through live items; each held slot is given back once; all else is untouched |
| SchedulerRetry.StartAvoidsExclusionsIff | fusion_multi_node/master/cluster_master.py:1562-1616 | the nodes an item is started on avoid its exclusions iff the free ones of the selection do |
| SchedulerRetry.OfflineExcludesIff | fusion_multi_node/master/cluster_master.py:979-989 | the offline section excludes every node an item leaves iff all of them are offline |
| SchedulerRetry.ReturnsToANode | fusion_multi_node/master/cluster_master.py:1562-1616 | a run in which a selection made before the failure starts an item again on the node it excludes |
| SchedulerRetry.RetryMakesProgress | fusion_multi_node/master/cluster_master.py:1629-1663 | successive node lists of an unpinned item are pairwise disjoint, and it starts at most 1 + the retry limit + its migrations times |
| ClusterMasterObject.ClusterMaster.constructor | fusion_multi_node/master/cluster_master.py:1369-1390 | an empty scheduler meets the invariant |
| ClusterMasterObject.ClusterMaster.EnqueuePending | fusion_multi_node/master/cluster_master.py:1369-1395 | refuses at the limit unless forced, else registers the item as pending and inserts it at the place found by scanning |
| ClusterMasterObject.ClusterMaster.DrainPending | fusion_multi_node/master/cluster_master.py:1397-1414 | empties the queue and assigns or re-queues every item in turn |
| ClusterMasterObject.ClusterMaster.AssignTask | fusion_multi_node/master/cluster_master.py:1451-1627 | guards, quota, local force, shortage and confirm sections in sequence, with the answer of each; what that achieves is `AssignIff` |
| ClusterMasterObject.ClusterMaster.ChooseNodes | fusion_multi_node/master/cluster_master.py:1569-1601 | the selected nodes still free, then substitutes for an unpinned item; distinct and registered |
| ClusterMasterObject.ClusterMaster.FindSubstitutes | fusion_multi_node/master/cluster_master.py:1586-1595 | the free nodes of the pool that are neither confirmed nor excluded, in order |
| ClusterMasterObject.ClusterMaster.EnqueueRetry | fusion_multi_node/master/cluster_master.py:1629-1663 | fails a spent item, else excludes the nodes it was on except a pinned one and makes it wait |
| ClusterMasterObject.ClusterMaster.FinalizeTask | fusion_multi_node/master/cluster_master.py:2119-2165 | only a running item: its slots are released and it completes, partly completes, retries or fails, as `FinalizeGives` says |
| ClusterMasterObject.ClusterMaster.ReleaseForMigration | fusion_multi_node/master/cluster_master.py:2196-2215 | only a running item: every node it was on is released and excluded, and it is pending |
| ClusterMasterObject.ClusterMaster.MigrateTask | fusion_multi_node/master/cluster_master.py:2194-2220 | release, assign again, retry if refused |
| ClusterMasterObject.ClusterMaster.CheckTimeouts | fusion_multi_node/master/cluster_master.py:2363-2376 | reports exactly the overdue running items, each through the retry rule |
| ClusterMasterObject.ClusterMaster.CancelSubTasks | fusion_multi_node/master/cluster_master.py:2247-2265 | the stack loop terminates on any sub-item graph with everything reachable cancelled |
| ClusterMasterObject.ClusterMaster.CancelTask | fusion_multi_node/master/cluster_master.py:2223-2274 | cancels all doomed items at once, says yes exactly for a live root, keeps the scheduler's invariant |
| Pipeline.PipelineTask.DispatchPipeline | fusion_multi_node/master/cluster_master.py:1885-1992 | one attempt: resume after the checkpoint in memory, renew it after each stage, clear it at success; reports the stages that succeeded and the values the checkpoint took |
| Pipeline.GoStands | fusion_multi_node/master/cluster_master.py:1900-1992 | wherever an attempt fails, the checkpoint in memory is the fold of exactly the stages that succeeded, and every checkpoint it took on the way stands for a prefix of them |
| Pipeline.LifeIsSound | fusion_multi_node/master/cluster_master.py:1887-1992 | after any failures and crashes, whichever checkpoint each restart finds, the checkpoint is the fold of the first k stages, and a success returns the uninterrupted fold |
| Pipeline.StageCount | fusion_multi_node/master/cluster_master.py:1887-1992 | a stage has succeeded once if it is done, and once more for every crash whose restart found a checkpoint from before it |
| Pipeline.CheckpointRefinesStraightRunIff | fusion_multi_node/master/cluster_master.py:1887-1992 | the stage successes of all attempts are those of one uninterrupted run, each once and in order, iff every crash found the newest checkpoint on disk |
| Pipeline.StageRunsTwice | fusion_multi_node/master/cluster_master.py:1972-1977 | a crash after the first of three stages, before any snapshot, makes the run 0, 0, 1, 2 |
| Pipeline.StartsOver | fusion_multi_node/master/cluster_master.py:1889-1899 | with checkpoints off an attempt keeps none and a success ran every stage itself |
| Pipeline.RunReports | fusion_multi_node/master/cluster_master.py:1962-1977 | an attempt and its checkpoints report the kept steps with the nodes they ran on then, and each stage of its own on the attempt's node for it |
| ActiveActive.Master.ReceiveSyncedTasks | fusion_multi_node/master/cluster_master.py:2786-2819 | merges a snapshot entry by entry, skipping malformed, finished and own entries; what that stores is `ReceivedFrom` |
| ActiveActive.ReceiveIdempotent | fusion_multi_node/master/cluster_master.py:2786-2819 | receiving any snapshot twice equals receiving it once |
| ActiveActive.OwnerWins | fusion_multi_node/master/cluster_master.py:2796-2807 | no snapshot changes an owner's entry, or an entry that is completed, failed, cancelled or timed out; a partly done entry of another master is not protected |
| ActiveActive.PartlyDoneIsReplaced | fusion_multi_node/master/cluster_master.py:2796-2807 | a partly done entry of another master takes over the stored form of what the snapshot lists for it |
| ActiveActive.ReceivedFrom | fusion_multi_node/master/cluster_master.py:556-639 | a task the snapshot does not mention, or whose entry here is settled, is untouched; otherwise its entry is the stored form of the one that decides: pending, off its nodes and avoiding them if it was running, moving or, with partial recovery, partly done; any other as it is |
| ActiveActive.NextInv | fusion_multi_node/master/cluster_master.py:1462-1466 | submit, local change, write to disk, restart from entries written at any earlier time, snapshot and delivery keep owners true and running entries at their owner |
| ActiveActive.RunsOnlyAtOwner | fusion_multi_node/master/cluster_master.py:3186-3200 | in every reachable state all masters agree on the owner and only the owner runs the item |
| ActiveActive.RestartFindsWritten | fusion_multi_node/master/cluster_master.py:641-749 | a restart finds, whatever happened since the last write, exactly the entries that had not ended then, in their stored form |
| ActiveActive.EntriesAreMade | fusion_multi_node/master/cluster_master.py:556-639 | in every run an entry that is anything but pending is, as a whole, one that some master's scheduler made: mirroring and restarts make nothing up |
| KvCache.KVSharingManager.StoreLocal | fusion_multi_node/distributed_mlx/kv_cache_sharing.py:275-296 | refusal, backing out of the old entry, eviction, dictionary and index write |
| KvCache.KVSharingManager.LookupLocal | fusion_multi_node/distributed_mlx/kv_cache_sharing.py:298-317 | miss, stale index entry, expiry, or a hit that becomes the most recently used; what that finds is `LookupFindsIff` |
| KvCache.KVSharingManager.LookupLocalById | fusion_multi_node/distributed_mlx/kv_cache_sharing.py:319-329 | position of the entry, or its removal when expired, as `LookupByIdFindsIff` says |
| KvCache.KVSharingManager.EvictFor | fusion_multi_node/distributed_mlx/kv_cache_sharing.py:339-349 | pops least recently used entries while the budget is exceeded |
| KvCache.KVSharingManager.ExportEntry | fusion_multi_node/distributed_mlx/kv_cache_sharing.py:544-570 | fills missing tensors, grows the entry in place and moves the tracked size by the difference |
| KvCache.KVSharingManager.FillShards | fusion_multi_node/distributed_mlx/kv_cache_sharing.py:557-566 | each shard without a tensor grows by the one produced; the total is the sum of shard sizes |
| KvCache.EvictsShortestPrefix | fusion_multi_node/distributed_mlx/kv_cache_sharing.py:339-349 | an eviction drops the shortest least-recently-used prefix that makes room, or everything |
| KvCache.EvictDropsKeys | fusion_multi_node/distributed_mlx/kv_cache_sharing.py:344-347 | a key stays in the index iff it was there and no dropped entry has it |
| KvCache.StoreFresh | fusion_multi_node/distributed_mlx/kv_cache_sharing.py:275-296 | a fresh store is refused iff the entry alone exceeds the budget; else accounting stays exact and the sum is within budget, even if it was over before |
| KvCache.RestoreAccountingIff | fusion_multi_node/distributed_mlx/kv_cache_sharing.py:283-290 | exactly when re-storing an id keeps the byte count, and by how much it is wrong otherwise |
| KvCache.RestoreMiscounts | fusion_multi_node/distributed_mlx/kv_cache_sharing.py:283-290 | three stores into an empty cache after which it holds 4 bytes more than it counts |
| KvCache.LookupKept | fusion_multi_node/distributed_mlx/kv_cache_sharing.py:298-317 | lookups and their expiries keep the accounting |
| KvCache.ExportKept | fusion_multi_node/distributed_mlx/kv_cache_sharing.py:758-782 | export growth keeps the accounting |
| KvCache.ExportGrows | fusion_multi_node/distributed_mlx/kv_cache_sharing.py:544-570 | an export finds the entry unless it is missing or too old, fills exactly the shards without a tensor, each growing by what was produced, and changes nothing else |
| KvCache.StoreAgain | fusion_multi_node/distributed_mlx/kv_cache_sharing.py:283-291 | an entry stored again takes the old one's place, or, exactly if the eviction reached that, the most recent one |
| KvCache.LookupFindsIff | fusion_multi_node/distributed_mlx/kv_cache_sharing.py:298-317 | a lookup finds an entry exactly if one with the model and hash and an id is cached and its age is at most its ttl; that one becomes the most recent; what a lookup removes is older |
| KvCache.LookupByIdFindsIff | fusion_multi_node/distributed_mlx/kv_cache_sharing.py:319-329 | the same for a lookup by id, which moves nothing |
| KvCache.StoredIsFound | fusion_multi_node/distributed_mlx/kv_cache_sharing.py:275-317 | what was just stored is found until it is older than its ttl |
| KvCache.RunLookupFindsIff | fusion_multi_node/distributed_mlx/kv_cache_sharing.py:298-317 | in every run whose stores use ids and keys one to one, a lookup finds exactly what is cached and no older than its ttl |
| KvCache.LookupIsScan | fusion_multi_node/distributed_mlx/kv_cache_sharing.py:298-317 | with an exact index a lookup finds what a linear search for an unexpired entry finds, and by `LookupFindsIff` that is by age |
| KvCache.StoreKeepsIndex | fusion_multi_node/distributed_mlx/kv_cache_sharing.py:287-291 | a store keeps the index the exact inverse of the cache when ids and keys correspond |
| KvCache.LookupKeepsIndex | fusion_multi_node/distributed_mlx/kv_cache_sharing.py:298-317 | so does a lookup |
| KvCache.RunAccounting | fusion_multi_node/distributed_mlx/kv_cache_sharing.py:275-349 | in every run whose re-stores meet the condition of RestoreAccountingIff the tracked size is the sum of entry sizes, and after a successful store the sum is within budget |
| KvCache.RunIndex | fusion_multi_node/distributed_mlx/kv_cache_sharing.py:287-349 | in every run whose stores use ids and keys one to one, the index is the exact inverse of the cache, even where the byte count is off |
| KvCache.RunLookupIsScan | fusion_multi_node/distributed_mlx/kv_cache_sharing.py:298-317 | in every such run `lookup_local` equals a linear search for an unexpired entry, save that an empty id is never found |
| KvStream.ReadShardTensors | fusion_multi_node/distributed_mlx/kv_cache_sharing.py:691-710 | the nested reading loops compute the tensors of the reference reading function |
| KvStream.ReadBackIff | fusion_multi_node/distributed_mlx/kv_cache_sharing.py:691-710 | concatenated tensors are read back from a chunking iff no chunk crosses a tensor boundary |
| KvStream.TensorsHaveTheirLength | fusion_multi_node/distributed_mlx/kv_cache_sharing.py:691-710 | whatever arrives, a tensor that is read has the announced length, and one that does not arrive whole is absent |
| KvStream.ImportedIff | fusion_multi_node/distributed_mlx/kv_cache_sharing.py:664-690 | an import succeeds up to the store exactly if magic, length and readable metadata are there |
| KvStream.StreamRoundTripIff | fusion_multi_node/distributed_mlx/kv_cache_sharing.py:616-749 | importing an exported stream rebuilds the entry, metadata and tensors, iff no tensor is present but empty and no chunk crosses a shard boundary |
| KvStream.CutBoundaries | fusion_multi_node/server/agent_server.py:692-714 | equal chunks end exactly at the multiples of their size and at the end |
| KvStream.RouteRoundTripIff | fusion_multi_node/server/agent_server.py:692-714 | the import route gives the entry back iff no tensor is present but empty and tensor boundaries are multiples of 65536 or the end |
| KvStream.TwoSmallTensorsAreLost | fusion_multi_node/server/agent_server.py:692-714 | an entry with two one-byte tensors does not survive the import route |
| ByteStrings.BigEndianInverse | fusion_multi_node/distributed_mlx/kv_cache_sharing.py:664-685 | reading the four length bytes gives the length written |
| ByteStrings.FromBigEndianInverse | fusion_multi_node/distributed_mlx/caveman_compress.py:135-169 | packing an unpacked token gives its bytes back |
| Caveman.CavemanCompressor.BuildDictionary | fusion_multi_node/distributed_mlx/caveman_compress.py:49-59 | the k-th most common token gets code k in two bytes and both dictionaries are inverse to each other |
| Caveman.CavemanCompressor.DictCompress | fusion_multi_node/distributed_mlx/caveman_compress.py:120-146 | the loop writes the tagged records of the reference encoder; no dictionary, no change |
| Caveman.CavemanCompressor.DictDecompress | fusion_multi_node/distributed_mlx/caveman_compress.py:148-181 | the loop reads records as the reference decoder does: unknown codes and tags pass through, a cut record ends the reading, an oversized token is an error |
| Caveman.CavemanCompressor.DiffCompress | fusion_multi_node/distributed_mlx/caveman_compress.py:183-197 | differences modulo 256 through zlib; fewer than two bytes unchanged |
| Caveman.CavemanCompressor.DiffDecompress | fusion_multi_node/distributed_mlx/caveman_compress.py:199-211 | running sums modulo 256 of what zlib inflates |
| Caveman.CavemanCompressor.HasRepeatedPattern | fusion_multi_node/distributed_mlx/caveman_compress.py:213-225 | true iff the windows minus the distinct windows exceed a tenth of the distinct ones |
| Caveman.CavemanCompressor.Compress | fusion_multi_node/distributed_mlx/caveman_compress.py:61-108 | reports the method used, by size and repetition when left to choose, and the sizes; the bytes are those of that method; decompressing with it gives the data back unless differences of fewer than two bytes were asked for |
| Caveman.DecodeUndoesEncode | fusion_multi_node/distributed_mlx/caveman_compress.py:120-181 | decoding the records of any byte string gives it back |
| Caveman.DictRoundTrip | fusion_multi_node/distributed_mlx/caveman_compress.py:120-181 | round trip for every byte string, output at most twice the input, and shorter iff more than a fifth of the bytes counts as hits |
| Caveman.EncodeSize | fusion_multi_node/distributed_mlx/caveman_compress.py:132-144 | the exact output size: two per byte, less five per hit |
| Caveman.SumsUndoDifferences | fusion_multi_node/distributed_mlx/caveman_compress.py:192-209 | running sums undo differences modulo 256 |
| Caveman.DiffRoundTripIff | fusion_multi_node/distributed_mlx/caveman_compress.py:183-211 | difference coding gives the data back iff there are at least two bytes |
| Caveman.OneByteIsLost | fusion_multi_node/distributed_mlx/caveman_compress.py:183-211 | one byte is passed through by the compressor and refused by the decompressor |
| Caveman.RoundTripIff | fusion_multi_node/distributed_mlx/caveman_compress.py:76-118 | for every method asked for, automatic included, decompressing with the reported one is the identity except for that case |
| Caveman.ForeignRecords | fusion_multi_node/distributed_mlx/caveman_compress.py:148-181 | unknown codes and tags stand for themselves, a cut record ends the reading, a token that does not fit is an error |
| Caveman.RepetitiveRatio | fusion_multi_node/distributed_mlx/caveman_compress.py:213-225 | data is repetitive exactly if the repeated windows are more than 0.1 of the different ones |
| Sharding.KeyGroupsAreSearched | fusion_multi_node/master/task_sharding.py:192-195 | one pass with an insertion-ordered dictionary finds what a search per key, in order of first occurrence, finds |
| Sharding.ArrangedIsStable | fusion_multi_node/master/task_sharding.py:185-207 | keyed strategies give a permutation in which equal keys stand together and keep their order |
| Sharding.ArrangedByFile | fusion_multi_node/master/task_sharding.py:178-201 | by file: nothing is lost, the items of a file stand side by side and keep their order |
| Sharding.ArrangedByDocument | fusion_multi_node/master/task_sharding.py:178-201 | by document: the same |
| Sharding.GroupsFlatten | fusion_multi_node/master/task_sharding.py:142-152 | shards in order hold all items, also after tail merging, iff it is not batching with a negative size |
| Sharding.NegativeSizeDropsAll | fusion_multi_node/master/task_sharding.py:209-218 | batching any items with a negative size leaves no shard |
| Sharding.ShardBounds | fusion_multi_node/master/task_sharding.py:145-152 | shards exist, none is empty, and the limit is kept iff it allows one |
| Sharding.ShardCount | fusion_multi_node/master/task_sharding.py:145-152 | the number of shards is that of the batches, rounded up, or the limit; every one but the last has the full size |
| Sharding.DefaultsOfTypes | fusion_multi_node/master/task_sharding.py:140-143 | size and strategy of each type when none, or size zero, is asked for |
| Sharding.TaskSharder.GroupByBatch | fusion_multi_node/master/task_sharding.py:209-218 | the loop cuts the items into consecutive batches |
| Sharding.TaskSharder.GroupByKey | fusion_multi_node/master/task_sharding.py:185-207 | the nested loops cut the key-grouped items into batches |
| Sharding.TaskSharder.CreateShards | fusion_multi_node/master/task_sharding.py:129-169 | numbered pending shards over the tail-merged groups, filed under their parent; no items, no entry |
| Sharding.Merge | fusion_multi_node/master/task_sharding.py:253-341 | counts, errors and merged data of the completed shards in order; success plus failure is the total |
| Sharding.FinishedAre | fusion_multi_node/master/task_sharding.py:253-341 | merged are exactly the completed shards, each at its rank among them |
| Sharding.ErrorsAre | fusion_multi_node/master/task_sharding.py:253-341 | an error is listed exactly if a shard that is not completed has it |
| Sharding.FirstKeyWins | fusion_multi_node/master/task_sharding.py:305-341 | which key of a result a merge takes, for each type |
| Sharding.MergedIsMapped | fusion_multi_node/master/task_sharding.py:305-341 | whatever failed, the merged list is the map over the items of the completed shards |
| Sharding.ShardMapMerge | fusion_multi_node/master/task_sharding.py:142-315 | shard, map, merge equals map over all items in the order of the strategy |
| Bridge.ShardModel | fusion_multi_node/distributed_mlx/distributed_bridge.py:111-133 | the loop builds the layer ranges; zero shards is an error, negative gives none |
| Bridge.ShardsCoverIff | fusion_multi_node/distributed_mlx/distributed_bridge.py:111-126 | the ranges concatenate to 0..total-1 iff num_shards <= total + 1 |
| Bridge.OneLayerThreeShards | fusion_multi_node/distributed_mlx/distributed_bridge.py:111-126 | three shards of one layer name a layer that does not exist |
| Bridge.ShardsFilledIff | fusion_multi_node/distributed_mlx/distributed_bridge.py:111-126 | no shard is empty iff num_shards <= total; the last one carries the remainder |
| Bridge.ChainIsFold | fusion_multi_node/distributed_mlx/distributed_bridge.py:196-222 | a chain folds the layers of the nodes that answer with an output, or fails iff one is down; a node that answers without one leaves the state as it is |
| Bridge.ChainedShardsAreTheModel | fusion_multi_node/distributed_mlx/distributed_bridge.py:111-222 | chaining the shards equals running the unsplit model |
| Bridge.PipelineInference | fusion_multi_node/distributed_mlx/distributed_bridge.py:196-250 | the chain's result, decoded when the last node can; the first failing step ends the run |
| Bridge.LeastLoaded | fusion_multi_node/distributed_mlx/distributed_bridge.py:268 | the first of the least loaded nodes in insertion order |
| Bridge.OnceInOrder | fusion_multi_node/distributed_mlx/distributed_bridge.py:263-271 | the distinct nodes stand in the order in which they are first listed |
| Bridge.AssignPrompts | fusion_multi_node/distributed_mlx/distributed_bridge.py:263-271 | prompt i goes to distinct node i modulo their number; loads end within one of each other |
| Bridge.DataParallelInference | fusion_multi_node/distributed_mlx/distributed_bridge.py:252-285 | answers in prompt order, each from its node, a failure under the node's name |
| Fmp.FromDictUndoesToDict | fusion_multi_node/protocol/fmp_message.py:84-242 | the dictionary form of every message, all three layers, reads back as the message |
| Fmp.CodecsExist | fusion_multi_node/protocol/fmp_message.py:244-308 | for every list of messages there are codings that give all of them back, with and without msgpack, as the theorems below ask |
| Fmp.FrameRoundTrip | fusion_multi_node/protocol/fmp_message.py:244-308 | a frame, whatever follows it, reads back as its message iff its payload is at most 16 MiB, else as the size error |
| Fmp.FrameBytes | fusion_multi_node/protocol/fmp_message.py:244-277 | the bytes of a frame, field by field |
| Fmp.AcceptedIff | fusion_multi_node/protocol/fmp_message.py:279-308 | bytes are read as a message exactly if magic, version, length, coding and dictionary are right; the frame alone says whether it is encrypted |
| Fmp.DescribesIff | fusion_multi_node/protocol/fmp_message.py:84-242 | a dictionary describes a message exactly if no identity, type or payload is missing or unreadable |
| Fmp.Defaults | fusion_multi_node/protocol/fmp_message.py:84-242 | the value of every other field that is missing |
| Fmp.ReadLoop | fusion_multi_node/protocol/fmp_connection.py:182-221 | the loop hands on the messages of the reference reader, timeouts included |
| Fmp.StreamRoundTrip | fusion_multi_node/protocol/fmp_server.py:302-335 | a stream of sent frames, cut off anywhere and with timeouts anywhere, yields exactly the leading messages that fit, arrived whole and met no timeout between length and body |
| Fmp.WholeStreamIff | fusion_multi_node/protocol/fmp_connection.py:166-199 | the whole message list is read back iff every frame, header included, is at most 16 MiB and no timeout falls between a length and its body |
| Fmp.LargeFrameIsRefused | fusion_multi_node/protocol/fmp_connection.py:186-191 | for any message a frame with 16 MiB of payload that can be parsed and that the loop does not hand on |

## Left out

- RetryMakesProgress: for runs in which a selection, or the node of the local-force rule, avoids the present exclusions, no late call takes the item out of RUNNING, and its nodes go offline together or not at all. `StartAvoidsExclusionsIff` and `OfflineExcludesIff` show that without the first and the last the item may return to a node; the local-force path does not look at exclusions (`cluster_master.py:1495-1524`).
- ElectionSafety: runs in which a node votes while it waits for the disk to step down are outside; `TwoLeadersReachable` shows why. The same holds for `VoteDiscipline` and `LeaderOutranksMajority`.
- RunAccounting: exports are one step each; two exports of one entry that overlap at the backend call are not modelled. `max_local_cache_mb` is a byte budget.
- RunsOnlyAtOwner: every item is given an owner at submission; with an empty owner any master may dispatch it.
- DrainKeepsOrder: nothing else runs during the drain; with other calls in between, which take turns with the drain's own in the runs of `NoOvercommit`, only that theorem speaks. For queues that list an item twice there is `DrainLosesNothing`.
- CancelTask: the drain that follows a cancel is `DrainPending`; the retry list is not cleared by the code and not claimed to be.
- ShardMapMerge: a negative shard size is excluded for batching, where `GroupsFlatten` shows the items are lost. `get_shard` and `update_shard_status` are not modelled; statuses and results are arbitrary inputs of the merge.
- BuildDictionary: `Counter.most_common` is a parameter with its documented properties.
- HasRepeatedPattern: the floating-point comparison with 0.1 is made on integers.
- ReadLoop: decryption of messages; reconnecting after the loop has stopped.
- JSON, msgpack, zlib and base64 (section 4 of RFC 4648) are encode/decode pairs; the theorems ask that the decoder gives back the values they are about, and that zlib rejects inputs of fewer than two bytes.
- Persistence: what an election step writes is on disk with the step, except that an outvoted candidate waits for it and its step-down is not written; a crash between a step and its write, and disk writes that overtake each other (`election.py:384-412`), are not modelled. Scheduler runs have no master restart; pipeline checkpoints and mirrored work items may be older on disk than in memory.
- Election members and priorities are fixed: nodes made known or forgotten during a run are not modelled.
- Pipeline attempts of one item come one after the other: an attempt that timed out and keeps running beside its successor is not modelled.
- Deletion of old finished items (`cluster_master.py:3815-3833`), which can leave an id in the queue that is no longer registered, against the clause of the queue invariant that all queued ids are.
- Snapshots of another master received while the scheduler's own calls are running: the scheduler runs and the mirroring runs are separate.
- HTTP, sockets, TLS, logging and metrics are not modelled.
- A heartbeat broadcast is one step that carries the term the sender leads; the callback that re-reads the term later is not modelled. No liveness of elections.
- Work items and nodes are values in maps: two objects with one id are not told apart. Empty identifiers are `None`.
- Removal and re-registration of nodes, agent reports that overwrite `active_tasks`, `complete_task` and `degrade_task`, which release slots without a check.
- Load scoring, bans, draining, memory, tiers and roles: the selection and the order of substitutes are arbitrary. The tenant quota is an arbitrary answer.
- Access times of shards, statistics, remote lookups, prefix lookups, persistence and warming of the KV cache; remembering and forgetting shards of several models in the bridge.
- `forward`, `next_round`, encryption and the protobuf form of FMP messages.
