# Verified models of the concurrent protocols and schedulers

This project models seven self-contained parts of the repository in Dafny and proves what they are
for, for any number of nodes, threads, transactions, keys and steps. `dafny verify dfyconfig.toml`
checks all of it.

| files | part |
|---|---|
| `RaftNode`, `RaftEffects`, `RaftCluster`, `RaftDuties`, `RaftLedger`, `RaftCommitSafety` | the Raft node and clusters of it |
| `RaftScript`, `RaftCommitFails`, `RaftCommitRegress`, `RaftCommitHolds` | runs of Raft clusters in which a promise fails, and a vouched one that commits |
| `CrossShard`, `CrossShardProofs`, `CrossShardClients` | cross-shard optimistic transactions |
| `SsiMachine`, `SsiMachineProofs`, `SsiSerializability`, `SsiHistory` | the SSI state machine |
| `SsiStore`, `SnapshotRefinement`, `StoreSerializability`, `StoreLog`, `StoreAnomalies` | the multi-version SSI store |
| `TreiberStack`, `TreiberThreads`, `StackHistory` | the Treiber stack steps and the LIFO history checker |
| `PackedWord`, `LogicalElection`, `ElectionAnswers`, `PackedElection`, `ElectionOperations` | leader election over packed 64-bit words |
| `TwoPhaseCommit`, `TwoPhaseAnswers`, `TransactionCells` | two-phase commit on atomic cells |
| `ListScheduling`, `ListSchedulingBounds`, `ListSchedulingReport` | the transaction scheduler |
| `CloudScheduling`, `CloudSchedulingProofs`, `CloudSchedulingReport` | the cloud job scheduler |

`Options`, `Collections`, `RankedOrder`, `RealSums` and `StableSort` are shared helpers.

**How code is modelled.** Code that updates state in place is a class or an array method with the
source's loops and branches, proved to leave exactly what a specification function gives for the
state it found. Protocols are state machines over those functions: one action for each atomic
section of the source, in any interleaving. The theorems are about every state of every run. Beside what a
step may do stands what it must do: `RaftDuties`, `TreiberThreads`, `TwoPhaseAnswers` and `ElectionAnswers`
say on the fields alone what each step sends, changes and answers; `SsiHistory`, `StoreLog` and
`CrossShardClients` tie every answer to the operations that the clients have asked for so far.

**Raft.** Each of `tick`, `propose`, `step` and `advance` is one atomic step, because `cas_update`
swaps the whole record. The network is a growing set of (addressee, message) pairs that may be lost,
duplicated, delayed and reordered. `peers` is the rest of the cluster without repetition, and a node
does not restart with lost state. Index 0 in an entry wraps around to a slot past any log, as
`entry.index - 1` does. Where documentation and code disagree the code is followed: Leader
Completeness, State Machine Safety and Commit Progress, which the problem statement promises, fail,
because a success reply reports the length of the follower's whole log. `RaftCommitFails` is a run of
three nodes that shows the first two, `RaftCommitRegress` one of five that shows the third. They fail
for want of one test that a follower can make on its own record and the message: `Vouched`, no tail is
left that the message does not vouch for. `VouchedExactly` says that a report is true if and only if it
holds, and `RaftCommitSafety` proves all three promises of every run in which it always holds.

**Cross-shard transactions.** Every critical section is a step: `begin_txn` reads one shard version at
a time, `commit` takes its shard locks one at a time in ascending order, validates, applies and
releases shard by shard. The operations of one transaction are issued one after another.
`CrossShardClients.Track` follows one client by its calls and the shards it is shown; serializability is
about these accounts, not about the logs that the system keeps itself.

**SSI.** `SsiMachine.Apply` is the source's `apply`, branch for branch, including the read-abort branch
that keeps the write locks. `SsiStore.Store` is the store with its version vectors updated in place;
every call, with its answer, is compared with a model that copies the whole committed database at every
`begin` and decides writes by its own buffers. The documentation promises serializability of both and the
code keeps it for neither: two tests on the state before the call are missing. At a write, nobody else
may have committed a write of the key since the snapshot. At a read, in the state machine, whoever else
has written the key up to the snapshot must have committed by then or aborted; in the store, the read
must not be behind a committed transaction that has itself read behind somebody. If all reads and writes
of the committed transactions pass, the state machine (`SerializableIfClear`) and the store
(`SerializableIfFresh`) are serializable; without either test there is a run that no serial order
explains.

**Packed election.** Words are 64-bit vectors under the source's shifts and masks; the numbers in them
are naturals connected by their binary representation, and the bit of position `i` is 1 doubled `i`
times. Operations on one server are taken one at a time, so that each retry loop runs once. Vote
requests and heartbeats may be anything that the layout can hold; responses reach the server that the
request named and may be lost, duplicated and reordered.

**Two-phase commit.** Every load, compare-and-swap and `fetch_add` is a step of some thread, and a weak
compare-and-swap may fail for no reason. Any thread may start any operation at any time. An id may be
listed twice.

**Schedulers.** Times and costs are real numbers. `sort_by` is modelled by its contract: the one stable
order.

## Model

| member | source | states |
|---|---|---|
| RaftNode.Server.Tick | results/v2/raft_consensus_best.rs:231-249 | a tick leaves the record of the specified step: elections after ten ticks, heartbeats every three, counters otherwise |
| RaftNode.Server.ProposeEntry | results/v2/raft_consensus_best.rs:251-276 | only a leader appends, at its next index and in its own term, and the result says which index |
| RaftNode.Server.Step | results/v2/raft_consensus_best.rs:278-317 | every message is handled by its own handler and changes the record as specified |
| RaftNode.Server.AdvanceReady | results/v2/raft_consensus_best.rs:329-334 | the messages and committed entries handed out are cleared and nothing else |
| RaftNode.Server.DoStartElection | results/v2/raft_consensus_best.rs:340-370 | a new term with the node's own vote; leadership at once in a cluster of one |
| RaftNode.Server.DoSendHeartbeats | results/v2/raft_consensus_best.rs:372-401 | the loop sends each peer the part of the log from that peer's next index on, in peer order |
| RaftNode.Server.CollectFrom | results/v2/raft_consensus_best.rs:386 | the filter keeps exactly the entries whose own index is at least the given one, in order |
| RaftNode.Server.DoHandleRequestVote | results/v2/raft_consensus_best.rs:407-444 | step-down, log comparison, at most one vote, and the reply, as specified |
| RaftNode.Server.DoHandleVoteResponse | results/v2/raft_consensus_best.rs:446-467 | a granted vote of the current candidacy counts once per voter |
| RaftNode.Server.DoBecomeLeader | results/v2/raft_consensus_best.rs:469-484 | every peer's progress is reset before the first heartbeats |
| RaftNode.Server.DoHandleAppendEntries | results/v2/raft_consensus_best.rs:486-571 | both rejections, the merge, the commit index and the reply, as specified |
| RaftNode.Server.PlaceEntries | results/v2/raft_consensus_best.rs:530-540 | the truncate-and-append loop merges the entries one by one |
| RaftNode.Server.DoHandleAppendEntriesResponse | results/v2/raft_consensus_best.rs:573-627 | progress only grows on success; a failure steps the next index back, not below 1, and resends |
| RaftNode.Server.DoTryAdvanceCommit | results/v2/raft_consensus_best.rs:629-648 | the downward scan commits what its specification finds |
| RaftNode.Server.DoApplyCommitted | results/v2/raft_consensus_best.rs:650-657 | the loop emits entry after entry up to the commit index |
| RaftEffects.HighestCommittableIsGreatest | results/v2/raft_consensus_best.rs:629-648 | the committed index is the greatest one that a quorum reports and whose entry has the current term, and nothing is committed only if there is none |
| RaftEffects.ApplyShape | results/v2/raft_consensus_best.rs:650-657 | applying emits exactly the stretch of the log between the two counters and changes nothing else |
| RaftEffects.StepEffect | results/v2/raft_consensus_best.rs:231-333 | no step changes identity, lowers the term or changes a vote within a term; the log changes only by a leader's proposal or an accepted AppendEntries; every new message is a true one |
| RaftEffects.CommitGoesBackExactly | results/v2/raft_consensus_best.rs:542-547 | the commit index goes back exactly when an accepted message announces a higher commit index but vouches only for entries below the node's |
| RaftEffects.StepProgress | results/v2/raft_consensus_best.rs:407-657 | a new vote goes to a log at least as up to date; a match is the leader's own log, reported, or as before; the commit index moves only by an accepted message or a counted quorum, and then everything up to it is applied |
| RaftCluster.VotesGrow | results/v2/raft_consensus_best.rs:407-444 | a vote once on record for a term and voter is never changed |
| RaftCluster.FreshTerm | results/v2/raft_consensus_best.rs:446-467 | a node that wins a term wins one that nobody had won: two quorums share a voter |
| RaftCluster.StaysLegitimate | results/v2/raft_consensus_best.rs:486-516 | the winner of a term never becomes a follower of that same term |
| RaftCluster.MergeAccepts | results/v2/raft_consensus_best.rs:530-540 | merging a slice of a leader's log changes nothing or leaves exactly the leader's prefix |
| RaftCluster.AppendIsSlice | results/v2/raft_consensus_best.rs:372-401 | whatever the next index, what is sent is a slice of the sender's log with the term before it |
| RaftCluster.KeepsInv | results/v2/raft_consensus_best.rs:231-657 | every step keeps the whole invariant: true votes, legitimate elections, logs backed by the leaders' logs, true payloads |
| RaftCluster.ElectionSafety | results/v2/raft_consensus_best.rs:340-484 | over a whole run with loss, duplication and reordering at most one node is ever leader of a term |
| RaftCluster.LogMatching | results/v2/raft_consensus_best.rs:486-571 | two logs, of any two nodes at any two moments, that have an entry with the same index and term are identical up to it |
| RaftCluster.LeaderAppendOnly | results/v2/raft_consensus_best.rs:264-272 | between two moments at which a node leads the same term its log only grows |
| RaftCluster.LeaderLogWasHeld | results/v2/raft_consensus_best.rs:251-276 | the log on record for a term was held by that term's leader at some moment |
| RaftCluster.AcceptedPrefix | results/v2/raft_consensus_best.rs:516-571 | after acceptance the log begins with what the sender's log held up to prev_log_index plus the number of entries, even for stale or repeated messages |
| RaftCluster.MatchReportExactly | results/v2/raft_consensus_best.rs:559-570 | what an accepted AppendEntries reports as matched is true of the leader's log exactly when that log reaches as far and has the term of the node's last entry there |
| RaftCluster.AppliesWithinLog | results/v2/raft_consensus_best.rs:542-657 | in every run, at either call of `apply_committed`, the commit index is within the log and every entry stands at its own index; without a call nothing is applied |
| RaftCluster.ApplyStream | results/v2/raft_consensus_best.rs:650-657 | over a whole run each node emits indices 1, 2, 3, ... without gap or repetition |
| RaftDuties.RunDuty | results/v2/raft_consensus_best.rs:231-657 | in every run each step of each handler sends exactly the messages that it owes, with what they must carry: heartbeats to all, requests for votes, and a reply to every request, refused ones too; moves the timers, ballots and progress as it must, and leaves the other nodes alone |
| RaftDuties.ThreeTicks | results/v2/raft_consensus_best.rs:231-249 | of any three ticks in a row of a node that leads all the while, one sends every peer the part of the log that it is not known to have, whatever else the node does in between |
| RaftDuties.Answered | results/v2/raft_consensus_best.rs:407-571 | every vote request and AppendEntries that is received is answered to its sender, in a term that is not older |
| RaftDuties.MergeExactly | results/v2/raft_consensus_best.rs:530-540 | the longest part of the message that the log has by its terms stays; only what conflicts behind it is replaced, by the rest of the message |
| RaftDuties.AcceptsExactly | results/v2/raft_consensus_best.rs:516-540 | in every run an accepted AppendEntries does this to the log of whoever accepts it |
| RaftDuties.AppendCommits | results/v2/raft_consensus_best.rs:542-547 | an announced commit index is taken over as far as the message goes, and what it newly covers is emitted |
| RaftDuties.CommitsMost | results/v2/raft_consensus_best.rs:588-657 | after a success a leader has committed the most that more than half of the cluster is known to have in its term, and has emitted it |
| RaftLedger.UpToDateHas | results/v2/raft_consensus_best.rs:425-430 | a log at least as up to date as one with a prefix has the prefix too, if every term in between was won with it |
| RaftLedger.KeepsVotesKept | results/v2/raft_consensus_best.rs:407-484 | every step keeps this: a log that got a vote that counts has whatever the voter had held of earlier terms, unless a term in between was won without it |
| RaftLedger.KeepsHeldInv | results/v2/raft_consensus_best.rs:486-571 | every vouched step keeps this and its counterpart for the nodes themselves, and makes only true success replies |
| RaftCommitSafety.LaterBaseHas | results/v2/raft_consensus_best.rs:446-484 | every later term is won with what an earlier term has committed: the two quorums share a voter |
| RaftCommitSafety.KeepsFullInv | results/v2/raft_consensus_best.rs:231-657 | every vouched step keeps all invariants of votes, logs, matches, commit indices and announcements, and no commit index goes back |
| RaftCommitSafety.VouchedExactly | results/v2/raft_consensus_best.rs:530-570 | in every run, what an accepted AppendEntries leaves and reports as matched is a prefix of a log that the sender leads that term with at some moment if and only if the message vouches for it |
| RaftCommitSafety.LeaderCompleteness | tools/vf-evolve/tasks/raft_consensus/PROBLEM.md:41 | in every vouched run, what a node's commit index covers in a term is in the log of every leader of a later term whenever it leads |
| RaftCommitSafety.StateMachineSafety | tools/vf-evolve/tasks/raft_consensus/PROBLEM.md:42 | in every vouched run, what any two nodes have applied, at any two moments, agrees as far as both go |
| RaftCommitSafety.StreamIsCommitted | results/v2/raft_consensus_best.rs:650-657 | in every vouched run a node has applied exactly the part of its log that its commit index covers |
| RaftCommitSafety.CommitNeverGoesBack | results/v2/raft_consensus_best.rs:542-547 | in every vouched run a commit index never goes back and what it covers never changes |
| RaftCommitHolds.VouchedCommit | results/v2/raft_consensus_best.rs:629-657 | vouched runs do commit: in one of three nodes the leader of term 1 commits and applies its first entry |
| RaftCommitRegress.CommitGoesBack | results/v2/raft_consensus_best.rs:542-547 | a run of five nodes in which a follower's commit index goes from 3 to 2 |
| RaftCommitFails.LeaderCompletenessFails | results/v2/raft_consensus_best.rs:559-570 | a run of three nodes, not vouched, in which the leader of term 3 lacks an entry committed in term 2 |
| RaftCommitFails.StateMachineSafetyFails | results/v2/raft_consensus_best.rs:629-648 | a run in which two nodes apply different entries at index 1 |
| CrossShard.Store.BeginTxn | tools/vf-evolve/tasks/cross_shard_ssi/initial.rs:52-66 | a fresh id with the versions of all shards |
| CrossShard.Store.ReadKey | tools/vf-evolve/tasks/cross_shard_ssi/initial.rs:68-78 | the shard's current value, logged once per call and only for a live transaction |
| CrossShard.Store.WriteKey | tools/vf-evolve/tasks/cross_shard_ssi/initial.rs:80-85 | a write is only buffered, behind the earlier ones |
| CrossShard.Store.Commit | tools/vf-evolve/tasks/cross_shard_ssi/initial.rs:87-133 | success exactly when no involved shard has moved since the snapshot; then every shard holds its buffered writes in order, otherwise nothing changes |
| CrossShard.Store.Abort | tools/vf-evolve/tasks/cross_shard_ssi/initial.rs:135-137 | no shard changes |
| CrossShardProofs.CommitPointReads | tools/vf-evolve/tasks/cross_shard_ssi/initial.rs:105-117 | once validation has passed under all locks, every read agrees with the store that the earlier committed transactions leave |
| CrossShardProofs.CommitPointData | tools/vf-evolve/tasks/cross_shard_ssi/initial.rs:105-133 | from the commit point on, each shard is, or will be once applied, what the serial re-execution gives |
| CrossShardProofs.RunAloneByShard | tools/vf-evolve/tasks/cross_shard_ssi/initial.rs:119-130 | applying writes shard by shard is running the transaction alone |
| CrossShardProofs.KeepsInv | tools/vf-evolve/tasks/cross_shard_ssi/initial.rs:52-137 | every step of every client keeps locks, tracked reads and pending writes in order |
| CrossShardClients.CommittedAsAsked | tools/vf-evolve/tasks/cross_shard_ssi/initial.rs:68-133 | a committed transaction has written what its client's write calls asked for, shard, key and value, in order, and has read what its read calls asked for, each answered with what the shard held at that moment |
| CrossShardClients.Serializability | tools/vf-evolve/tasks/cross_shard_ssi/initial.rs:52-133 | every read of a committed client was answered with what the store holds when the clients before it in commit order, and no others, have run one after another with the writes they asked for |
| CrossShardClients.SerialContents | tools/vf-evolve/tasks/cross_shard_ssi/initial.rs:119-130 | ... and every shard that no commit is being applied to holds what all of them leave |
| CrossShardClients.LastWriteStands | tools/vf-evolve/tasks/cross_shard_ssi/initial.rs:119-130 | of several writes of one transaction to a key the last one counts |
| CrossShardClients.RefusedForCause | tools/vf-evolve/tasks/cross_shard_ssi/initial.rs:105-117 | a commit is refused only if a shard that its client had asked for has moved since its begin |
| CrossShardClients.SucceededUnmoved | tools/vf-evolve/tasks/cross_shard_ssi/initial.rs:105-117 | a commit succeeds only at a moment at which no such shard has moved |
| CrossShardClients.StepsRunOut | tools/vf-evolve/tasks/cross_shard_ssi/initial.rs:52-137 | each step of a client brings its call nearer to its end and nobody else's step takes it further away |
| CrossShardProofs.OrderIsExact | tools/vf-evolve/tasks/cross_shard_ssi/initial.rs:87-133 | the commit order has every successful commit, nothing else, and each once |
| CrossShardProofs.SomebodyResumes | tools/vf-evolve/tasks/cross_shard_ssi/initial.rs:97-103 | whoever holds the lock a client waits for can go on or waits for a later shard |
| CrossShardProofs.DeadlockFreedom | tools/vf-evolve/tasks/cross_shard_ssi/initial.rs:52-117 | while any client has an unfinished operation some client can take a step |
| SsiMachine.FindLatestVersion | crates/vf-stateright/src/ssi.rs:125-147 | the writer of the last committed write to the key at or before the snapshot, or none if there is none |
| SsiMachine.CheckFirstCommitterWins | crates/vf-stateright/src/ssi.rs:438-475 | true exactly when no two committed writes to the key overlap |
| SsiMachineProofs.StepAppends | crates/vf-stateright/src/ssi.rs:260-432 | every step appends one operation of one live transaction and touches no other transaction's status or snapshot |
| SsiMachineProofs.NewWriteFlagged | crates/vf-stateright/src/ssi.rs:183-215 | a write after a concurrent read sets both flags of the new edge |
| SsiMachineProofs.NewReadFlagged | crates/vf-stateright/src/ssi.rs:156-180 | a read past a newer write sets both flags of the new edge |
| SsiMachineProofs.DetectionComplete | crates/vf-stateright/src/ssi.rs:156-403 | in every run each detected read-write edge between transactions that have not aborted has both flags set |
| SsiMachineProofs.NoCommittedPivot | crates/vf-stateright/src/ssi.rs:373-403 | no committed transaction has both an incoming and an outgoing detected edge |
| SsiMachineProofs.WriteLockDiscipline | crates/vf-stateright/src/ssi.rs:323-424 | between writes to one key by different transactions the first writer commits or aborts |
| SsiMachineProofs.CommitOrderIsWriteOrder | crates/vf-stateright/src/ssi.rs:323-424 | committed writes to a key stand in the order of their transactions' commits |
| SsiMachineProofs.ReadYourWrites | crates/vf-stateright/src/ssi.rs:273-289 | a transaction that has written a key reads its own write of it |
| SsiMachineProofs.ReadsLastCommitted | crates/vf-stateright/src/ssi.rs:125-147 | any other read returns the last write at or before the snapshot by a transaction that has committed by the time of the read |
| SsiMachineProofs.FirstCommitterWinsExactly | crates/vf-stateright/src/ssi.rs:438-475 | the documented check holds of a reachable state exactly when every write of a transaction that has since committed was made without the key's lock already in hand and with no other committed write to the key since the snapshot |
| SsiHistory.LockAfter | crates/vf-stateright/src/ssi.rs:323-424 | a key gets its writer as holder, is freed by a commit and by an abort at will or for danger, of the whole transaction, and keeps its holder otherwise |
| SsiHistory.HeldExactly | crates/vf-stateright/src/ssi.rs:323-424 | in every run a transaction holds a key exactly when it has written it and is active, or has since aborted at a read or at a write of another key |
| SsiHistory.RunExact | crates/vf-stateright/src/ssi.rs:156-432 | in every run the remembered readers of a key are those that have read it and not aborted, and a flag is up exactly for a transaction that has not aborted and is at that end of a detected edge |
| SsiHistory.RefusedExactly | crates/vf-stateright/src/ssi.rs:260-432 | when an action is impossible, by the history: a second begin, a step of a transaction that is not active, or a write to a key that another one holds |
| SsiHistory.AnswersExactly | crates/vf-stateright/src/ssi.rs:260-432 | what each action records, by the history before it: which abort and when, which version is read, when a commit is refused |
| SsiSerializability.FreshSettles | crates/vf-stateright/src/ssi.rs:323-369 | in every run in which the writes of committed transactions are fresh, of two committed writes of a key by different transactions the earlier writer has committed before the later one's snapshot |
| SsiSerializability.ReadBeforeWrite | crates/vf-stateright/src/ssi.rs:156-403 | ranked by its snapshot if it has read behind somebody and otherwise by its commit, a committed reader is below every committed writer of the key whose commit its snapshot does not cover, because no pivot commits |
| SsiSerializability.SerializableIfClear | crates/vf-stateright/src/ssi.rs:486-491 | in every run, if each read and each write of a transaction that has committed passed a test on the state it found, one serial order of the committed transactions explains every read and the last writer of every key |
| SsiSerializability.ReadTestNeeded | crates/vf-stateright/src/ssi.rs:486-491 | a run that fails only the test at reads: the state passes `is_serializable` and no serial order explains it |
| SsiSerializability.WriteTestNeeded | crates/vf-stateright/src/ssi.rs:323-369 | the same for the test at writes |
| SsiSerializability.FirstCommitterWinsFails | crates/vf-stateright/src/ssi.rs:323-369 | a run in which the documented check does not hold |
| SsiSerializability.SerializabilityFails | crates/vf-stateright/src/ssi.rs:323-369 | a lost update: a run whose two committed transactions no serial order explains |
| SsiStore.Store.Begin | crates/vf-examples/src/ssi.rs:213-225 | a new active transaction whose snapshot is the present time |
| SsiStore.Store.ReadKey | crates/vf-examples/src/ssi.rs:227-264 | the value of the specification for that transaction, with its conflicts recorded |
| SsiStore.Store.WriteKey | crates/vf-examples/src/ssi.rs:266-328 | refused for a locked key, otherwise a pending version in front and conflicts recorded |
| SsiStore.Store.Commit | crates/vf-examples/src/ssi.rs:330-397 | pending versions become committed ones, or the transaction is discarded when it is a pivot |
| SsiStore.Store.Abort | crates/vf-examples/src/ssi.rs:399-431 | every pending version and lock of the transaction is gone |
| SsiStore.Store.GetCurrentValue | crates/vf-examples/src/ssi.rs:447-450 | the newest committed value |
| SnapshotRefinement.Refines | crates/vf-examples/src/ssi.rs:213-431 | every call keeps the version lists equal, key by key, to a model that copies the committed database at begin |
| SnapshotRefinement.ReadsSeeTheirSnapshot | crates/vf-examples/src/ssi.rs:127-137 | whatever commits, aborts and pending writes follow, a read returns what the committed database held at the transaction's begin |
| SnapshotRefinement.CurrentIsLastCommitted | crates/vf-examples/src/ssi.rs:447-450 | the current value is the one the last commit that wrote the key left |
| SnapshotRefinement.SortIsIdle | crates/vf-examples/src/ssi.rs:330-397 | the sort at commit never moves a version |
| SnapshotRefinement.CommittedFrozen | crates/vf-examples/src/ssi.rs:227-300 | no call changes a committed transaction but a read behind it, which raises its incoming flag |
| SnapshotRefinement.PivotsExactly | crates/vf-examples/src/ssi.rs:227-365 | in every run a committed transaction has both flags exactly when some call since its commit was a read behind it while its outgoing flag was set |
| SnapshotRefinement.CommittedPivot | crates/vf-examples/src/ssi.rs:227-264 | a run of eight calls in which a committed transaction ends with both flags |
| StoreLog.RunIndex | crates/vf-examples/src/ssi.rs:213-431 | in every run the store is an index of the calls and their replies: who is active, what was written and read, which versions are committed and when, and who has read behind whom |
| StoreLog.LockedExactly | crates/vf-examples/src/ssi.rs:266-431 | a key is locked by the live transaction with a successful write of it, and by nobody once that one has ended |
| StoreLog.WriteExactly | crates/vf-examples/src/ssi.rs:266-328 | a write succeeds exactly when its transaction is live and no other live one has written the key; its own earlier write does not matter |
| StoreLog.CommitExactly | crates/vf-examples/src/ssi.rs:330-397 | a commit succeeds exactly when its transaction is live and has not both read behind somebody and been read behind |
| StoreLog.ReadExactly | crates/vf-examples/src/ssi.rs:227-264 | a live transaction reads what the last one to commit a write of the key before its begin had last written to it; anybody else reads nothing |
| StoreLog.BeginExactly | crates/vf-examples/src/ssi.rs:213-225 | the begins are numbered from 1 on |
| StoreLog.CurrentExactly | crates/vf-examples/src/ssi.rs:447-450 | the current value, by the calls |
| StoreSerializability.WritersApart | crates/vf-examples/src/ssi.rs:266-328 | when every write is fresh, of two committed writers of a key the earlier one commits before the other begins |
| StoreSerializability.ReadBeforeWrite | crates/vf-examples/src/ssi.rs:227-365 | a committed reader ranks below every writer of the key that commits after the reader's begin, whichever of read and write came first |
| StoreSerializability.CurrentIsCommitted | crates/vf-examples/src/ssi.rs:330-397 | at every moment the current value of a key is the last one written by the last transaction to commit a write of it |
| StoreSerializability.SerializableIfFresh | crates/vf-examples/src/ssi.rs:213-431 | in every run, if each write of a transaction that has committed passed a test on the state it found, and each read another, one serial order of the committed transactions explains every value read and the contents at the end |
| StoreAnomalies.ReadTestNeeded | crates/vf-examples/src/ssi.rs:227-264 | a run of eleven calls that fails only the test at reads and that no serial order explains |
| StoreAnomalies.WriteTestNeeded | crates/vf-examples/src/ssi.rs:266-328 | a run of seven calls, a lost update, that fails only the test at writes and that no serial order explains |
| TreiberStack.Contents | crates/vf-stateright/src/treiber_stack.rs:85-103 | the walk from the head terminates and returns the values of the one chain there is |
| TreiberStack.KeepsInv | crates/vf-stateright/src/treiber_stack.rs:213-313 | every action keeps the chain acyclic, private nodes private and the elements accounted for |
| TreiberStack.StepRefines | crates/vf-stateright/src/treiber_stack.rs:213-313 | every step is exactly one abstract push, one abstract pop, or none |
| TreiberStack.RunRefines | crates/vf-stateright/src/treiber_stack.rs:213-313 | every run is a run of a sequential stack with the list's contents |
| TreiberStack.ReachableStates | crates/vf-stateright/src/treiber_stack.rs:106-124 | pushed is the disjoint union of contents and popped, nothing is there twice, and both of the source's checks hold |
| TreiberStack.HistoryPassesLifo | crates/vf-core/src/invariants/stack.rs:204-272 | the history of successful compare-and-swaps always replays, to the contents |
| TreiberStack.StaleStep | crates/vf-stateright/src/treiber_stack.rs:235-309 | a failure uses up a thread whose view of the head is stale, and only a success makes any |
| TreiberStack.FailuresBounded | crates/vf-stateright/src/treiber_stack.rs:235-309 | with n threads, failures never exceed n - 1 per success |
| TreiberThreads.FailureChanges | crates/vf-stateright/src/treiber_stack.rs:255-309 | a failed compare-and-swap changes its thread only: a push is to be tried again with its node and value, a pop is over |
| TreiberThreads.PushPending | crates/vf-stateright/src/treiber_stack.rs:213-273 | from the allocation on a thread keeps its node and value until its own compare-and-swap succeeds, whatever the others do |
| TreiberThreads.PushLands | crates/vf-stateright/src/treiber_stack.rs:255-266 | that success puts the value that was allocated on top |
| TreiberThreads.PushAccounted | crates/vf-stateright/src/treiber_stack.rs:213-273 | no push is forgotten: at every later moment an allocated value is among the pushed ones or with exactly one thread, the one that allocated it, and which of the two is decided by whether its compare-and-swap has succeeded |
| TreiberThreads.SetsAreHistory | crates/vf-stateright/src/treiber_stack.rs:262-303 | pushed and popped are the values of the successful compare-and-swaps and no others |
| TreiberThreads.FailureHasCause | crates/vf-stateright/src/treiber_stack.rs:255-309 | a compare-and-swap fails only if another thread's has succeeded since the thread looked at the head |
| TreiberThreads.UndisturbedSucceeds | crates/vf-stateright/src/treiber_stack.rs:255-309 | a thread that nobody gets ahead of succeeds |
| TreiberThreads.SoloPush | crates/vf-stateright/src/treiber_stack.rs:213-273 | a push left alone takes three steps and puts its value on top |
| TreiberThreads.SoloPop | crates/vf-stateright/src/treiber_stack.rs:278-309 | a pop left alone takes two and returns what was on top |
| TreiberThreads.OfferedExactly | crates/vf-stateright/src/treiber_stack.rs:176-210 | in every run an idle thread may push any unused value and pop unless the stack is empty; any other has exactly one action |
| StackHistory.Recorder.RecordPush | crates/vf-core/src/invariants/stack.rs:79-87 | one push is appended |
| StackHistory.Recorder.RecordPop | crates/vf-core/src/invariants/stack.rs:90-102 | one pop, or one empty pop, is appended |
| StackHistory.Recorder.CheckLifoOrder | crates/vf-core/src/invariants/stack.rs:204-272 | the check passes exactly when the history replays on a sequential stack |
| StackHistory.LifoExactly | crates/vf-core/src/invariants/stack.rs:204-272 | a history replays exactly when there are stacks that its operations lead through one by one |
| PackedWord.PackUnpack | results/v2/raft_election_best.rs:75-100 | for terms below 2^40 and ids below 2^22 - 1 the three unpack functions recover what was packed |
| PackedWord.UnpackFits | results/v2/raft_election_best.rs:85-100 | what any word unpacks to fits the layout again |
| PackedWord.SameWordSameState | results/v2/raft_election_best.rs:248-257 | equal words are equal logical states, so the shortcut for an unchanged word loses nothing |
| PackedWord.UnpackPack | results/v2/raft_election_best.rs:75-100 | re-packing gives back a word exactly when its state bits are not 3 |
| PackedWord.SetBit | results/v2/raft_election_best.rs:315-319 | recording a vote sets the voter's bit and no other |
| PackedWord.CountIsCardinality | results/v2/raft_election_best.rs:319 | the population count is the number of set bits |
| PackedElection.CountIsVoters | results/v2/raft_election_best.rs:315-321 | the population count of a vote mask is the number of servers that voted |
| PackedElection.QuorumsShareABit | results/v2/raft_election_best.rs:148-150 | two masks with a quorum of bits each share the bit of some server |
| PackedElection.VoteResponseRefines | results/v2/raft_election_best.rs:279-347 | on words and masks a vote response does what it does on terms and voter sets |
| PackedElection.NextRefines | results/v2/raft_election_best.rs:174-389 | every operation on words is the logical operation on what they stand for, and keeps the masks free of stray bits |
| PackedElection.ReportIsTrue | results/v2/raft_election_best.rs:302-343 | the candidate is reported to have won exactly when it leads the response's term afterwards |
| PackedElection.RunRefines | results/v2/raft_election_best.rs:174-389 | a run on words is a run of the logical election |
| PackedElection.PackedElectionSafety | results/v2/raft_election_best.rs:174-347 | over a whole run at most one word ever says leader for a term |
| PackedElection.ElectionRefines | results/v2/raft_election_best.rs:409-432 | an election run on words is the logical election |
| PackedElection.ElectionElects | results/v2/raft_election_best.rs:409-432 | a server that no other is ahead of leads the next term after running an election |
| LogicalElection.VotesStand | results/v2/raft_election_best.rs:217-277 | terms never go back and a vote is never changed within a term |
| LogicalElection.KeepsInv | results/v2/raft_election_best.rs:174-389 | every operation keeps votes on record, backed candidates and true responses |
| LogicalElection.OneWinner | results/v2/raft_election_best.rs:321-343 | two leaders of one term are the same server |
| LogicalElection.ElectionSafety | results/v2/raft_election_best.rs:174-389 | at whatever two moments, at most one leader per term |
| LogicalElection.CampaignKeepsInv | results/v2/raft_election_best.rs:409-432 | an election in any order of asking is made of safe steps |
| LogicalElection.CampaignWins | results/v2/raft_election_best.rs:424-430 | a candidate whose remaining voters are all behind its term wins |
| LogicalElection.ElectionWins | results/v2/raft_election_best.rs:409-432 | an election that starts level with or ahead of every other server elects the candidate, whatever the order of asking |
| ElectionAnswers.StepIs | results/v2/raft_election_best.rs:174-389 | each operation changes its own server's term, vote, role and voters as the election rules say, and sends the answer it must |
| ElectionAnswers.GrantedExactly | results/v2/raft_election_best.rs:217-277 | in every run a vote is granted exactly when the request's term is not older and the server has never voted for another candidate in it |
| ElectionAnswers.MajorityLeads | results/v2/raft_election_best.rs:279-347 | in every run a server that stands for election leads exactly when it counts more than half of the servers |
| ElectionOperations.ServerAtomic.HandleVoteRequest | results/v2/raft_election_best.rs:217-277 | the word and mask of the specification, and its reply |
| ElectionOperations.ServerAtomic.HandleVoteResponse | results/v2/raft_election_best.rs:279-347 | the word and mask of the specification, and its report |
| ElectionOperations.RaftElection.constructor | results/v2/raft_election_best.rs:118-142 | distinct bits for distinct ids, also when an id is listed twice |
| ElectionOperations.RaftElection.Timeout | results/v2/raft_election_best.rs:174-215 | only the named server changes, to a candidate of the next term |
| ElectionOperations.RaftElection.HandleHeartbeat | results/v2/raft_election_best.rs:349-389 | only the named server changes, and only for a term that is not stale |
| ElectionOperations.RaftElection.CreateHeartbeat | results/v2/raft_election_best.rs:391-407 | a heartbeat exactly for leaders, with their own term |
| ElectionOperations.RaftElection.RunElection | results/v2/raft_election_best.rs:409-432 | the specified election over the others in some order, and a true report of who leads |
| TwoPhaseCommit.FullCount | results/v1/two_phase_commit_best.rs:238-242 | a full counter means that every resource manager has prepared and no thread is on its way to the counter |
| TwoPhaseCommit.KeepsInv | results/v1/two_phase_commit_best.rs:187-319 | every atomic operation of every thread keeps the invariant |
| TwoPhaseCommit.PreparedCountExact | results/v1/two_phase_commit_best.rs:198-213 | prepared_count is the number of prepares less the threads between the swap and fetch_add |
| TwoPhaseCommit.DecisionsLast | results/v1/two_phase_commit_best.rs:231-278 | decisions of the coordinator and of resource managers are final |
| TwoPhaseCommit.CommitMeansPrepared | results/v1/two_phase_commit_best.rs:231-249 | under a committed coordinator every resource manager is prepared or committed |
| TwoPhaseCommit.RmFollowsTm | results/v1/two_phase_commit_best.rs:280-319 | a resource manager commits, or aborts after preparing, only as the coordinator decided |
| TwoPhaseCommit.Agreement | results/v1/two_phase_commit_best.rs:187-319 | no resource manager commits at any time in a run in which one aborts at any time |
| TwoPhaseCommit.RepeatedIdNeverCommits | results/v1/two_phase_commit_best.rs:48-58 | a transaction over a list with a repeated id never commits |
| TwoPhaseAnswers.CoordinatorMoves | results/v1/two_phase_commit_best.rs:187-278 | which operation moves the coordinator's cell, from where to where |
| TwoPhaseAnswers.ManagerMoves | results/v1/two_phase_commit_best.rs:198-319 | a resource manager's cell moves by its own vote or after the coordinator's decision and by nothing else |
| TwoPhaseAnswers.AnswersTrue | results/v1/two_phase_commit_best.rs:187-319 | in every run a caller is told that its operation is done exactly when its own step has changed the cell it is about (a delivered abort apart), and a refusal names what the caller had found |
| TransactionCells.TxnInner.TmCommit | results/v1/two_phase_commit_best.rs:231-249 | success only from preparing with a full counter; each refusal has its own error |
| TransactionCells.TxnInner.TmAbort | results/v1/two_phase_commit_best.rs:251-278 | an undecided coordinator aborts, a decided one refuses |
| TransactionCells.TxnInner.RmPrepare | results/v1/two_phase_commit_best.rs:198-213 | a working resource manager prepares and is counted; every failure leaves all as it was |
| TransactionCells.TxnInner.RmChooseToAbort | results/v1/two_phase_commit_best.rs:215-229 | only a working resource manager aborts by itself |
| TransactionCells.TxnInner.RmRcvCommit | results/v1/two_phase_commit_best.rs:280-293 | only a prepared resource manager of a committed transaction commits |
| TransactionCells.TxnInner.RmRcvAbort | results/v1/two_phase_commit_best.rs:295-319 | reported done also when a spurious failure left the resource manager as it was |
| TransactionCells.TxnInner.RunCommit | results/v1/two_phase_commit_best.rs:321-340 | success means committed everywhere; short of a spurious failure a new transaction succeeds exactly when no id is repeated |
| TransactionCells.TxnInner.RunAbort | results/v1/two_phase_commit_best.rs:342-367 | success means a decision to abort, and short of a spurious failure aborted everywhere; it comes exactly when no id is repeated |
| StableSort.Sort | results/v1/txn_scheduling_best.rs:99-106 | a permutation in order in which equals keep their places |
| StableSort.OneStableOrder | results/v1/txn_scheduling_best.rs:99-106 | there is only one such permutation |
| ListScheduling.TryReserve | results/v1/txn_scheduling_best.rs:59-77 | a reservation starts when the resource is free and the transaction has arrived, and moves only that resource |
| ListScheduling.Schedule | results/v1/txn_scheduling_best.rs:84-164 | the greedy plan over the stable order, its makespan, the exact number of late transactions and the share of capacity used |
| ListSchedulingBounds.PlanFeasible | results/v1/txn_scheduling_best.rs:108-137 | nothing starts before its arrival or overlaps on a resource, and all is over at the makespan |
| ListSchedulingBounds.WorkFits | results/v1/txn_scheduling_best.rs:142-150 | no schedule does more than m times its length of work on m resources |
| ListSchedulingBounds.MakespanBound | results/v1/txn_scheduling_best.rs:108-150 | m times the makespan is at most m times the latest arrival, plus the work, plus m - 1 times the longest duration |
| ListSchedulingBounds.WithinTwiceOptimal | results/v1/txn_scheduling_best.rs:108-150 | with all arrivals 0 the makespan is within 2 - 1/m of any feasible schedule of the same transactions |
| ListSchedulingBounds.UtilizationNeedsNoCap | results/v1/txn_scheduling_best.rs:152-157 | utilization is between 0 and 1 without the cap |
| ListSchedulingBounds.TotalOfSorted | results/v1/txn_scheduling_best.rs:99-106 | sorting does not change the total work |
| ListSchedulingBounds.ScheduleBound | results/v1/txn_scheduling_best.rs:84-164 | the makespan bound for whatever `schedule` returns, in terms of the transactions as given |
| ListSchedulingBounds.ScheduleWithinTwice | results/v1/txn_scheduling_best.rs:84-164 | with all arrivals 0, whatever `schedule` returns is within 2 - 1/m of any feasible schedule of the transactions as given |
| ListSchedulingReport.OrderIs | results/v1/txn_scheduling_best.rs:99-106 | higher priority first, then earlier arrival, then the place in the input |
| ListSchedulingReport.ReportExactly | results/v1/txn_scheduling_best.rs:84-164 | each transaction gets the first of the resources that are free earliest, as the earlier entries show; the makespan is the end of the last; the missed deadlines are the number of late transactions |
| ListSchedulingReport.UtilizationExactly | results/v1/txn_scheduling_best.rs:152-157 | the utilization is the share of the resources' time up to the makespan that the given work takes |
| CloudScheduling.FindOption | tools/vf-evolve/tasks/cloud_scheduling/initial.rs:72-93 | the cheapest-first choice and the earliest copy of it, or none |
| CloudScheduling.ScheduleJobs | tools/vf-evolve/tasks/cloud_scheduling/initial.rs:48-134 | the plan over jobs in order of arrival with its exact cost, missed deadlines and average wait |
| CloudSchedulingProofs.PlanSettled | tools/vf-evolve/tasks/cloud_scheduling/initial.rs:72-120 | every entry is a job on a real copy after its arrival, and jobs on one copy follow one another |
| CloudSchedulingProofs.Capacity | tools/vf-evolve/tasks/cloud_scheduling/initial.rs:84-98 | at every instant at most available_count scheduled jobs of a type are running |
| CloudSchedulingProofs.ScheduledExactly | tools/vf-evolve/tasks/cloud_scheduling/initial.rs:72-120 | the scheduled jobs are exactly those that fit some type with a copy |
| CloudSchedulingProofs.ChosenCheapest | tools/vf-evolve/tasks/cloud_scheduling/initial.rs:52-93 | the type a job gets fits it and is the cheapest with a copy that does |
| CloudSchedulingProofs.NoCheaperAssignment | tools/vf-evolve/tasks/cloud_scheduling/initial.rs:95-113 | no assignment of the scheduled jobs to types with copies that fit them costs less |
| CloudSchedulingProofs.ScheduleGuarantees | tools/vf-evolve/tasks/cloud_scheduling/initial.rs:48-134 | whatever `schedule_jobs` returns keeps the capacity of every type, has one entry for exactly the jobs as given that fit some type with a copy, and costs no more than any other assignment of them |
| CloudSchedulingProofs.AdequateExactly | tools/vf-evolve/tasks/cloud_scheduling/initial.rs:76-83 | every job runs on a type that fits it exactly when the first type with an id is as large as every type of that id that can be chosen |
| CloudSchedulingProofs.DistinctIdsAdequate | tools/vf-evolve/tasks/cloud_scheduling/initial.rs:72-93 | with distinct ids every job runs on a type that fits it |
| CloudSchedulingProofs.RepeatedIdFails | tools/vf-evolve/tasks/cloud_scheduling/initial.rs:76-83 | with a repeated id a job runs on a type too small for it |
| CloudSchedulingReport.ReportExactly | tools/vf-evolve/tasks/cloud_scheduling/initial.rs:48-134 | each job in order of arrival runs on the first suitable type by cost, on the copy that is free earliest; the cost is the sum over the entries, the missed deadlines are the jobs without an entry and those that end late, and the wait is averaged over all jobs |

## Left out

- RaftCommitSafety.LeaderCompleteness: for runs in which every admitted AppendEntries is vouched for; it fails of others, and that a run with an unvouched step can still be safe is not stated.
- RaftCommitSafety.StateMachineSafety: for the same runs, as LeaderCompleteness.
- Raft liveness (Eventual Leader, Eventual Commit): needs fairness of the network and of the clocks.
- `RaftNode`'s pointer swap, reclamation and cached reader fields, and `u64` overflow of terms and indices.
- Cross-shard starvation freedom, and two clients working on one transaction at the same time.
- SsiSerializability.SerializableIfClear: one direction; a run that fails a test can be serializable all the same.
- StoreSerializability.SerializableIfFresh: one direction, as SerializableIfClear.
- `possible_actions`, the oracle extraction and the test model checkers of the SSI state machine: enumeration over fixed small sets.
- The stack model has no pop on an empty stack as a step, because the source's model does not offer it; the history checker has it.
- `check_linearizability` and `check_aba_safety` of the stack checker, which delegate or return fixed results.
- Thread races on one server in the packed election: the load of the word and the vote `fetch_or` are separate there, and operations on one server are atomic here.
- Terms of 2^40 and more and ids of 2^22 - 1 and more in the packed election: the masks drop their high bits, as `Pack` does, and the theorems do not speak of them.
- ElectionOperations.RaftElection.RunElection: requires ids and terms that the packed layout can hold, because the source checks neither.
- ElectionOperations.ServerAtomic.HandleVoteResponse: says nothing about its report for an id that the packed layout cannot hold.
- The two-phase-commit list of transactions (`begin`, `find_txn`), its reclamation and its memory orderings: one transaction's cells are modelled, sequentially consistent.
- TransactionCells.TxnInner.RunCommit: run without other threads; what any interleaving keeps is proved in `TwoPhaseCommit`.
- TransactionCells.TxnInner.RunAbort: run without other threads, as `RunCommit`.
- Deadlines in the schedulers are counted, not met: neither scheduler tries to, and dependencies, preemption and spot prices do not occur in the code.
- Floating-point rounding and NaN in the schedulers.
