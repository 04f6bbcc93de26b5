# Proofs for the distributed and concurrent core

This Dafny project models the parts of the repository that make promises about
every run, every schedule or every input, and proves those promises. One module
stands for one source file (the key-value store takes three):

- `Raft`: elections, client requests, crashes and revivals over the in-memory
  cluster. Election safety holds in every run, and progress from every state. Logs
  agree throughout exactly the runs whose revivals meet a condition on the nodes.
- `RingBuffer`: the blocking queue, thread by thread, with wait sets, notifications
  sent after the unlock, overtaking threads and spurious wakeups. No wakeup is lost,
  values come out in order, and `close` seals the queue.
- `ConsistentHash`, `Storage`, `Replication`: the decision core of the key-value
  store. Replica lists and their minimal disruption for any hash function, last
  writer wins with the shared version counter, and the write quorum, which
  crosses all three together with the forwarding path.
- `Crdt`: the counters and the observed-remove set under stale, duplicated and
  reordered state exchange.
- `Percentiles`: three strategies against one reference, order statistics by counting.
- `Protobuf`: the encoder, and a decoder written from the Protocol Buffers Encoding
  specification ("Base 128 Varints", "Message Structure", "Length-Delimited
  Records") that gets every report back.
- `CircuitBreaker`, `WorkStealing`, `ServiceStats`, `Pipeline`: exactly when the
  breaker opens and closes, each task done once, atomics against their mutex twin,
  parallel reductions against the sequential pipeline.

`Base.dfy` holds options, cardinalities, sums, machine words and decimal notation.

Code that updates fields or buffers in place is a class or an array method here,
proved equal to a specification function; the theorems are about runs of those
functions. Threads are state machines over their atomic steps, because the
properties are about their interleavings. Hash functions, clocks, network outcomes
and thread schedules are parameters, so a theorem holds for all of them.
A promise that fails on some input comes with that input and with the condition under
which the code keeps it. Automatic induction is off in every lemma: each proof shows its own.

Where the code and its documentation disagree, the model follows the code:

- `demos/src/bin/demo_3_3c_raft.rs:278-279` says that an old leader is demoted when
  it comes back. It is not: `Raft.StaleRevivalBreaksAgreement` gives the run.
- `demos/src/bin/demo_3_3c_raft.rs:176-178` says that an entry is committed once a
  majority has it. If one more request followed the election of line 275, its commit
  would be reported with one node of three holding the entry
  (`Raft.StaleLogBreaksQuorum`). `Raft.CommitIsOnMajorityIff` says exactly when the
  report is right, `Raft.CommittedEntriesSurvive` exactly which runs keep committed
  entries, and `Raft.LogAgreement` exactly which keep the logs in agreement.
- `demos/src/bin/exo05_ringbuffer.rs:66-78`: `try_push` reports a buffer that is
  merely full as closed (`RingBuffer.ClosedReports`).
- `demos/src/bin/exo01_percentiles.rs:24-54`: the selection strategy panics on one
  or two values (`Percentiles.StatsBySelect`); the other two do not.
- `tp-kv-distributed/src/storage.rs:156` returns one more than the counter held, which
  at 2^64 - 1 wraps to 0 in a release build and panics in a checked one; `Storage`
  models the release build.
- `tp-kv-distributed/src/storage.rs:180-181` wants every local write above all
  versions seen. It is exactly when all of them are below 2^64 - 1
  (`Storage.LocalWriteDominates`, `Storage.WrappedCounterDoesNotDominate`).
- `demos/src/bin/exo01_percentiles.rs:59` counts in 32 bits, so a release build may
  return wrong percentiles for 2^32 equal values (`Percentiles.OverfullBucketsMislead`).

## Model

| member | source | states |
|---|---|---|
| Raft.Cluster.constructor | demos/src/bin/demo_3_3c_raft.rs:79-83 | A new cluster is the initial state of every run: live followers at term 0 with empty logs. |
| Raft.QuorumIsStrictMajority | demos/src/bin/demo_3_3c_raft.rs:85-88 | A number of nodes reaches the quorum exactly when twice that number exceeds all of them. |
| Raft.Cluster.RunElection | demos/src/bin/demo_3_3c_raft.rs:100-164 | The loops leave every node as the election step of the runs says, and return whether the candidate won a majority. |
| Raft.Cluster.RequestVotes | demos/src/bin/demo_3_3c_raft.rs:106-145 | The votes counted are the number of distinct nodes that granted one, and each voter moved to the new term. |
| Raft.LogOkExactly | demos/src/bin/demo_3_3c_raft.rs:118-134 | A log is recent enough for a voter exactly when its last entry has a later term, or the same and no smaller length; an empty log only for an empty one. |
| Raft.VotersExactly | demos/src/bin/demo_3_3c_raft.rs:124-145 | Another node votes for the candidate if and only if it is live, has not passed its term, and its own last entry has an earlier term, or the same with no greater length. |
| Raft.StaleCandidateLoses | demos/src/bin/demo_3_3c_raft.rs:132-149 | A candidate whose log is a proper prefix of logs with sorted terms on all but less than a quorum of the nodes loses. |
| Raft.StaleCandidateNeverWins | demos/src/bin/demo_3_3c_raft.rs:132-163 | Nor does it win however often it stands. |
| Raft.LaggardLoses | demos/src/bin/demo_3_3c_raft.rs:263-275 | In the program's own scenario the node that came back with a stale log loses an election that the other live node wins. |
| Raft.ElectionRecordsVotes | demos/src/bin/demo_3_3c_raft.rs:106-163 | An election moves term and vote of exactly those who vote, leaves logs and commits alone, and says exactly who is leader after it. |
| Raft.Cluster.StepDown | demos/src/bin/demo_3_3c_raft.rs:151-156 | Every live node but the winner is a follower; dead nodes keep their role. |
| Raft.LeaderFrom | demos/src/bin/demo_3_3c_raft.rs:166-171 | The result is the first live leader; none means that there is no live leader. |
| Raft.Cluster.FindLeader | demos/src/bin/demo_3_3c_raft.rs:166-171 | The search finds the first live leader. |
| Raft.Cluster.ClientRequest | demos/src/bin/demo_3_3c_raft.rs:179-221 | Without a live leader nothing changes; else every live node gets the entry, and it is committed exactly when the live nodes are a quorum. |
| Raft.Cluster.AppendEntries | demos/src/bin/demo_3_3c_raft.rs:189-205 | Exactly the live nodes get the entry, and the count is how many they are. |
| Raft.Cluster.AdvanceCommit | demos/src/bin/demo_3_3c_raft.rs:208-214 | Live nodes that hold the entry commit it; no commit index goes back. |
| Raft.TermsNeverDecrease | demos/src/bin/demo_3_3c_raft.rs:106-145 | No event of a run lowers any node's term. |
| Raft.QuorumStaysBehind | demos/src/bin/demo_3_3c_raft.rs:86-88 | A quorum that has reached a term keeps standing behind it, revivals included. |
| Raft.WonTermIsNew | demos/src/bin/demo_3_3c_raft.rs:129-149 | Majorities intersect, so a won term exceeds every term that a quorum had reached. |
| Raft.WinnerHasQuorumBehind | demos/src/bin/demo_3_3c_raft.rs:136-149 | A quorum stands at or above the term just won. |
| Raft.StepKeepsSafe | demos/src/bin/demo_3_3c_raft.rs:100-221 | Every event keeps the safety invariant: won terms increase, each has a quorum behind it, leaders are recorded winners. |
| Raft.RunKeepsSafe | demos/src/bin/demo_3_3c_raft.rs:100-221 | Every run keeps the safety invariant. |
| Raft.OneLeaderPerTerm | demos/src/bin/demo_3_3c_raft.rs:11-14 | Two nodes in role leader never share a term. |
| Raft.ElectionSafety | demos/src/bin/demo_3_3c_raft.rs:11-14 | In every run of elections, requests, crashes and revivals the won terms strictly increase and there is at most one leader a term. |
| Raft.OneVotePerTerm | demos/src/bin/demo_3_3c_raft.rs:129-139 | In every run a node's vote stands until its term moves on, and nobody is a candidate between elections. |
| Raft.StepKeepsCommits | demos/src/bin/demo_3_3c_raft.rs:207-214 | Every event keeps each committed index held by a quorum. |
| Raft.StepKeepsLogs | demos/src/bin/demo_3_3c_raft.rs:184-205 | Every clean event keeps one log on all live nodes, prefixes of it elsewhere, and its terms sorted. |
| Raft.StepKeepsOneLeader | demos/src/bin/demo_3_3c_raft.rs:149-163 | Every clean event keeps at most one live leader. |
| Raft.StepKeepsAgreement | demos/src/bin/demo_3_3c_raft.rs:100-221 | Every clean event keeps the whole agreement invariant. |
| Raft.RevivalIsSafeIff | demos/src/bin/demo_3_3c_raft.rs:272-279 | In every state in which the nodes agree, they agree after a revival if and only if no log is longer than the returning one and a returning node in role leader finds no live leader. |
| Raft.RunKeepsAgreement | demos/src/bin/demo_3_3c_raft.rs:100-221 | A run whose revivals meet the condition ends in agreement on the old log followed by the entries of the requests that found a leader. |
| Raft.LogIsAccepted | demos/src/bin/demo_3_3c_raft.rs:179-205 | In such a run live nodes hold exactly the requests that found a leader, in order and with its term, committed or not, and the others a prefix of them. |
| Raft.CommitReachesAll | demos/src/bin/demo_3_3c_raft.rs:207-214 | Where logs agree, a request that commits leaves every live node with its whole log committed. |
| Raft.LogAgreement | demos/src/bin/demo_3_3c_raft.rs:7-19 | In every state of a run live nodes have identical logs, others prefixes of it, terms never decrease, one leader at most is live, commits are held by quorums and committed prefixes agree, if and only if each node that revives in the run meets that condition. |
| Raft.FailStopIsClean | demos/src/bin/demo_3_3c_raft.rs:263-265 | A run with crashes and no revival meets the condition, so the nodes agree throughout. |
| Raft.StepDurableIff | demos/src/bin/demo_3_3c_raft.rs:100-221 | Each event keeps committed entries on all live nodes if and only if it meets that guard, from any state in which they are there. |
| Raft.CommittedEntriesSurvive | demos/src/bin/demo_3_3c_raft.rs:176-178 | In every state of a run what any node has committed is a prefix of every live log, if and only if each revival brings a log that extends all committed ones and each committing request finds every live node ready to take the entry where the leader does. |
| Raft.CommittedEntriesStay | demos/src/bin/demo_3_3c_raft.rs:176-178 | In such a run what a node had committed at any moment is in the log of every node that is live at any later one. |
| Raft.CleanRunsKeepCommits | demos/src/bin/demo_3_3c_raft.rs:7-19 | Runs in which the logs agree throughout are such runs. |
| Raft.HighestTermWins | demos/src/bin/demo_3_3c_raft.rs:129-149 | A live candidate wins when a quorum of live nodes have logs no newer than its own and terms no higher. |
| Raft.WinnerCommits | demos/src/bin/demo_3_3c_raft.rs:166-221 | A winner is the only live leader, and its next request commits. |
| Raft.CandidateWinsIff | demos/src/bin/demo_3_3c_raft.rs:106-163 | From any state, stale revivals included, a candidate that keeps standing wins if and only if it is live and a quorum of live nodes have logs no newer than its own. |
| Raft.WinnerLeads | demos/src/bin/demo_3_3c_raft.rs:149-221 | Once it wins, requests go to it and commit. |
| Raft.MajorityMakesProgress | demos/src/bin/demo_3_3c_raft.rs:18-19 | In every state with a majority alive, each live node with the newest log ends up leading once it keeps standing, and its requests commit. |
| Raft.ProgressIffMajority | demos/src/bin/demo_3_3c_raft.rs:18-19 | In every state somebody can get elected if and only if a majority is alive. |
| Raft.CommitIsOnMajorityIff | demos/src/bin/demo_3_3c_raft.rs:176-220 | A request that reports a commit has its entry in place on a majority if and only if the live nodes with logs as long as the leader's, and those that had that entry there, are one; where logs agree they always are. |
| Raft.StaleRevivalBreaksAgreement | demos/src/bin/demo_3_3c_raft.rs:278-279 | A run in which a deposed leader revives has two live leaders and a term 1 entry after a term 2 entry. |
| Raft.StaleLogBreaksQuorum | demos/src/bin/demo_3_3c_raft.rs:247-275 | After the program's own scenario, in which a node revives with a stale log, a request reports a commit at an index that one node of three holds, and the follower holds another entry at a committed index. |
| RingBuffer.Guarded.constructor | demos/src/bin/exo05_ringbuffer.rs:26-37 | A new buffer is empty and open. |
| RingBuffer.Guarded.Push | demos/src/bin/exo05_ringbuffer.rs:40-48 | The critical section of `push` does what the step machine's section does: wait, refuse or append. |
| RingBuffer.Guarded.Pop | demos/src/bin/exo05_ringbuffer.rs:54-63 | The critical section of `pop` does what the step machine's section does: wait, take the oldest, or report the end. |
| RingBuffer.Guarded.TryPush | demos/src/bin/exo05_ringbuffer.rs:66-78 | The same for `try_push`, which never waits. |
| RingBuffer.Guarded.TryPop | demos/src/bin/exo05_ringbuffer.rs:80-92 | The same for `try_pop`, which tells empty from closed. |
| RingBuffer.Guarded.Close | demos/src/bin/exo05_ringbuffer.rs:94-97 | Closing changes the flag and keeps the queue. |
| RingBuffer.StepKeepsFifo | demos/src/bin/exo05_ringbuffer.rs:39-101 | Every step keeps: pushed values are the popped ones followed by the queue, within capacity; and nothing is pushed once closed. |
| RingBuffer.RunKeepsFifo | demos/src/bin/exo05_ringbuffer.rs:39-101 | The same over whole runs, with histories that only grow. |
| RingBuffer.Fifo | demos/src/bin/exo05_ringbuffer.rs:39-101 | In every interleaving popped values are a prefix of pushed values, at most the capacity apart, and after any Closed told to a consumer everything pushed has been popped exactly once. |
| RingBuffer.CloseSeals | demos/src/bin/exo05_ringbuffer.rs:94-101 | However the run goes on after `close`, no push succeeds, and after the first Closed told to a consumer nothing is popped. |
| RingBuffer.CloseCloses | demos/src/bin/exo05_ringbuffer.rs:94-97 | In every run a thread that called `close` has closed the buffer by the time it moves on, and the buffer stays closed. |
| RingBuffer.ClosedReports | demos/src/bin/exo05_ringbuffer.rs:39-92 | Exactly when each operation reports Closed or Empty or waits; `try_push` reports Closed on a full open buffer, and neither `try_push` nor `try_pop` ever waits. |
| RingBuffer.ClosedIsRecorded | demos/src/bin/exo05_ringbuffer.rs:53-64 | A consumer is told Closed exactly on a closed and drained buffer. |
| RingBuffer.SectionKeepsWakeups | demos/src/bin/exo05_ringbuffer.rs:39-92 | A critical section keeps queued values covered by notifications due and consumers woken, and free slots likewise. |
| RingBuffer.NotifyKeepsTally | demos/src/bin/exo05_ringbuffer.rs:48-60 | `notify_one` after the unlock keeps that cover, whichever waiter it picks. |
| RingBuffer.NotifyAllKeepsTally | demos/src/bin/exo05_ringbuffer.rs:97-100 | The two `notify_all` of `close` leave nobody waiting without one still to come. |
| RingBuffer.StepKeepsWakeups | demos/src/bin/exo05_ringbuffer.rs:39-101 | Every step, spurious wakeups and overtaking included, keeps the no-lost-wakeup invariant. |
| RingBuffer.RunKeepsWakeups | demos/src/bin/exo05_ringbuffer.rs:39-101 | Every run keeps it. |
| RingBuffer.NoLostWakeup | demos/src/bin/exo05_ringbuffer.rs:39-101 | When nothing is left to run, consumers wait only on an empty open buffer, producers only on a full open one, never both, and nobody after `close`. |
| RingBuffer.CloseReleasesEverybody | demos/src/bin/exo05_ringbuffer.rs:94-101 | A run in which `close` was called ends, once nothing is left to run, with a closed buffer and nobody waiting. |
| RingBuffer.TryNeverWaits | demos/src/bin/exo05_ringbuffer.rs:66-92 | In every run a thread that called `try_push` or `try_pop` is in no wait set before its next call. |
| RingBuffer.AdvanceUsesWork | demos/src/bin/exo05_ringbuffer.rs:39-101 | Every step of a running thread uses up remaining work, wakeups it causes included. |
| RingBuffer.SchedulesAreBounded | demos/src/bin/exo05_ringbuffer.rs:39-101 | Every schedule is at most as long as the work at its start, plus two steps a spurious wakeup and 2n + 4 steps a new call among n threads. |
| RingBuffer.RunningThreadsCanStep | demos/src/bin/exo05_ringbuffer.rs:39-101 | Short of quiescence some thread can always take a step. |
| ConsistentHash.InsertIsUpdate | tp-kv-distributed/src/consistent_hash.rs:51 | Insertion is a map update: sorted, the hash gets the new owner, other hashes keep theirs. |
| ConsistentHash.WithoutMembers | tp-kv-distributed/src/consistent_hash.rs:58 | Exactly the entries of other owners stay, in order. |
| ConsistentHash.FromMembers | tp-kv-distributed/src/consistent_hash.rs:68-69 | The range holds exactly the entries at or after the hash. |
| ConsistentHash.ConsistentHashRing.constructor | tp-kv-distributed/src/consistent_hash.rs:34-40 | A new ring is empty and valid. |
| ConsistentHash.ConsistentHashRing.AddNode | tp-kv-distributed/src/consistent_hash.rs:43-53 | The loop places all virtual nodes of a node that is not yet there, and keeps the ring valid. |
| ConsistentHash.VnodeKeyInjective | tp-kv-distributed/src/consistent_hash.rs:49 | Different virtual nodes have different keys, whatever the node names contain. |
| ConsistentHash.BuiltHoldsAll | tp-kv-distributed/src/consistent_hash.rs:9-11 | With a hash that separates their keys, a ring built by adding distinct nodes holds exactly the virtual nodes of all of them, the full number each. |
| ConsistentHash.AdditionDisplacesNobody | tp-kv-distributed/src/consistent_hash.rs:43-53 | With such a hash a further node displaces nobody and adds exactly its own number of entries. |
| ConsistentHash.ConsistentHashRing.RemoveNode | tp-kv-distributed/src/consistent_hash.rs:56-59 | The node and all its virtual nodes go, and the ring stays valid. |
| ConsistentHash.ConsistentHashRing.GetNode | tp-kv-distributed/src/consistent_hash.rs:62-73 | The owner of the first virtual node at or after the key's hash, with wrap-around. |
| ConsistentHash.ConsistentHashRing.GetNodes | tp-kv-distributed/src/consistent_hash.rs:77-101 | The first `count` members of the key's full clockwise preference list. |
| ConsistentHash.WalkClockwise | tp-kv-distributed/src/consistent_hash.rs:83-100 | The loop with both early exits returns the first `count` distinct owners of the whole walk. |
| ConsistentHash.AllSeen | tp-kv-distributed/src/consistent_hash.rs:95-98 | Leaving once as many owners were seen as there are nodes loses nothing. |
| ConsistentHash.PreferenceMembers | tp-kv-distributed/src/consistent_hash.rs:77-101 | A preference list names each distinct owner on the ring exactly once. |
| ConsistentHash.PreferenceHead | tp-kv-distributed/src/consistent_hash.rs:62-101 | Its head is the key's own node. |
| ConsistentHash.NodeIsNearest | tp-kv-distributed/src/consistent_hash.rs:62-73 | A key's node owns the one entry at the least clockwise distance from the key's hash. |
| ConsistentHash.PreferenceIsByDistance | tp-kv-distributed/src/consistent_hash.rs:75-101 | Each owner in a preference list has an entry nearer to the key, clockwise, than every entry of every later owner. |
| ConsistentHash.ReplicaList | tp-kv-distributed/src/consistent_hash.rs:75-101 | A replica list has min(count, D) distinct owners, is a prefix of every longer one and is headed by the key's node. |
| ConsistentHash.PlacedMembers | tp-kv-distributed/src/consistent_hash.rs:48-52 | After placing, a hash claimed by the new node is its own, and every other hash is as before, collisions included. |
| ConsistentHash.AddKeepsValid | tp-kv-distributed/src/consistent_hash.rs:43-53 | Adding keeps entries sorted, nodes distinct and owners listed. |
| ConsistentHash.RemoveKeepsValid | tp-kv-distributed/src/consistent_hash.rs:56-59 | Removing keeps entries sorted, nodes distinct and owners listed. |
| ConsistentHash.RemoveIsMinimal | tp-kv-distributed/src/consistent_hash.rs:5-7 | After a removal every replica list is taken from the old preference list with that node deleted, for every key, count and hash. |
| ConsistentHash.AddMovesToNewOnly | tp-kv-distributed/src/consistent_hash.rs:5-7 | After an addition each key keeps its node or moves to the new one, collisions included. |
| ConsistentHash.AddThenRemove | tp-kv-distributed/src/consistent_hash.rs:43-59 | Adding and removing a node restores the ring if and only if it was new and its virtual nodes displaced nobody. |
| ConsistentHash.AddIsMinimal | tp-kv-distributed/src/consistent_hash.rs:5-7 | After an addition each preference list, the new node left out, is the list of the old entries it did not displace, collisions included; these are all of them if and only if it displaced nobody. |
| ConsistentHash.AddOrder | tp-kv-distributed/src/consistent_hash.rs:43-53 | Two additions commute if and only if no virtual node of one falls on one of the other. |
| Storage.StorageEngine.constructor | tp-kv-distributed/src/storage.rs:108-114 | A new engine is empty with counter 0. |
| Storage.StorageEngine.Get | tp-kv-distributed/src/storage.rs:127-150 | The lookup at that time is returned; an entry that is not readable is dropped and all others stay; reads, hits, misses and expiries are counted. |
| Storage.StorageEngine.Put | tp-kv-distributed/src/storage.rs:153-167 | The entry is stored under the next version, which is returned. |
| Storage.StorageEngine.RaiseCounter | tp-kv-distributed/src/storage.rs:182-193 | Whatever other threads set the counter to meanwhile, a wrap included, the loop ends with it at the version or above and at a value somebody brought; it is not lowered if they do not lower it. |
| Storage.StorageEngine.PutWithVersion | tp-kv-distributed/src/storage.rs:173-211 | The write is applied exactly when the stored version is lower, and the counter is raised even when it is rejected. |
| Storage.StorageEngine.Delete | tp-kv-distributed/src/storage.rs:214-217 | The key goes, the result says whether it was there, the counter stays. |
| Storage.StorageEngine.PurgeExpired | tp-kv-distributed/src/storage.rs:253-267 | Exactly the entries that can no longer be read go, in any order, and they are counted. |
| Storage.ReadYourWrite | tp-kv-distributed/src/storage.rs:41-167 | A local write is read back with its data and version exactly while its lifetime lasts, the last moment included, or for ever without one; a purge keeps it exactly as long; other keys read as before. |
| Storage.ReadReplicatedWrite | tp-kv-distributed/src/storage.rs:41-211 | So is a replicated write if no version as high was stored; otherwise, equal versions included, the store stays as it was. |
| Storage.ApplyKeeps | tp-kv-distributed/src/storage.rs:153-211 | One write keeps each key at its greatest version if and only if it does not take over a greater one, and the counter at the greatest version seen if and only if it does not find it used up. |
| Storage.LastWriterWins | tp-kv-distributed/src/storage.rs:153-211 | At every moment of a run each key holds a greatest-version write received for it, if and only if no local write goes to a key that holds a greater version than it gets. |
| Storage.CounterCoversVersions | tp-kv-distributed/src/storage.rs:180-193 | At every moment of a run the counter is the greatest version received, rejected ones included, if and only if no local write finds it used up. |
| Storage.UnwrappedNeverUndercuts | tp-kv-distributed/src/storage.rs:153-211 | A run whose counter never wraps never takes over a greater version, so the last writer wins in it. |
| Storage.LocalWriteDominates | tp-kv-distributed/src/storage.rs:180-181 | After any run, wrapped or not, the next local version exceeds every version received if and only if all of those are below 2^64 - 1. |
| Storage.WrappedCounterDoesNotDominate | tp-kv-distributed/src/storage.rs:156 | A run after which the counter is back at 0 and the next local version is below one received. |
| Storage.ReplicasConverge | tp-kv-distributed/src/storage.rs:169-172 | Two replicas that received the same distinct-version writes, in any order and with duplicates, and never took over a greater version, hold the same data, lifetimes and versions; and the same counter if it never wrapped. |
| Storage.ReplicasPartIff | tp-kv-distributed/src/storage.rs:153-211 | A replica agrees at every moment with one that received the same writes as replicated ones, if and only if none of its local writes took over a greater version. |
| Storage.WrappedReplicasDiverge | tp-kv-distributed/src/storage.rs:153-211 | Two runs that received the same writes, one of them a local write at a used-up counter, and hold different data. |
| Storage.WrappingMayNotUndercut | tp-kv-distributed/src/storage.rs:153-211 | A run whose counter wraps and that takes over no greater version. |
| Storage.NextKeepsCounter | tp-kv-distributed/src/storage.rs:153-193 | Every atomic step keeps the counter the greatest version seen, fresh versions fresh and finished loops covered, and never lowers it, unless a version is handed out when it is used up. |
| Storage.VersionsAreFresh | tp-kv-distributed/src/storage.rs:153-193 | Under every interleaving versions handed out are distinct and above every version whose loop had finished, and a finished loop leaves the counter at its version or above, at every moment, if and only if none is handed out when the counter is used up. |
| Storage.VersionsAreFreshFromStart | tp-kv-distributed/src/storage.rs:153-193 | The same for every run of a new counter. |
| Storage.LostRaceMakesProgress | tp-kv-distributed/src/storage.rs:182-193 | A lost exchange shrinks the gap between the version and the counter last seen, if the counter was not lowered since. |
| Storage.LoopIsBounded | tp-kv-distributed/src/storage.rs:182-193 | In every run a thread takes at most one step more than the gap between its version and the counter last seen, and a bounded number more for each wrap of the counter: the loop ends under any interference. |
| Replication.Cluster.constructor | tp-kv-distributed/src/replication.rs:58-75 | Every node starts with an empty engine. |
| Replication.Cluster.LocalPut | tp-kv-distributed/src/replication.rs:101-104 | The coordinator's own write goes through the storage engine under its next version, and that node has held it. |
| Replication.Cluster.HandleReplicate | tp-kv-distributed/src/server.rs:172-186 | The node stores the write as the engine does, acknowledges whether or not it was applied, and either way has held an entry of that version or above. |
| Replication.Cluster.ObtainVersion | tp-kv-distributed/src/replication.rs:99-120 | A replica makes the version with its own write; any other node gets it from the first replica's put, which met its quorum. |
| Replication.Cluster.PutReplicated | tp-kv-distributed/src/replication.rs:78-178 | Whenever a put returns v, at least W distinct replicas have held version v or above, and the origin and every replica that answered were told to store exactly this data and lifetime under v, also on the forwarding path and under any interference; undisturbed, those that accept it store it and no other key or node changes; exactly when it succeeds; a put is forwarded at most once. |
| Replication.Cluster.HandlePut | tp-kv-distributed/src/server.rs:129-148 | A replica answering a forwarded put acknowledges exactly when its own quorum was met, and then it and all that answered it were told to store this write and W replicas have held the version. |
| Replication.Cluster.Send | tp-kv-distributed/src/replication.rs:140-150 | An acknowledged `Replicate` means the peer was told to store this write and has held the version; undisturbed, it took the write if its own version was lower and nothing else changed. |
| Replication.Cluster.SendToPeers | tp-kv-distributed/src/replication.rs:122-168 | The count is one plus the connected replicas other than the coordinator that answered; each of them was told to store this write and has held the version; undisturbed, each took it unless it had one as new. |
| Replication.Cluster.ForwardingCountsPrimaryTwice | tp-kv-distributed/src/replication.rs:115-151 | When only the primary answers, a forwarding node counts two acknowledgements; with a quorum of at most two it succeeds exactly when the primary's own quorum was met and the reply arrived. |
| Crdt.GCounter.Increment | demos/src/bin/demo_3_3b_crdt.rs:56-58 | The replica's own entry grows by one and no other changes. |
| Crdt.GCounter.Merge | demos/src/bin/demo_3_3b_crdt.rs:66-71 | The loop, in any order, yields the entry-wise maximum. |
| Crdt.PNCounter.Increment | demos/src/bin/demo_3_3b_crdt.rs:94-96 | Only the increments change. |
| Crdt.PNCounter.Decrement | demos/src/bin/demo_3_3b_crdt.rs:98-100 | Only the decrements change. |
| Crdt.PNCounter.Merge | demos/src/bin/demo_3_3b_crdt.rs:106-109 | Both sides are joined. |
| Crdt.JoinLaws | demos/src/bin/demo_3_3b_crdt.rs:13-19 | The merge is commutative, associative and idempotent. |
| Crdt.CounterStepKeeps | demos/src/bin/demo_3_3b_crdt.rs:56-109 | Every event keeps each entry at or below its owner's own count, which equals the calls made there. |
| Crdt.CounterRunKeeps | demos/src/bin/demo_3_3b_crdt.rs:56-109 | The same over every run with stale, duplicated and reordered snapshots. |
| Crdt.CountersConverge | demos/src/bin/demo_3_3b_crdt.rs:60-109 | No replica reads more than was counted, and one that absorbed every state reads exactly increments minus decrements. |
| Crdt.OrSet.Add | demos/src/bin/demo_3_3b_crdt.rs:139-146 | The counter advances and the item gains the tag made from it. |
| Crdt.OrSet.Remove | demos/src/bin/demo_3_3b_crdt.rs:150-154 | The tags the replica sees for the item go, nothing else. |
| Crdt.OrSet.Merge | demos/src/bin/demo_3_3b_crdt.rs:175-182 | The loop, in any order, yields the item-wise union of tags; the counter stays. |
| Crdt.TagsAfter | demos/src/bin/demo_3_3b_crdt.rs:139-182 | Adding, removing and merging change the tags of each item as they should and forget no item; after an add the item is contained, after a removal not. |
| Crdt.UnionLaws | demos/src/bin/demo_3_3b_crdt.rs:13-19 | The merge of sets is commutative, associative and idempotent. |
| Crdt.MergeAfterRemove | demos/src/bin/demo_3_3b_crdt.rs:119-121 | After a removal is merged, the item is present if and only if the other state has it: a concurrent add wins, and so does an older snapshot. |
| Crdt.TagInjective | demos/src/bin/demo_3_3b_crdt.rs:141 | Equal tags come from the same replica and counter, even if identifiers contain colons. |
| Crdt.SetStepKeeps | demos/src/bin/demo_3_3b_crdt.rs:139-182 | Every event keeps: each live tag was minted by a replica that has reached its counter. |
| Crdt.AddsMintFreshTags | demos/src/bin/demo_3_3b_crdt.rs:139-146 | In every run the next add of any replica mints a tag that no replica and no snapshot in flight holds. |
| Crdt.OnlyOwnRemovalCancels | demos/src/bin/demo_3_3b_crdt.rs:148-154 | Whatever others remove and merge, a replica keeps an item's tags until it removes the item itself. |
| Crdt.PresentIffReached | demos/src/bin/demo_3_3b_crdt.rs:139-182 | After any run an item is at a replica if and only if some tag for it reached the replica, by an add or a merge, after the replica's last own removal of it. |
| Percentiles.CountPermutation | demos/src/bin/exo01_percentiles.rs:14-15 | Counting does not see the order of the values. |
| Percentiles.OrderStatUnique | demos/src/bin/exo01_percentiles.rs:12-96 | A data set has one k-th smallest value. |
| Percentiles.StatsUnique | demos/src/bin/exo01_percentiles.rs:12-96 | Hence the three strategies cannot return different statistics. |
| Percentiles.PartitionedIsOrderStat | demos/src/bin/exo01_percentiles.rs:44-51 | A value with nothing greater before it and nothing smaller after it is the order statistic of its position. |
| Percentiles.StatsOfSorted | demos/src/bin/exo01_percentiles.rs:17-21 | The statistics are those read at n/2, 99n/100 and n-1 off any sorted arrangement. |
| Percentiles.MaximumIsLast | demos/src/bin/exo01_percentiles.rs:65-67 | The maximum is the last order statistic. |
| Percentiles.Partition | demos/src/bin/exo01_percentiles.rs:34-50 | One pass puts a pivot in its place within the slice and permutes nothing outside it. |
| Percentiles.SelectNth | demos/src/bin/exo01_percentiles.rs:34-50 | Selection puts the k-th smallest of a slice at k, smaller ones before, greater ones after, as a permutation. |
| Percentiles.Sort | demos/src/bin/exo01_percentiles.rs:15 | The result is sorted and a permutation. |
| Percentiles.StatsBySort | demos/src/bin/exo01_percentiles.rs:12-22 | Panics exactly on no data, else returns the statistics. |
| Percentiles.SelectStat | demos/src/bin/exo01_percentiles.rs:44-51 | A selection on a prefix gives the order statistic of the whole data when the rest is no smaller. |
| Percentiles.StatsBySelect | demos/src/bin/exo01_percentiles.rs:24-54 | Panics exactly on fewer than three values, else returns the statistics. |
| Percentiles.StatsByHistogram | demos/src/bin/exo01_percentiles.rs:57-96 | Panics exactly on no data, a bound without a successor, a value above the bound, or in a checked build a value that occurs 2^32 times; else the maximum is right, and the result is the statistics if and only if both percentiles survive the wrapping of the buckets, as they do when no value occurs 2^32 times. |
| Percentiles.Fill | demos/src/bin/exo01_percentiles.rs:61-68 | The counting loop fills the 32-bit buckets with the occurrences modulo 2^32 and finds the maximum, or stops where it panics. |
| Percentiles.ReachedIsOrderStat | demos/src/bin/exo01_percentiles.rs:70-89 | The first bucket at which more than k values have gone by holds the k-th smallest. |
| Percentiles.RightIffSurvives | demos/src/bin/exo01_percentiles.rs:70-89 | The scan yields the k-th smallest value m if and only if the wrapped buckets up to m still count more than k values, or m is 0 and all of them count no more than k. |
| Percentiles.Scan | demos/src/bin/exo01_percentiles.rs:70-89 | The one pass, with its early exit, finds for both thresholds the first bucket that reaches them. |
| Percentiles.OverfullBucketsMislead | demos/src/bin/exo01_percentiles.rs:59-65 | With 2^32 ones the wrapped buckets give median 0, where it is 1. |
| Protobuf.VarintLength | demos/src/bin/demo09_serde_formats.rs:47-53 | A varint takes max(1, bits/7 rounded up) bytes. |
| Protobuf.VarintFitsTen | demos/src/bin/demo09_serde_formats.rs:47-53 | That is at most ten for 64 bits. |
| Protobuf.VarintRoundTrip | demos/src/bin/demo09_serde_formats.rs:47-53 | Every 64-bit value is decoded back, whatever bytes follow. |
| Protobuf.VarintPrefixFree | demos/src/bin/demo09_serde_formats.rs:47-53 | No varint is a prefix of another. |
| Protobuf.VarintBytes | demos/src/bin/demo09_serde_formats.rs:47-53 | Byte i carries the i-th group of seven bits, lowest first, and a continuation bit unless it is the last. |
| Protobuf.CastRoundTrip | demos/src/bin/demo09_serde_formats.rs:72 | The signed cast loses nothing, both ways. |
| Protobuf.LittleEndianRoundTrip | demos/src/bin/demo09_serde_formats.rs:67 | Little-endian bytes give the value back. |
| Protobuf.LittleEndianBytes | demos/src/bin/demo09_serde_formats.rs:67 | Byte i of a double is its i-th byte, lowest first. |
| Protobuf.FieldRoundTrip | demos/src/bin/demo09_serde_formats.rs:55-73 | Every field is decoded back, with the bytes after it untouched. |
| Protobuf.FieldsRoundTrip | demos/src/bin/demo09_serde_formats.rs:55-101 | Any sequence of fields is decoded back. |
| Protobuf.SpecificationExamples | demos/src/bin/demo09_serde_formats.rs:55-73 | The specification's worked examples, 150 in field 1 and "testing" in field 2, and a negative number. |
| Protobuf.SampleReport | demos/src/bin/demo09_serde_formats.rs:75-103 | A whole report byte by byte, with every field number of the mapping. |
| Protobuf.MetricRoundTrip | demos/src/bin/demo09_serde_formats.rs:86-97 | A metric is decoded back for every iteration order of its labels. |
| Protobuf.ReportRoundTrip | demos/src/bin/demo09_serde_formats.rs:79-103 | Every report is decoded back for every iteration order of every label map. |
| Protobuf.Buffer.WriteVarint | demos/src/bin/demo09_serde_formats.rs:47-53 | The loop appends the varint. |
| Protobuf.Buffer.WriteTag | demos/src/bin/demo09_serde_formats.rs:55-57 | Appends field number times eight plus wire type. |
| Protobuf.Buffer.WriteString | demos/src/bin/demo09_serde_formats.rs:59-63 | Appends a length-delimited field. |
| Protobuf.Buffer.WriteDouble | demos/src/bin/demo09_serde_formats.rs:65-68 | Appends a fixed 64-bit field. |
| Protobuf.Buffer.WriteInt64 | demos/src/bin/demo09_serde_formats.rs:70-73 | Appends a varint field of the cast value. |
| Protobuf.Buffer.WriteRecord | demos/src/bin/demo09_serde_formats.rs:98-100 | Appends a nested message with its length. |
| Protobuf.EncodeEntry | demos/src/bin/demo09_serde_formats.rs:91-93 | A label becomes an entry message. |
| Protobuf.EncodeMetric | demos/src/bin/demo09_serde_formats.rs:86-97 | The loop over the labels yields the metric's message. |
| Protobuf.Encode | demos/src/bin/demo09_serde_formats.rs:79-103 | The encoder's output is the encoding and decodes to the report. |
| CircuitBreaker.Breaker.constructor | demos/src/bin/demo_3_4a_circuit_breaker.rs:60-70 | A new breaker is closed with both counters at zero. |
| CircuitBreaker.Breaker.Before | demos/src/bin/demo_3_4a_circuit_breaker.rs:78-96 | Admits exactly when not open or the pause is over, and then half-opens with a fresh success count. |
| CircuitBreaker.Breaker.OnSuccess | demos/src/bin/demo_3_4a_circuit_breaker.rs:98-114 | The state after a reported success. |
| CircuitBreaker.Breaker.OnFailure | demos/src/bin/demo_3_4a_circuit_breaker.rs:116-135 | The state after a reported failure. |
| CircuitBreaker.Breaker.Call | demos/src/bin/demo_3_4a_circuit_breaker.rs:138-154 | A rejected call changes nothing; an admitted one reports its outcome after whatever overlapping calls did. |
| CircuitBreaker.CountersAreExact | demos/src/bin/demo_3_4a_circuit_breaker.rs:78-135 | While closed the failure counter is the length of the longest failing stretch ending here; while half open the success counter counts the trial. |
| CircuitBreaker.OpensExactly | demos/src/bin/demo_3_4a_circuit_breaker.rs:116-126 | A closed circuit opens if and only if the failures since it closed or since the last success reach max(1, threshold). |
| CircuitBreaker.ClosesExactly | demos/src/bin/demo_3_4a_circuit_breaker.rs:98-132 | A half-open circuit closes if and only if the successes since it half-opened reach max(1, threshold), and reopens if and only if a failure is reported. |
| CircuitBreaker.HalfOpensExactly | demos/src/bin/demo_3_4a_circuit_breaker.rs:82-93 | An open circuit half-opens exactly at a call that comes at least the pause after it opened, with a fresh success count, and nothing else changes it. |
| CircuitBreaker.AdmissionAloneChangesNothing | demos/src/bin/demo_3_4a_circuit_breaker.rs:80-81 | A call that finds the circuit not open changes nothing before it is answered. |
| CircuitBreaker.StaysOpen | demos/src/bin/demo_3_4a_circuit_breaker.rs:82-95 | Once open, the circuit stays open since that moment until the pause is over. |
| CircuitBreaker.NoCallWithinPause | demos/src/bin/demo_3_4a_circuit_breaker.rs:82-95 | No call is admitted within the pause after the circuit opened, for every overlap of calls and every monotone clock. |
| CircuitBreaker.RejectsExactly | demos/src/bin/demo_3_4a_circuit_breaker.rs:78-96 | A call is rejected if and only if the circuit opened less than the pause before it. |
| CircuitBreaker.CountersBounded | demos/src/bin/demo_3_4a_circuit_breaker.rs:49-57 | The counters never exceed max(1, threshold), so their 32 bits suffice. |
| WorkStealing.Pool.constructor | demos/src/bin/demo07_lockfree_crossbeam.rs:155-171 | Any placement of the tasks, all counters at zero. |
| WorkStealing.Pool.Turn | demos/src/bin/demo07_lockfree_crossbeam.rs:184-217 | One turn of a worker in place: pop, steal, lose a race, count a task or leave. |
| WorkStealing.StepKeepsTally | demos/src/bin/demo07_lockfree_crossbeam.rs:184-217 | No step loses, copies or invents a task. |
| WorkStealing.StepKeepsInv | demos/src/bin/demo07_lockfree_crossbeam.rs:184-217 | The counters always sum to the tasks done, and a worker that went stealing has an empty deque for good. |
| WorkStealing.EveryTaskOnce | demos/src/bin/demo07_lockfree_crossbeam.rs:184-236 | When all workers have left, each initial task was processed exactly as often as it was placed and the counters sum to the total, for any number of workers, placement and schedule. |
| WorkStealing.NobodyLeavesWork | demos/src/bin/demo07_lockfree_crossbeam.rs:193-217 | In every run a worker leaves only once every deque is empty. |
| WorkStealing.OldestFirst | demos/src/bin/demo07_lockfree_crossbeam.rs:156-157 | Owner and thieves alike take the oldest task: what left a deque, in order, followed by what is left is what was in it. |
| WorkStealing.CountersAreTheirOwn | demos/src/bin/demo07_lockfree_crossbeam.rs:186-201 | Each worker's counter counts the tasks it finished itself. |
| WorkStealing.StepUsesWork | demos/src/bin/demo07_lockfree_crossbeam.rs:184-217 | Every step but a lost race uses up work; a lost race costs at most one more round. |
| WorkStealing.RunsAreBounded | demos/src/bin/demo07_lockfree_crossbeam.rs:184-217 | Only lost races prolong a run, each by a bounded number of steps. |
| WorkStealing.StuckMeansDone | demos/src/bin/demo07_lockfree_crossbeam.rs:213-216 | A worker that has not left can always step, so a finished run is one where all have left. |
| ServiceStats.MutexStats.Record | demos/src/bin/exo06_stats.rs:123-138 | One record under the lock, additions wrapping. |
| ServiceStats.AtomicStats.AtomicMin | demos/src/bin/exo06_stats.rs:82-95 | Under any interference and spurious failures the minimum ends as the least of what it was, the value and the values that landed. |
| ServiceStats.AtomicStats.AtomicMax | demos/src/bin/exo06_stats.rs:67-80 | The same for the maximum. |
| ServiceStats.AtomicStats.Record | demos/src/bin/exo06_stats.rs:37-47 | An undisturbed record does what the mutex version does. |
| ServiceStats.StepKeepsCounter | demos/src/bin/exo06_stats.rs:37-44 | Every atomic step keeps every counter equal to what the threads past it added, modulo 2^64. |
| ServiceStats.StepKeepsMin | demos/src/bin/exo06_stats.rs:82-95 | Every step keeps the minimum at or below all finished latencies and equal to some latency, and never raises it. |
| ServiceStats.StepKeepsMax | demos/src/bin/exo06_stats.rs:67-80 | The same for the maximum. |
| ServiceStats.RunKeeps | demos/src/bin/exo06_stats.rs:37-95 | All three over every interleaving. |
| ServiceStats.FoldAnyOrder | demos/src/bin/exo06_stats.rs:123-138 | The mutex statistics do not depend on the order of the records. |
| ServiceStats.AgreesWithMutex | demos/src/bin/exo06_stats.rs:37-138 | Once all threads have returned, the atomics hold exactly what the mutex version holds after the same records in any order. |
| ServiceStats.ChecksPassIffFits | demos/src/bin/exo06_stats.rs:123-138 | With overflow checks the mutex version survives exactly the records whose number and total latency fit 64 bits. |
| ServiceStats.StepUsesWork | demos/src/bin/exo06_stats.rs:67-95 | Every step uses up work, a failed exchange included; a spurious failure adds none. |
| ServiceStats.RunsAreBounded | demos/src/bin/exo06_stats.rs:67-95 | Only spurious failures can prolong the loops. |
| Pipeline.SplitThenJoin | demos/src/bin/demo03_rayon_pipeline.rs:15 | Splitting loses nothing and leaves no separator in a field. |
| Pipeline.JoinThenSplit | demos/src/bin/demo03_rayon_pipeline.rs:15 | Fields without separators are split back. |
| Pipeline.FieldsOfLine | demos/src/bin/demo03_rayon_pipeline.rs:12-24 | Fewer than three fields do not parse; of more, the third decides and the rest are ignored. |
| Pipeline.ParseU32Exactly | demos/src/bin/demo03_rayon_pipeline.rs:18 | A text parses to n exactly when it is n in decimal after any leading zeros and at most one plus sign. |
| Pipeline.LineRoundTrip | demos/src/bin/demo03_rayon_pipeline.rs:12-38 | A printed event is parsed back if and only if neither text field holds a separator. |
| Pipeline.AccountAll | demos/src/bin/demo03_rayon_pipeline.rs:43-52 | The fold's loop computes the sequential result, or panics where an addition does. |
| Pipeline.MergeMaps | demos/src/bin/demo03_rayon_pipeline.rs:76-84 | In whatever order the map yields its entries, the merge adds common keys and keeps the others. |
| Pipeline.MergeTallies | demos/src/bin/demo03_rayon_pipeline.rs:76-84 | Merging the maps of two pieces gives the map of their concatenation, overflow included. |
| Pipeline.SequentialTallies | demos/src/bin/demo03_rayon_pipeline.rs:43-52 | The sequential map holds exactly the addresses with an error line, each with the sum of its latencies; a checked build panics exactly when one does not fit. |
| Pipeline.ParallelTallies | demos/src/bin/demo03_rayon_pipeline.rs:54-72 | So does the parallel one, for every cut and every reduction tree. |
| Pipeline.ParallelIsSequential | demos/src/bin/demo03_rayon_pipeline.rs:43-72 | For every cutting into pieces and every reduction tree with identities, both pipelines return the same map and panic on the same logs. |
| Pipeline.ErrorsAreSummed | demos/src/bin/demo03_rayon_pipeline.rs:54-72 | Of printed events the parallel pipeline returns, for each address with an event of level ERROR and no other, the sum of those latencies, however the work is cut. |
| Pipeline.RunParallel | demos/src/bin/demo03_rayon_pipeline.rs:54-72 | The parallel pipeline built from those loops returns the sequential result. |
| Pipeline.SumWordsIsSum | demos/src/bin/demo03_rayon_pipeline.rs:91 | The plain sum is the mathematical sum as a word, or an overflow panic exactly where it does not fit. |
| Pipeline.RecursiveSumIsSum | demos/src/bin/demo03_rayon_pipeline.rs:86-100 | So is the divide-and-conquer sum. |
| Pipeline.ChunkedMaxIsGreatest | demos/src/bin/demo03_rayon_pipeline.rs:102-107 | However chunk maxima are reduced, the result is the largest element, or 0 for no data. |

## Left out

- Raft.Cluster.RunElection: terms are unbounded here and 64 bits wide in the source; a node's identifier is its position; console output is not modelled.
- RingBuffer.Guarded.Push: one pass through the critical section; waiting on the condition variable and looking again is part of the thread steps (`RingBuffer.Step`), as for `Pop`.
- RingBuffer.Fifo: lock poisoning by a panicking thread and the accessors `len` and `is_empty` are not modelled.
- ConsistentHash.ConsistentHashRing.GetNode: the hash is an arbitrary function; how evenly it spreads keys is not modelled.
- Storage.StorageEngine.Put: atomic as a whole call; between the counter step and the insertion another write may land in the source; a checked build panics at 2^64 - 1 where a version wraps here.
- Storage.StorageEngine.PutWithVersion: atomic as a whole call; the source checks the stored version and inserts in two steps of the map.
- Storage.LastWriterWins: no deletion or expiry in the run, after which an older write may be accepted again.
- Storage.StorageEngine.Get: atomic as a whole call, a lookup and a separate removal in the source; statistics counters are unbounded; `scan` is left out.
- Replication.Cluster.PutReplicated: states that W replicas have held a version, not that they hold the same value, since two coordinators can give one version to different data; ring, replication factor and quorum are the same on all nodes and fixed during the run; the concurrent `Replicate` calls run one after another, with arbitrary interference before each.
- Replication.Cluster.Send: a reply is matched to its request; a client that goes on using its connection after a timeout is outside the model.
- Replication across nodes for reads and deletions: peers serve them by running the replicated operation again, so they have no termination measure, and results depend on timeouts.
- Crdt.CountersConverge: counts are unbounded here and 64 bits wide in the source.
- Crdt.MergeAfterRemove: removals are not durable, there being no tombstones; none is claimed.
- Percentiles.StatsBySort: `n * 99` is exact, which it is for every slice below 2^64 / 99 elements.
- Percentiles.StatsByHistogram: memory exhaustion by a large bound is left out.
- Percentiles.SelectNth: the library's selection and sort are stood for by a quickselect; only their contracts matter to the strategies.
- Protobuf.ReportRoundTrip: message lengths fit 64 bits; strings are their UTF-8 bytes and doubles their bits, so text validity and floating point are not modelled.
- Protobuf.DecodeField: wire types that the encoder never uses are errors instead of skipped fields.
- CircuitBreaker.NoCallWithinPause: the clock is read under the state lock and never runs backwards; the simulated service and retries with delays are left out.
- WorkStealing.Pool.Turn: taking a task and counting it are separate steps, but running the task has no effect of its own; each worker leaves its loop for good.
- ServiceStats.AgreesWithMutex: a thread that makes several records counts as several threads; memory orderings weaker than sequential consistency and the snapshot's average are left out.
- Pipeline.ParallelIsSequential: thread scheduling is the choice of the tree; the machine word of the totals wraps in a release build and panics in a checked one.
- Network, async runtime, TCP framing, metrics, the command line, the other demonstrations and all timing measurements: input, output or library behaviour.
- demos/src/bin/exo07_dispatcher.rs: a task submitted between the empty pop and the test of the running flag can stay queued, so there is no loss-freedom to prove.
